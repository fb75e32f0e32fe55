/** The bridge object under an arbitrary caller: its state follows the runs on values, so whatever
    holds of every run holds of the object. */
module StoreForwardReplay {
  import opened FixedStorage
  import opened CompletionLedger
  import opened StoreForwardState
  import opened StoreForwardRuns
  import opened StoreForwardBridge

  /** One call on the object; `handedBack` and `announced` are what this call returned to its caller. */
  method Call(bridge: Bridge, input: Input, ghost run: Run)
    returns (handedBack: seq<Returned>, announced: seq<Announcement>)
    requires bridge.Valid() && bridge.State() == run.state
    modifies bridge, bridge.workQueue, bridge.workQueue.storage, bridge.completionLedger, bridge.completionLedger.slots
    ensures bridge.Valid() && bridge.State() == Step(bridge.Cfg(), run, input).state
    ensures Step(bridge.Cfg(), run, input).returned == run.returned + handedBack
    ensures Step(bridge.Cfg(), run, input).announced == run.announced + announced
  {
    hide Bridge.Valid, Bridge.State, Bridge.Cfg, AdmitWorkResult, AfterAdmitWork, IsCurrentProposal, RePreview,
      AfterAdmitAction, CompleteResult, AfterComplete, DiscardStatus, AbandonStatus, RetirementOf, AfterRetire,
      AfterReset, HandBackOf, AnnouncementOf, RetirementBack;
    InFlightIsVisible(bridge);
    handedBack, announced := [], [];
    match input {
      case AdmitWorkCall(work, session, context) =>
        var admission := bridge.AdmitWork(work, session, context);
      case AdmitActionCall(action, session, polls) =>
        var admitted := bridge.AdmitAction(action, session, polls);
      case CompleteCall(action, outcome, session) =>
        var completion := bridge.Complete(action, outcome, session);
        handedBack, announced := HandBackOf(completion), AnnouncementOf(completion);
      case DiscardCall(session) =>
        var discarded, retired := bridge.DiscardOneStaleWork(session);
        handedBack := RetirementBack(discarded, retired);
        RetiredOnlyIfSo(run.state, discarded);
      case AbandonCall =>
        var abandoned, retired := bridge.AbandonFront();
        handedBack := RetirementBack(abandoned, retired);
        RetiredOnlyIfSo(run.state, abandoned);
      case ResetCall =>
        var ok := bridge.Reset();
        ResetOnlyIfIdle(run.state);
    }
  }

  lemma {:induction false} InFlightIsVisible(bridge: Bridge)
    requires bridge.Valid()
    ensures bridge.State().inFlight.Some? <==> bridge.inFlight
  {}

  lemma {:induction false} RetiredOnlyIfSo(s: BridgeState, status: RetireStatus)
    ensures !status.Retired? ==> AfterRetire(s, status) == s && RetirementBack(status, RetirementOf(s, status)) == []
  {}

  lemma {:induction false} ResetOnlyIfIdle(s: BridgeState)
    ensures s.inFlight.Some? ==> AfterReset(s) == s
  {}

  /** Any sequence of calls leaves the object in the state of the run of the same inputs, and what the
      calls returned along the way, one after the other, is what the run says was handed back and
      announced. */
  method Replay(bridge: Bridge, inputs: seq<Input>, ghost images: Images)
    returns (handedBack: seq<Returned>, announced: seq<Announcement>)
    requires bridge.Valid() && bridge.State() == INITIAL_STATE
    modifies bridge, bridge.workQueue, bridge.workQueue.storage, bridge.completionLedger, bridge.completionLedger.slots
    ensures bridge.Valid() && bridge.State() == RunOf(bridge.Cfg(), images, inputs).state
    ensures handedBack == RunOf(bridge.Cfg(), images, inputs).returned
    ensures announced == RunOf(bridge.Cfg(), images, inputs).announced
  {
    hide Invariant, Bridge.State, Bridge.Cfg, Step, Ledger.Valid, FixedRingQueue.Valid;
    handedBack, announced := [], [];
    for i := 0 to |inputs|
      invariant bridge.Valid()
      invariant var run := RunOf(bridge.Cfg(), images, inputs[..i]);
                bridge.State() == run.state && handedBack == run.returned && announced == run.announced
    {
      assert inputs[..i + 1][..i] == inputs[..i];
      var back, notices := Call(bridge, inputs[i], RunOf(bridge.Cfg(), images, inputs[..i]));
      handedBack, announced := handedBack + back, announced + notices;
    }
    assert inputs[..|inputs|] == inputs;
  }
}
