/** What the engine answers to previews, presented actions and completions, and that it does one thing
    at a time. */
module StoreForwardAnswers {
  import opened Words
  import opened IngressWork
  import opened ForwardPlan
  import opened CompletionTransition
  import opened CompletionLedger
  import opened PollPlanner
  import opened StoreForwardState
  import opened StoreForwardRuns
  import opened StoreForwardTheorems
  import opened StoreForwardSequences
  import opened StoreForwardRetirement

  // ----- previews and presented actions -----

  /** What stands in the way of a preview before any poll is looked at. */
  lemma {:induction false} ObstructedExactly(
    cfg: Config, s: BridgeState, session: SessionState, now: u32, polls: PollSet, writeContext: Handle)
    requires Invariant(cfg, s)
    ensures var proposal := Preview(cfg, s, session, now, polls, writeContext);
            var free := cfg.storage && s.inFlight.None?;
            && (proposal.status.PreviewStorageInvalid? <==> !cfg.storage)
            && (proposal.status.PreviewActionInFlight? <==> cfg.storage && s.inFlight.Some?)
            && (proposal.status.StaleWork? <==> free && FrontIsOver(s, session))
            && (proposal.status.PreviewPollStorageInvalid?
                <==> free && !FrontIsOver(s, session) && polls.candidates != [] && !polls.present)
            && (!proposal.status.ActionReady? ==> proposal.action == NO_BRIDGE_ACTION)
  {
    hide Invariant, WorkCurrent, Plannable, FragmentAt, FirstDue;
  }

  /** Some preview of the present state returns exactly this action. */
  ghost predicate Previewed(cfg: Config, s: BridgeState, action: StoreForwardAction, session: SessionState,
      polls: PollSet) {
    exists now: u32, writeContext: Handle :: Proposes(cfg, s, session, now, polls, writeContext, action)
  }

  /** Each answer to a presented action; the ledger and the fairness rule never refuse one. */
  lemma {:induction false} PresentedExactly(
    cfg: Config, s: BridgeState, action: StoreForwardAction, session: SessionState, polls: PollSet)
    requires Invariant(cfg, s)
    ensures var status := AdmitActionStatusOf(cfg, s, action, session, polls);
            var open := s.inFlight.None? && !action.kind.NoAction?;
            && (status.AdmitActionInFlight? <==> s.inFlight.Some?)
            && (status.InvalidAction? <==> s.inFlight.None? && action.kind.NoAction?)
            && (status.StaleProposal? <==> open && !Previewed(cfg, s, action, session, polls))
            && (status.ActionAdmitted? <==> Previewed(cfg, s, action, session, polls) && action.requiresCompletion)
            && (status.Consumed? <==> Previewed(cfg, s, action, session, polls) && !action.requiresCompletion)
  {
    hide Invariant, IsCurrentProposal;
    AdmissionExact(cfg, s, action, session, polls);
  }

  /** An admitted action is in flight from then on; a refused one leaves everything as it is. */
  lemma {:induction false} AdmittedIsInFlight(
    cfg: Config, run: Run, action: StoreForwardAction, session: SessionState, polls: PollSet)
    ensures var status := AdmitActionStatusOf(cfg, run.state, action, session, polls);
            var after := Step(cfg, run, AdmitActionCall(action, session, polls));
            && (status.ActionAdmitted? ==> run.state.inFlight.None? && after.state.inFlight == Some(action))
            && (status.Consumed? ==> after.state.inFlight.None? && after == run.(state := after.state))
            && (status.Consumed? ==>
                  after.state == run.state.(poll := after.state.poll, revision := after.state.revision))
            && (!status.ActionAdmitted? && !status.Consumed? ==> after == run)
  {
    hide IsCurrentProposal, RePreview, PollAfter;
  }

  // ----- completions -----

  /** Each answer to a completion; the ledger never rejects one for any other reason. */
  lemma {:induction false} CompletionAnswers(
    s: BridgeState, action: StoreForwardAction, outcome: DownstreamOutcome, session: SessionState)
    ensures var status := CompleteResult(s, action, outcome, session).status;
            var matches := s.inFlight == Some(action);
            var over := action.kind.ForwardWrite? && !WorkCurrent(action.write.identity.work, session);
            && (status.NoActionInFlight? <==> s.inFlight.None?)
            && (status.ActionMismatch? <==> s.inFlight.Some? && !matches)
            && (status.CompleteOutcomeInvalid? <==> matches && outcome.UnknownOutcome?)
            && (status.CompleteStaleSession? <==> matches && !outcome.UnknownOutcome? && over)
            && (status.Completed? <==> matches && !outcome.UnknownOutcome? && !over)
  {
    hide WorkCurrent, SlotAfterCompletion, Summarize, DecisionFor;
  }

  /** A completion that is not accepted changes nothing and says nothing about any work. */
  lemma {:induction false} RefusedCompletion(
    cfg: Config, run: Run, action: StoreForwardAction, outcome: DownstreamOutcome, session: SessionState)
    requires run.state.inFlight != Some(action) || outcome.UnknownOutcome?
    ensures Step(cfg, run, CompleteCall(action, outcome, session)) == run
    ensures var result, held := CompleteResult(run.state, action, outcome, session),
                if run.state.inFlight.Some? then run.state.inFlight.value else action;
            && result.decision == NO_DECISION && result.work == NO_SUMMARY && !result.workRetired
            && result.kind == held.kind && result.outcome == outcome
            && result.workContext == (if run.state.inFlight.Some? then held.workContext else NULL_HANDLE)
  {
    hide WorkCurrent, SlotAfterCompletion, Summarize, DecisionFor, Transition;
  }

  /** A completed poll frees the engine and touches no work, no image and no fairness state. */
  lemma {:induction false} PollCompleted(
    cfg: Config, run: Run, action: StoreForwardAction, outcome: DownstreamOutcome, session: SessionState)
    requires run.state.inFlight == Some(action) && action.kind.Poll? && !outcome.UnknownOutcome?
    ensures var after := Step(cfg, run, CompleteCall(action, outcome, session));
            && after.state == run.state.(inFlight := None, revision := NextNonZeroSequence32(run.state.revision))
            && after == run.(state := after.state)
    ensures CompleteResult(run.state, action, outcome, session)
            == StoreForwardCompletion(Completed, Poll, outcome, NO_DECISION, NO_SUMMARY, false, action.workContext)
  {}

  /** A write whose session is over is dropped with its work, however it ended: the work goes back to
      its owner, nothing is recorded or announced, and the caller is asked for nothing. */
  lemma {:induction false} StaleCompleted(
    cfg: Config, images: Images, run: Run, action: StoreForwardAction, outcome: DownstreamOutcome,
    session: SessionState)
    requires RunInvariant(cfg, images, run)
    requires run.state.inFlight == Some(action) && action.kind.ForwardWrite? && !outcome.UnknownOutcome?
    requires !WorkCurrent(action.write.identity.work, session)
    ensures var after := Step(cfg, run, CompleteCall(action, outcome, session));
            var result := CompleteResult(run.state, action, outcome, session);
            && run.finished < |run.lives|
            && var life := run.lives[run.finished];
               && result.workRetired && result.workContext == life.context && result.outcome == outcome
               && result.work == WorkCompletionSummary(life.work.identity, Pending, 1, false, false)
               && result.decision.status.StaleCompletion?
               && result.decision.appliedAction.NoImageAction?
               && result.decision.desiredDisposition.Unchanged?
               && result.decision.notice.NoNotice?
               && after.lives == run.lives[run.finished := life.(ending := EndedStale)]
               && after.returned == run.returned + [Returned(life.work.identity, life.context)]
               && after.announced == run.announced && after.applied == run.applied && after.images == run.images
               && after.state.inFlight.None? && after.state.queue == run.state.queue[1..]
  {
    hide Invariant, Lives, Concat, RecordAll, HandedBack, Transition, LifeOk, Continues, FrontHolds, CompleteResult,
      AfterComplete, WorkCurrent, DecisionFor, Summarize, SlotAfterCompletion, AfterResolve, EntryAgrees, IssuedParts,
      AppliedParts, NoticeParts;
    var s, life, planner := run.state, FrontLife(run), cfg.planner;
    CompleteWriteShape(cfg, s, action, outcome, session);
    FrontInFlight(cfg, s);
    FrontLifeContinues(planner, run);
    LiveFacts(planner, life, s.queue[0], action.write);
    RejectionRecordsNothing(run.images, action.write, StaleCompletion);
    OutstandingSummary(planner, s.queue[0], s.ledger[s.queue[0].workIdentity], action.write);
  }

  lemma {:induction false} OutstandingSummary(
    planner: ForwardPlanner, slot: WorkSlot, record: LedgerSlot, write: PlannedWrite)
    requires EntryAgrees(planner, slot, record, false, Some(write))
    ensures Summarize(record) == WorkCompletionSummary(slot.workIdentity, Pending, 1, false, false)
  {
    hide OnPlan;
  }

  // ----- one thing at a time -----

  /** The call ends the action in flight, accepted or refused as stale. */
  predicate Finishes(s: BridgeState, input: Input) {
    input.CompleteCall? &&
    var status := CompleteResult(s, input.action, input.outcome, input.session).status;
    status.Completed? || status.CompleteStaleSession?
  }

  /** The actions that a run has brought to an end, in order. */
  ghost function Ended(cfg: Config, images: Images, inputs: seq<Input>): seq<StoreForwardAction>
    decreases |inputs|
  {
    if inputs == [] then [] else
      var before, last := inputs[..|inputs| - 1], inputs[|inputs| - 1];
      Ended(cfg, images, before) + (if Finishes(RunOf(cfg, images, before).state, last) then [last.action] else [])
  }

  function InFlightActions(s: BridgeState): seq<StoreForwardAction> {
    if s.inFlight.Some? then [s.inFlight.value] else []
  }

  lemma {:induction false} StepInFlight(cfg: Config, run: Run, input: Input)
    ensures var after := Step(cfg, run, input).state;
            if Dispatches(cfg, run.state, input) then
              run.state.inFlight.None? && after.inFlight == Some(input.action)
            else if Finishes(run.state, input) then
              run.state.inFlight == Some(input.action) && after.inFlight.None?
            else after.inFlight == run.state.inFlight
  {
    hide AdmitWorkResult, IsCurrentProposal, RePreview, PollAfter, WorkCurrent, SlotAfterCompletion, Summarize,
      DecisionFor, Transition;
  }

  /** One action at a time: what has been dispatched is, in the same order, what has been brought to an
      end, and after that at most the one action in flight. So a dispatched action is ended exactly
      once, before the next one is dispatched. */
  lemma {:induction false} OneAtATime(cfg: Config, images: Images, inputs: seq<Input>)
    ensures Dispatched(cfg, images, inputs)
            == Ended(cfg, images, inputs) + InFlightActions(RunOf(cfg, images, inputs).state)
    decreases |inputs|
  {
    hide Step, Finishes, Dispatches;
    if inputs == [] {
      assert RunOf(cfg, images, inputs).state == INITIAL_STATE;
    } else {
      var before, last := inputs[..|inputs| - 1], inputs[|inputs| - 1];
      OneAtATime(cfg, images, before);
      StepInFlight(cfg, RunOf(cfg, images, before), last);
      DispatchIsNoEnd(cfg, RunOf(cfg, images, before).state, last);
    }
  }

  lemma {:induction false} DispatchIsNoEnd(cfg: Config, s: BridgeState, input: Input)
    ensures !(Dispatches(cfg, s, input) && Finishes(s, input))
  {}
}
