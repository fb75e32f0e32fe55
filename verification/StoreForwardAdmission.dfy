/** When a work is admitted, over every run: what each refusal means, and that the whole capacity can
    be used. */
module StoreForwardAdmission {
  import opened Words
  import opened IngressWork
  import opened RouteTable
  import opened ForwardPlan
  import opened CompletionLedger
  import opened StoreForwardState
  import opened StoreForwardRuns
  import opened StoreForwardTheorems

  /** The work is of the present session and its preflight raises no objection. */
  ghost predicate Acceptable(cfg: Config, work: IngressWork, session: SessionState) {
    WorkCurrent(work.identity, session) && BeginStatus(cfg.planner, work).Ready?
  }

  /** There is room for one more work. */
  predicate HasRoom(cfg: Config, s: BridgeState) {
    cfg.storage && |s.queue| < cfg.queueCapacity && |s.queue| < cfg.ledgerCapacity
  }

  ghost predicate Admissible(cfg: Config, s: BridgeState, work: IngressWork, session: SessionState) {
    HasRoom(cfg, s) && Acceptable(cfg, work, session) && !Queued(s.queue, work.identity)
  }

  lemma {:induction false} QueueIsLedger(cfg: Config, s: BridgeState, work: WorkIdentity)
    requires Invariant(cfg, s)
    ensures |s.ledger| == |s.queue| <= cfg.queueCapacity && |s.queue| <= cfg.ledgerCapacity
    ensures work in s.ledger <==> Queued(s.queue, work)
  {
    hide Entries, RetainedAction, Usable;
  }

  /** Each answer to a work, in terms of the queue alone. */
  lemma {:induction false} AdmissionAnswers(cfg: Config, s: BridgeState, work: IngressWork, session: SessionState)
    requires Invariant(cfg, s)
    ensures var result := AdmitWorkResult(cfg, s, work, session);
            && (result.status.WorkAdmitted? <==> Admissible(cfg, s, work, session))
            && (result.status.WorkAdmitted? ==> result.planStatus.Ready? && result.ledgerStatus.Reserved?)
            && (result.status.AdmitStorageInvalid? <==> !cfg.storage)
            && (result.status.QueueFull? <==> cfg.storage && |s.queue| == cfg.queueCapacity)
            && (result.status.PlanRejected?
                <==> cfg.storage && |s.queue| < cfg.queueCapacity && !Acceptable(cfg, work, session))
            && (result.status.PlanRejected? ==>
                  result.planStatus == if WorkCurrent(work.identity, session) then BeginStatus(cfg.planner, work)
                                       else StaleSession)
            && (result.status.AdmitLedgerRejected?
                <==> cfg.storage && |s.queue| < cfg.queueCapacity && Acceptable(cfg, work, session)
                     && (Queued(s.queue, work.identity) || |s.queue| == cfg.ledgerCapacity))
            && (result.status.AdmitLedgerRejected? ==>
                  result.ledgerStatus == if Queued(s.queue, work.identity) then DuplicateWork else LedgerFull)
  {
    hide Invariant, BeginStatus, WorkCurrent;
    QueueIsLedger(cfg, s, work.identity);
  }

  /** A call with a work adds that work's life at the end if and only if the work is admissible, and
      changes nothing otherwise: in every reachable state there is room up to the smaller capacity,
      whatever else is queued or in flight. */
  lemma {:induction false} AdmittedExactly(
    cfg: Config, images: Images, inputs: seq<Input>, work: IngressWork, session: SessionState, context: Handle)
    requires Usable(cfg.planner.routes)
    ensures var run := RunOf(cfg, images, inputs);
            var after := RunOf(cfg, images, inputs + [AdmitWorkCall(work, session, context)]);
            if Admissible(cfg, run.state, work, session) then
              && after.lives == run.lives + [WorkLife(work, context, [], [], [], StillQueued)]
              && |after.state.queue| == |run.state.queue| + 1
              && (forall other ::
                    Queued(after.state.queue, other) <==> Queued(run.state.queue, other) || other == work.identity)
            else after == run
  {
    hide RunOf, Invariant, AdmitWorkResult, Admissible;
    var run, call := RunOf(cfg, images, inputs), AdmitWorkCall(work, session, context);
    RunExtends(cfg, images, inputs, call);
    ReachableStates(cfg, images, inputs);
    AdmissionAnswers(cfg, run.state, work, session);
    if Admissible(cfg, run.state, work, session) {
      AdmittedIsQueued(run.state, work, context);
    }
  }

  lemma {:induction false} AdmittedIsQueued(s: BridgeState, work: IngressWork, context: Handle)
    requires work.snapshot.data.Buffer? ==> work.count <= |work.snapshot.data.values|
    ensures var after := AfterAdmitWork(s, work, context);
            && |after.queue| == |s.queue| + 1
            && forall other :: Queued(after.queue, other) <==> Queued(s.queue, other) || other == work.identity
  {
    var after := AfterAdmitWork(s, work, context);
    assert after.queue[|s.queue|].workIdentity == work.identity;
    forall other
      ensures Queued(after.queue, other) <==> Queued(s.queue, other) || other == work.identity
    {
      if i :| 0 <= i < |s.queue| && s.queue[i].workIdentity == other {
        assert after.queue[i].workIdentity == other;
      }
    }
  }

  // ----- the whole capacity -----

  predicate DistinctIdentities(works: seq<IngressWork>) {
    forall i, j | 0 <= i < j < |works| :: works[i].identity != works[j].identity
  }

  ghost predicate AllAcceptable(cfg: Config, works: seq<IngressWork>, session: SessionState) {
    forall i | 0 <= i < |works| :: Acceptable(cfg, works[i], session)
  }

  /** One call for each work, in order. */
  function AdmitCalls(works: seq<IngressWork>, session: SessionState): (calls: seq<Input>)
    ensures |calls| == |works|
    ensures forall i | 0 <= i < |works| :: calls[i] == AdmitWorkCall(works[i], session, NULL_HANDLE)
  {
    seq(|works|, i requires 0 <= i < |works| => AdmitWorkCall(works[i], session, NULL_HANDLE))
  }

  ghost predicate QueuedExactly(s: BridgeState, works: seq<IngressWork>) {
    && |s.queue| == |works|
    && forall work :: Queued(s.queue, work) <==> exists i | 0 <= i < |works| :: works[i].identity == work
  }

  /** Any acceptable works with different identities, up to the smaller of the two capacities, are all
      admitted one after the other, and wait in the order in which they were offered. */
  lemma {:induction false} WholeCapacity(
    cfg: Config, images: Images, works: seq<IngressWork>, session: SessionState)
    requires Usable(cfg.planner.routes) && cfg.storage
    requires |works| <= cfg.queueCapacity && |works| <= cfg.ledgerCapacity
    requires DistinctIdentities(works) && AllAcceptable(cfg, works, session)
    ensures var run := RunOf(cfg, images, AdmitCalls(works, session));
            && |run.lives| == |works| == |run.state.queue|
            && (forall i | 0 <= i < |works| :: run.lives[i].work == works[i])
            && QueuedExactly(run.state, works)
    decreases |works|
  {
    hide Step, Acceptable, Admissible, Queued;
    if works == [] {
      EmptyQueue();
    } else {
      var last := |works| - 1;
      var before, calls := works[..last], AdmitCalls(works[..last], session);
      var run := RunOf(cfg, images, calls);
      WholeCapacity(cfg, images, before, session);
      assert AdmitCalls(works, session) == calls + [AdmitWorkCall(works[last], session, NULL_HANDLE)];
      assert !Queued(run.state.queue, works[last].identity);
      RoomForOne(cfg, run.state, works[last], session);
      AdmittedExactly(cfg, images, calls, works[last], session, NULL_HANDLE);
      hide RunOf;
      QueuedOneMore(run.state, RunOf(cfg, images, AdmitCalls(works, session)).state, works);
    }
  }

  lemma {:induction false} EmptyQueue()
    ensures QueuedExactly(INITIAL_STATE, [])
  {}

  lemma {:induction false} RoomForOne(cfg: Config, s: BridgeState, work: IngressWork, session: SessionState)
    requires cfg.storage && |s.queue| < cfg.queueCapacity && |s.queue| < cfg.ledgerCapacity
    requires Acceptable(cfg, work, session) && !Queued(s.queue, work.identity)
    ensures Admissible(cfg, s, work, session)
  {}

  lemma {:induction false} QueuedOneMore(s: BridgeState, after: BridgeState, works: seq<IngressWork>)
    requires works != [] && QueuedExactly(s, works[..|works| - 1]) && |after.queue| == |s.queue| + 1
    requires forall other ::
               Queued(after.queue, other) <==> Queued(s.queue, other) || other == works[|works| - 1].identity
    ensures QueuedExactly(after, works)
  {
    hide Queued;
    var last := |works| - 1;
    forall work
      ensures Queued(after.queue, work) <==> exists i | 0 <= i < |works| :: works[i].identity == work
    {
      if i :| 0 <= i < last && works[..last][i].identity == work {
        assert works[i].identity == work;
      }
      if i :| 0 <= i < |works| && works[i].identity == work {
        assert i < last ==> works[..last][i].identity == work;
      }
    }
  }
}
