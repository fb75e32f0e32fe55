/** Which works a caller can take out of the queue: the oldest one, if nothing is in flight; and by a
    discard only if its session is over. */
module StoreForwardRetirement {
  import opened Words
  import opened IngressWork
  import opened RouteTable
  import opened ForwardPlan
  import opened PollPlanner
  import opened StoreForwardState
  import opened StoreForwardRuns
  import opened StoreForwardTheorems

  /** The oldest queued work is not of the session. */
  predicate FrontIsOver(s: BridgeState, session: SessionState) {
    s.queue != [] && !WorkCurrent(s.queue[0].workIdentity, session)
  }

  /** What handing back the oldest work changes: that work leaves the queue and is returned, and nothing
      else is touched. */
  ghost predicate HandsBackOldest(run: Run, after: Run, retired: StoreForwardRetirement) {
    && run.state.queue != []
    && run.finished < |run.lives|
    && var front, life := run.state.queue[0], run.lives[run.finished];
       && after.lives == run.lives[run.finished := life.(ending := EndedRetired)]
       && after.returned == run.returned + [Returned(life.work.identity, life.context)]
       && retired == StoreForwardRetirement(life.work.identity, life.work.kind, life.context)
       && after.state.queue == run.state.queue[1..]
       && after.state.poll == run.state.poll
       && after.state.requestSequence == run.state.requestSequence
       && after.state.inFlight.None?
       && after == run.(state := after.state, lives := after.lives, finished := after.finished,
                        returned := after.returned)
  }

  lemma {:induction false} RetiresOldest(cfg: Config, images: Images, run: Run, status: RetireStatus)
    requires RunInvariant(cfg, images, run) && status.Retired? && run.state.queue != [] && run.state.inFlight.None?
    ensures HandsBackOldest(run, RunRetire(run, status), RetirementOf(run.state, status))
  {
    hide Invariant, Lives, LifeOk, Concat, RecordAll, HandedBack, FrontHolds, Continues;
    FrontLifeContinues(cfg.planner, run);
    LifeIsFront(cfg.planner, FrontLife(run), run.state.queue[0]);
  }

  lemma {:induction false} LifeIsFront(planner: ForwardPlanner, life: WorkLife, slot: WorkSlot)
    requires Continues(planner, life, slot, false, None)
    ensures life.work.identity == slot.workIdentity && life.context == slot.userContext
    ensures life.work.kind == slot.kind
  {}

  /** A discard over every run. Whatever the session, a work that is still current, or anything while an
      action is in flight, stays exactly as it is; an idle oldest work of another session, and only
      that, is handed back. */
  lemma {:induction false} DiscardedExactly(cfg: Config, images: Images, inputs: seq<Input>, session: SessionState)
    requires Usable(cfg.planner.routes)
    ensures var run, after := RunOf(cfg, images, inputs), RunOf(cfg, images, inputs + [DiscardCall(session)]);
            var status := DiscardStatus(run.state, session);
            && (status.RetireActionInFlight? <==> run.state.inFlight.Some?)
            && (status.RetireEmpty? <==> run.state.inFlight.None? && run.state.queue == [])
            && (status.WorkStillCurrent?
                <==> run.state.inFlight.None? && run.state.queue != [] && !FrontIsOver(run.state, session))
            && if run.state.inFlight.None? && FrontIsOver(run.state, session) then
                 status.Retired? && HandsBackOldest(run, after, RetirementOf(run.state, status))
               else after == run && RetirementOf(run.state, status) == NO_RETIREMENT
  {
    hide RunOf, RunInvariant, WorkCurrent, HandsBackOldest;
    var run := RunOf(cfg, images, inputs);
    ReachableRuns(cfg, images, inputs);
    RunExtends(cfg, images, inputs, DiscardCall(session));
    if run.state.inFlight.None? && FrontIsOver(run.state, session) {
      RetiresOldest(cfg, images, run, Retired);
    }
  }

  /** An abandonment hands back the idle oldest work of any session. */
  lemma {:induction false} AbandonedExactly(cfg: Config, images: Images, inputs: seq<Input>)
    requires Usable(cfg.planner.routes)
    ensures var run, after := RunOf(cfg, images, inputs), RunOf(cfg, images, inputs + [AbandonCall]);
            var status := AbandonStatus(run.state);
            && (status.RetireActionInFlight? <==> run.state.inFlight.Some?)
            && (status.RetireEmpty? <==> run.state.inFlight.None? && run.state.queue == [])
            && if run.state.inFlight.None? && run.state.queue != [] then
                 status.Retired? && HandsBackOldest(run, after, RetirementOf(run.state, status))
               else after == run && RetirementOf(run.state, status) == NO_RETIREMENT
  {
    hide RunOf, RunInvariant, HandsBackOldest;
    var run := RunOf(cfg, images, inputs);
    ReachableRuns(cfg, images, inputs);
    RunExtends(cfg, images, inputs, AbandonCall);
    if run.state.inFlight.None? && run.state.queue != [] {
      RetiresOldest(cfg, images, run, Retired);
    }
  }

  /** A reset empties an idle engine and starts its fairness over, but keeps counting requests; while an
      action is in flight it does nothing. */
  lemma {:induction false} ResetExactly(cfg: Config, images: Images, inputs: seq<Input>)
    requires Usable(cfg.planner.routes)
    ensures var run, after := RunOf(cfg, images, inputs), RunOf(cfg, images, inputs + [ResetCall]);
            if run.state.inFlight.Some? then after == run
            else
              && after.state.queue == [] && after.state.ledger == map[]
              && after.state.poll == PollPlannerState(0, 0, 0, false)
              && after.state.requestSequence == run.state.requestSequence
              && after.state.inFlight.None?
              && after.returned == run.returned && after.announced == run.announced && after.writes == run.writes
              && forall i | run.finished <= i < |run.lives| ::
                   i < |after.lives| && after.lives[i] == run.lives[i].(ending := EndedReset)
  {
    hide RunOf, RunInvariant;
    RunExtends(cfg, images, inputs, ResetCall);
  }

  // ----- clearing out an old session -----

  /** A preview is refused for a stale work exactly while the oldest work is not of the session. */
  lemma {:induction false} StaleWorkExactly(
    cfg: Config, s: BridgeState, session: SessionState, now: u32, polls: PollSet, writeContext: Handle)
    ensures Preview(cfg, s, session, now, polls, writeContext).status.StaleWork?
            <==> cfg.storage && s.inFlight.None? && FrontIsOver(s, session)
  {
    hide WorkCurrent, Choice, Plannable, FragmentAt;
  }

  /** The queue from its first current work on. */
  function FromFirstCurrent(queue: seq<WorkSlot>, session: SessionState): seq<WorkSlot>
    decreases |queue|
  {
    if queue == [] || WorkCurrent(queue[0].workIdentity, session) then queue
    else FromFirstCurrent(queue[1..], session)
  }

  function Discards(session: SessionState, n: nat): (calls: seq<Input>)
    ensures |calls| == n && forall i | 0 <= i < n :: calls[i] == DiscardCall(session)
  {
    seq(n, i => DiscardCall(session))
  }

  /** Discarding an idle engine once per queued work clears out exactly the works before the first
      current one: nothing of the session is lost, and no preview of it is refused as stale. */
  lemma {:induction false} DiscardsClearOut(
    cfg: Config, images: Images, inputs: seq<Input>, session: SessionState, n: nat)
    requires Usable(cfg.planner.routes) && RunOf(cfg, images, inputs).state.inFlight.None?
    requires n >= |RunOf(cfg, images, inputs).state.queue|
    ensures var run, after := RunOf(cfg, images, inputs), RunOf(cfg, images, inputs + Discards(session, n));
            && after.state.inFlight.None?
            && after.state.queue == FromFirstCurrent(run.state.queue, session)
            && !FrontIsOver(after.state, session)
            && |after.returned| == |run.returned| + |run.state.queue| - |after.state.queue|
    decreases n
  {
    hide RunOf, WorkCurrent, DiscardStatus;
    var run := RunOf(cfg, images, inputs);
    if n == 0 {
      assert inputs + Discards(session, 0) == inputs;
    } else {
      var next := inputs + [DiscardCall(session)];
      DiscardedExactly(cfg, images, inputs, session);
      assert inputs + Discards(session, n) == next + Discards(session, n - 1);
      if FrontIsOver(run.state, session) {
        DiscardsClearOut(cfg, images, next, session, n - 1);
      } else {
        DiscardsKeep(cfg, images, next, session, n - 1);
      }
    }
  }

  lemma {:induction false} DiscardsKeep(
    cfg: Config, images: Images, inputs: seq<Input>, session: SessionState, n: nat)
    requires Usable(cfg.planner.routes) && !FrontIsOver(RunOf(cfg, images, inputs).state, session)
    ensures RunOf(cfg, images, inputs + Discards(session, n)) == RunOf(cfg, images, inputs)
    decreases n
  {
    hide RunOf, WorkCurrent, DiscardStatus;
    if n == 0 {
      assert inputs + Discards(session, 0) == inputs;
    } else {
      var next := inputs + [DiscardCall(session)];
      DiscardedExactly(cfg, images, inputs, session);
      assert inputs + Discards(session, n) == next + Discards(session, n - 1);
      DiscardsKeep(cfg, images, next, session, n - 1);
    }
  }
}
