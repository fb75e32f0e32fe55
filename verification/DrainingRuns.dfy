/** The drain as a run: its rounds are calls on the engine, so what holds of runs holds of it. */
module DrainingRuns {
  import opened IngressWork
  import opened RouteTable
  import opened PollPlanner
  import opened StoreForwardState
  import opened StoreForwardRuns
  import opened StoreForwardTheorems
  import opened BoundedDrain

  /** The calls of one round: present what is previewed, and complete it if it needs completion. */
  ghost function RoundCalls(cfg: Config, s: BridgeState, round: DrainRound): seq<Input> {
    var proposal := RoundProposal(cfg, s, round);
    var admit := AdmitActionCall(proposal.action, round.session, round.polls);
    if !proposal.status.ActionReady? then []
    else if !proposal.action.requiresCompletion then [admit]
    else [admit, CompleteCall(proposal.action, round.outcome, round.session)]
  }

  ghost function DrainCalls(cfg: Config, s: BridgeState, rounds: seq<DrainRound>): seq<Input>
    decreases |rounds|
  {
    if rounds == [] || s.queue == [] then [] else
      RoundCalls(cfg, s, rounds[0]) + DrainCalls(cfg, AfterRound(cfg, s, rounds[0]), rounds[1..])
  }

  lemma {:induction false} AdmittedStep(cfg: Config, run: Run, action: StoreForwardAction, session: SessionState,
      polls: PollSet)
    requires run.state.inFlight.None? && !action.kind.NoAction?
    requires IsCurrentProposal(cfg, run.state, action, session, polls)
    ensures Step(cfg, run, AdmitActionCall(action, session, polls)).state
            == AfterAdmitAction(run.state, action, RePreview(cfg, run.state, action, session, polls).cursor)
  {
    hide Preview, AfterAdmitAction;
  }

  lemma {:induction false} CompletedStep(cfg: Config, run: Run, input: Input)
    requires input.CompleteCall?
    ensures Step(cfg, run, input).state == AfterComplete(run.state, input.action, input.outcome, input.session)
  {
    hide AfterComplete, CompleteResult, Transition;
  }

  /** One round of the drain is these calls, one after the other. */
  lemma {:induction false} RoundIsCalls(cfg: Config, images: Images, inputs: seq<Input>, round: DrainRound)
    requires Usable(cfg.planner.routes)
    ensures var s := RunOf(cfg, images, inputs).state;
            RunOf(cfg, images, inputs + RoundCalls(cfg, s, round)).state == AfterRound(cfg, s, round)
  {
    hide RunOf, Step, Invariant, Preview, AfterAdmitAction, AfterComplete, IsCurrentProposal, Usable;
    var run := RunOf(cfg, images, inputs);
    var proposal := RoundProposal(cfg, run.state, round);
    var calls := RoundCalls(cfg, run.state, round);
    if proposal.status.ActionReady? {
      ReachableStates(cfg, images, inputs);
      PreviewIsAdmissible(cfg, run.state, round.session, round.now, round.polls, round.writeContext);
      PreviewIsSound(cfg, run.state, round.session, round.now, round.polls, round.writeContext);
      RunExtends(cfg, images, inputs, calls[0]);
      AdmittedStep(cfg, run, proposal.action, round.session, round.polls);
      if proposal.action.requiresCompletion {
        RunExtends(cfg, images, inputs + [calls[0]], calls[1]);
        CompletedStep(cfg, RunOf(cfg, images, inputs + [calls[0]]), calls[1]);
        assert inputs + calls == inputs + [calls[0]] + [calls[1]];
      }
    } else {
      assert inputs + calls == inputs;
    }
  }

  /** Draining is running: after the calls of all its rounds the engine is where the drain says. */
  lemma {:induction false} DrainIsRun(cfg: Config, images: Images, inputs: seq<Input>, rounds: seq<DrainRound>)
    requires Usable(cfg.planner.routes)
    ensures var s := RunOf(cfg, images, inputs).state;
            RunOf(cfg, images, inputs + DrainCalls(cfg, s, rounds)).state == Drained(cfg, s, rounds)
    decreases |rounds|
  {
    hide RunOf, RoundCalls, AfterRound, Usable;
    var s := RunOf(cfg, images, inputs).state;
    if rounds == [] || s.queue == [] {
      assert inputs + DrainCalls(cfg, s, rounds) == inputs;
    } else {
      var calls := RoundCalls(cfg, s, rounds[0]);
      RoundIsCalls(cfg, images, inputs, rounds[0]);
      DrainIsRun(cfg, images, inputs + calls, rounds[1..]);
      assert inputs + DrainCalls(cfg, s, rounds)
          == inputs + calls + DrainCalls(cfg, AfterRound(cfg, s, rounds[0]), rounds[1..]);
    }
  }

  // ----- everything comes back -----

  predicate OnlyActions(calls: seq<Input>) {
    forall i | 0 <= i < |calls| :: calls[i].AdmitActionCall? || calls[i].CompleteCall?
  }

  lemma {:induction false} DrainOnlyActs(cfg: Config, s: BridgeState, rounds: seq<DrainRound>)
    ensures OnlyActions(DrainCalls(cfg, s, rounds))
    decreases |rounds|
  {
    hide Preview, AfterRound;
    if rounds == [] || s.queue == [] {
    } else {
      DrainOnlyActs(cfg, AfterRound(cfg, s, rounds[0]), rounds[1..]);
    }
  }

  predicate SameWorks(lives: seq<WorkLife>, others: seq<WorkLife>) {
    && |lives| == |others|
    && forall i | 0 <= i < |lives| :: lives[i].work == others[i].work && lives[i].context == others[i].context
  }

  lemma {:induction false} ActionsAdmitNothing(cfg: Config, images: Images, inputs: seq<Input>, calls: seq<Input>)
    requires OnlyActions(calls)
    ensures SameWorks(RunOf(cfg, images, inputs + calls).lives, RunOf(cfg, images, inputs).lives)
    decreases |calls|
  {
    hide RunOf, Step;
    if calls == [] {
      assert inputs + calls == inputs;
    } else {
      var before, last := calls[..|calls| - 1], calls[|calls| - 1];
      assert OnlyActions(before);
      ActionsAdmitNothing(cfg, images, inputs, before);
      RunExtends(cfg, images, inputs + before, last);
      assert inputs + calls == inputs + before + [last];
      ActionKeepsLives(cfg, RunOf(cfg, images, inputs + before), last);
    }
  }

  lemma {:induction false} ActionKeepsLives(cfg: Config, run: Run, input: Input)
    requires input.AdmitActionCall? || input.CompleteCall?
    ensures SameWorks(Step(cfg, run, input).lives, run.lives)
  {
    hide AdmitActionStatusOf, AfterAdmitAction, RePreview, CompleteResult, AfterComplete, Transition;
  }

  /** From any state that a run without resets reaches with nothing in flight, good rounds for twice the
      total remaining quantity hand every admitted work back to its owner: in admission order, each
      once, and with its own identity and context. */
  lemma {:induction false} EveryWorkComesBack(cfg: Config, images: Images, inputs: seq<Input>, rounds: seq<DrainRound>)
    requires Usable(cfg.planner.routes) && cfg.pollOptions.maxConsecutiveForwards >= 1 && NeverResets(inputs)
    requires var s := RunOf(cfg, images, inputs).state;
             s.inFlight.None? && AllGood(s.queue, rounds) && |rounds| >= 2 * TotalRemaining(s.queue)
    ensures var run := RunOf(cfg, images, inputs);
            var after := RunOf(cfg, images, inputs + DrainCalls(cfg, run.state, rounds));
            && after.state.queue == []
            && |after.returned| == |run.lives|
            && forall i | 0 <= i < |run.lives| ::
                 after.returned[i] == Returned(run.lives[i].work.identity, run.lives[i].context)
  {
    hide RunOf, Invariant, DrainCalls, Drained, GoodRound, TotalRemaining, Usable;
    var s := RunOf(cfg, images, inputs).state;
    var calls := DrainCalls(cfg, s, rounds);
    ReachableStates(cfg, images, inputs);
    QueueDrains(cfg, s, rounds);
    DrainIsRun(cfg, images, inputs, rounds);
    DrainOnlyActs(cfg, s, rounds);
    ActionsAdmitNothing(cfg, images, inputs, calls);
    OwnershipConserved(cfg, images, inputs + calls);
  }
}
