/** The fairness state of the engine as a record of what its runs have accepted. */
module StoreForwardFairness {
  import opened Words
  import opened IngressWork
  import opened RouteTable
  import opened PollPlanner
  import opened StoreForwardState
  import opened StoreForwardRuns
  import opened StoreForwardTheorems
  import opened StoreForwardFreshness
  import opened StoreForwardService

  /** Since the last reset: the last poll accepted, and how many forward writes have been since. */
  datatype Record = Record(lastPoll: Option<StoreForwardAction>, forwards: nat)

  ghost predicate Accepts(cfg: Config, s: BridgeState, input: Input) {
    input.AdmitActionCall? && IsAccepting(AdmitActionStatusOf(cfg, s, input.action, input.session, input.polls))
  }

  ghost function RecordOf(cfg: Config, images: Images, inputs: seq<Input>): Record
    decreases |inputs|
  {
    if inputs == [] then Record(None, 0) else
      var before, last := inputs[..|inputs| - 1], inputs[|inputs| - 1];
      var record, s := RecordOf(cfg, images, before), RunOf(cfg, images, before).state;
      if last.ResetCall? && s.inFlight.None? then Record(None, 0)
      else if Accepts(cfg, s, last) && last.action.kind.Poll? then Record(Some(last.action), 0)
      else if Accepts(cfg, s, last) then record.(forwards := record.forwards + 1)
      else record
  }

  /** The fairness state that this record calls for. */
  predicate Tells(poll: PollPlannerState, record: Record) {
    && poll.forwardsSincePoll == (if record.forwards < 0xFFFF then record.forwards else 0xFFFF)
    && poll.hasConsumedPoll == record.lastPoll.Some?
    && match record.lastPoll
       case None => poll.lastPollAt == 0 && poll.nextPollIndex == 0
       case Some(action) =>
         && poll.lastPollAt == action.selectedAt
         && action.scheduling.pollIndex < action.pollCount
         && poll.nextPollIndex == (action.scheduling.pollIndex + 1) % action.pollCount
  }

  lemma {:induction false} AcceptedCommits(
    cfg: Config, s: BridgeState, action: StoreForwardAction, session: SessionState, polls: PollSet)
    requires Invariant(cfg, s) && IsAccepting(AdmitActionStatusOf(cfg, s, action, session, polls))
    ensures Committed(action.scheduling, action.pollCount, action.selectedAt, s.poll).Some?
    ensures action.kind == action.scheduling.kind && !action.kind.NoAction?
    ensures action.kind.Poll? ==> action.scheduling.pollIndex < action.pollCount
  {
    hide Invariant, Preview;
    PreviewIsSound(cfg, s, session, action.selectedAt, polls, action.downstream.consistencyContext);
    PollCarriesCandidate(cfg, s, session, action.selectedAt, polls, action.downstream.consistencyContext);
  }

  lemma {:induction false} StepRecords(cfg: Config, run: Run, input: Input)
    requires Invariant(cfg, run.state)
    ensures var poll, after := run.state.poll, Step(cfg, run, input).state.poll;
            if input.ResetCall? && run.state.inFlight.None? then after == PollPlannerState(0, 0, 0, false)
            else if Accepts(cfg, run.state, input) then
              Committed(input.action.scheduling, input.action.pollCount, input.action.selectedAt, poll) == Some(after)
            else after == poll
  {
    hide Invariant, AdmitWorkResult, IsCurrentProposal, RePreview, CompleteResult, CompleteStatusOf, DiscardStatus,
      RetirementOf, Transition, Committed;
    if Accepts(cfg, run.state, input) {
      AcceptedCommits(cfg, run.state, input.action, input.session, input.polls);
    }
  }

  lemma {:induction false} CommitTells(action: StoreForwardAction, poll: PollPlannerState, record: Record)
    requires Tells(poll, record) && action.kind == action.scheduling.kind
    requires Committed(action.scheduling, action.pollCount, action.selectedAt, poll).Some?
    ensures Tells(Committed(action.scheduling, action.pollCount, action.selectedAt, poll).value,
                  if action.kind.Poll? then Record(Some(action), 0) else record.(forwards := record.forwards + 1))
  {
    if action.kind.Poll? {
      FollowingIsModular(action.scheduling.pollIndex, action.pollCount);
    }
  }

  lemma {:induction false} FollowingIsModular(index: nat, count: nat)
    requires index < count
    ensures Following(index, count) == (index + 1) % count
  {}

  /** The fairness state after any run says exactly what was accepted since the last reset: when the last
      poll was, which candidate comes after it, whether there was one at all, and how many forward
      writes have gone since, up to the largest value the counter holds. */
  lemma {:induction false} FairnessTells(cfg: Config, images: Images, inputs: seq<Input>)
    requires Usable(cfg.planner.routes)
    ensures Tells(RunOf(cfg, images, inputs).state.poll, RecordOf(cfg, images, inputs))
    decreases |inputs|
  {
    hide Step, Invariant, Accepts, Usable, Committed, Tells;
    if inputs == [] {
      NothingRecorded();
    } else {
      var before, last := inputs[..|inputs| - 1], inputs[|inputs| - 1];
      var run, record := RunOf(cfg, images, before), RecordOf(cfg, images, before);
      FairnessTells(cfg, images, before);
      ReachableStates(cfg, images, before);
      StepRecords(cfg, run, last);
      NothingRecorded();
      if Accepts(cfg, run.state, last) {
        AcceptedIsPresented(cfg, run.state, last);
        AcceptedCommits(cfg, run.state, last.action, last.session, last.polls);
        CommitTells(last.action, run.state.poll, record);
      }
    }
  }

  lemma {:induction false} AcceptedIsPresented(cfg: Config, s: BridgeState, input: Input)
    requires Accepts(cfg, s, input)
    ensures input.AdmitActionCall?
    ensures IsAccepting(AdmitActionStatusOf(cfg, s, input.action, input.session, input.polls))
  {}

  lemma {:induction false} NothingRecorded()
    ensures Tells(PollPlannerState(0, 0, 0, false), Record(None, 0))
  {}
}
