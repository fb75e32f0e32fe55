/** A queue that gets no new work drains within a bounded number of rounds. */
module BoundedDrain {
  import opened Words
  import opened IngressWork
  import opened DownstreamExecutor
  import opened ForwardPlan
  import opened CompletionTransition
  import opened CompletionLedger
  import opened PollPlanner
  import opened StoreForwardState

  /** What the caller supplies for one preview, admission and completion. */
  datatype DrainRound = DrainRound(
    session: SessionState, now: u32, polls: PollSet, writeContext: Handle, outcome: DownstreamOutcome)

  ghost function RoundProposal(cfg: Config, s: BridgeState, round: DrainRound): Proposal {
    Preview(cfg, s, round.session, round.now, round.polls, round.writeContext)
  }

  /** Preview, admit the proposal, and complete it with the round's outcome if it needs completion. */
  ghost function AfterRound(cfg: Config, s: BridgeState, round: DrainRound): BridgeState {
    var proposal := RoundProposal(cfg, s, round);
    if !proposal.status.ActionReady? then s else
      var admitted := AfterAdmitAction(s, proposal.action, proposal.cursor);
      if !proposal.action.requiresCompletion then admitted
      else AfterComplete(admitted, proposal.action, round.outcome, round.session)
  }

  /** Rounds until the queue is empty or the rounds run out. */
  ghost function Drained(cfg: Config, s: BridgeState, rounds: seq<DrainRound>): BridgeState
    decreases |rounds|
  {
    if rounds == [] || s.queue == [] then s else Drained(cfg, AfterRound(cfg, s, rounds[0]), rounds[1..])
  }

  predicate AllCurrent(queue: seq<WorkSlot>, session: SessionState) {
    forall i | 0 <= i < |queue| :: WorkCurrent(queue[i].workIdentity, session)
  }

  /** Every queued work is current, every poll that dispatches has a valid request, and the outcome is
      a known one. Whether and which polls are due, and which outcome it is, is open. */
  predicate GoodRound(queue: seq<WorkSlot>, round: DrainRound) {
    && AllCurrent(queue, round.session)
    && (round.polls.candidates != [] ==> round.polls.present)
    && (forall i | 0 <= i < |round.polls.candidates| && round.polls.candidates[i].requiresDispatch ::
          && IsPollOperation(round.polls.candidates[i].request.operation)
          && ValidateDownstreamRequest(round.polls.candidates[i].request).ValidRequest?)
    && IsKnownOutcome(round.outcome)
  }

  function TotalRemaining(queue: seq<WorkSlot>): nat
    decreases |queue|
  {
    if queue == [] then 0 else queue[0].remaining + TotalRemaining(queue[1..])
  }

  /** With a forward ready and valid polls there is always something to do: a write, or a poll once the
      burst limit is used up. */
  lemma {:induction false} AlwaysReady(cfg: Config, s: BridgeState, round: DrainRound)
    requires Invariant(cfg, s) && s.inFlight.None? && s.queue != [] && GoodRound(s.queue, round)
    ensures var proposal := RoundProposal(cfg, s, round);
            && proposal.status.ActionReady?
            && !proposal.action.kind.NoAction?
            && (proposal.action.kind.Poll? ==> s.poll.forwardsSincePoll >= cfg.pollOptions.maxConsecutiveForwards)
            && (proposal.action.kind.Poll? ==> PollAfter(s, proposal.action).forwardsSincePoll == 0)
  {
    FrontIsPlannable(cfg, s);
    PreviewIsSound(cfg, s, round.session, round.now, round.polls, round.writeContext);
    assert WorkCurrent(s.queue[0].workIdentity, round.session);
    StorageIsThere(cfg, s);
    ChoiceCommits(cfg.pollOptions, round.now, true, round.polls, s.poll);
    hide Invariant, Plannable, WorkCurrent, FragmentAt, FirstDue;
  }

  lemma {:induction false} StorageIsThere(cfg: Config, s: BridgeState)
    requires Invariant(cfg, s) && s.queue != []
    ensures cfg.storage
  {}

  /** Each remaining quantity is what a work still has to send; none is zero while it waits. */
  lemma {:induction false} FrontHasSomethingLeft(cfg: Config, s: BridgeState)
    requires Invariant(cfg, s) && s.inFlight.None? && s.queue != []
    ensures s.queue[0].remaining > 0 && TotalRemaining(s.queue) > 0
  {
    FrontIsPlannable(cfg, s);
  }

  /** Rounds still needed at most: two per remaining register, less one while no poll can go first. */
  function Need(cfg: Config, s: BridgeState): int {
    2 * TotalRemaining(s.queue)
    - (if s.poll.forwardsSincePoll < cfg.pollOptions.maxConsecutiveForwards then 1 else 0)
  }

  lemma {:induction false} PollRound(cfg: Config, s: BridgeState, round: DrainRound)
    requires Invariant(cfg, s) && s.inFlight.None? && s.queue != [] && GoodRound(s.queue, round)
    requires cfg.pollOptions.maxConsecutiveForwards >= 1 && RoundProposal(cfg, s, round).action.kind.Poll?
    ensures var after := AfterRound(cfg, s, round);
            && Invariant(cfg, after) && after.inFlight.None?
            && after.queue == s.queue
            && Need(cfg, after) < Need(cfg, s)
  {
    var proposal := RoundProposal(cfg, s, round);
    AlwaysReady(cfg, s, round);
    PreviewIsAdmissible(cfg, s, round.session, round.now, round.polls, round.writeContext);
    hide Invariant, Preview, GoodRound, TotalRemaining, PollAfter, Choice;
    AdmitActionKeeps(cfg, s, proposal.action, round.session, round.polls);
    var admitted := AfterAdmitAction(s, proposal.action, proposal.cursor);
    CompleteKeeps(cfg, admitted, proposal.action, round.outcome, round.session);
    KnownOutcome(s, round);
  }

  lemma {:induction false} KnownOutcome(s: BridgeState, round: DrainRound)
    requires GoodRound(s.queue, round)
    ensures IsKnownOutcome(round.outcome)
    ensures s.queue != [] ==> WorkCurrent(s.queue[0].workIdentity, round.session)
  {}

  lemma {:induction false} TotalAfterFront(queue: seq<WorkSlot>, slot: WorkSlot)
    requires queue != []
    ensures TotalRemaining(queue[0 := slot]) == TotalRemaining(queue) - queue[0].remaining + slot.remaining
    ensures TotalRemaining(queue[1..]) == TotalRemaining(queue) - queue[0].remaining
    ensures queue[0 := slot][1..] == queue[1..]
  {}

  /** A write round sends at least one register of the front work, or drops the work. */
  lemma {:induction false} WriteRound(cfg: Config, s: BridgeState, round: DrainRound)
    requires Invariant(cfg, s) && s.inFlight.None? && s.queue != [] && GoodRound(s.queue, round)
    requires RoundProposal(cfg, s, round).action.kind.ForwardWrite?
    ensures var after := AfterRound(cfg, s, round);
            && Invariant(cfg, after) && after.inFlight.None?
            && (after.queue == s.queue[1..]
                || (after.queue != [] && after.queue[1..] == s.queue[1..]
                    && after.queue[0].workIdentity == s.queue[0].workIdentity))
            && TotalRemaining(after.queue) < TotalRemaining(s.queue)
  {
    var proposal := RoundProposal(cfg, s, round);
    AlwaysReady(cfg, s, round);
    FrontHasSomethingLeft(cfg, s);
    KnownOutcome(s, round);
    PreviewIsAdmissible(cfg, s, round.session, round.now, round.polls, round.writeContext);
    PreviewIsSound(cfg, s, round.session, round.now, round.polls, round.writeContext);
    hide Invariant, Preview, GoodRound, TotalRemaining, PollAfter, Choice, Plannable, FragmentAt, Committed,
        WorkCurrent,
      AfterResolve, AfterIssue, SlotAfterCompletion, Summarize, DecisionFor, AfterComplete, CompleteResult;
    AdmitActionKeeps(cfg, s, proposal.action, round.session, round.polls);
    FrontIsPlannable(cfg, s);
    var front, action := s.queue[0], proposal.action;
    IssueKeepsEntry(cfg.planner, front, s.ledger[front.workIdentity], action.sequence);
    hide EntryAgrees;
    var admitted := AfterAdmitAction(s, action, proposal.cursor);
    var moved := UpdateFrom(front, proposal.cursor);
    TotalAfterFront(s.queue, moved);
    CompleteWriteShape(cfg, admitted, action, round.outcome, round.session);
  }

  lemma {:induction false} StillGood(queue: seq<WorkSlot>, after: seq<WorkSlot>, round: DrainRound)
    requires queue != [] && GoodRound(queue, round)
    requires after == queue[1..] || (after != [] && after[1..] == queue[1..]
        && after[0].workIdentity == queue[0].workIdentity)
    ensures GoodRound(after, round)
  {
    if after == queue[1..] {
      assert forall i | 0 <= i < |after| :: after[i] == queue[i + 1];
    } else {
      assert forall i | 0 < i < |after| :: after[i] == after[1..][i - 1] == queue[i];
    }
  }

  /** Every round makes progress, and whatever was good for the works stays good for those left. */
  lemma {:induction false} RoundProgresses(cfg: Config, s: BridgeState, round: DrainRound)
    requires Invariant(cfg, s) && s.inFlight.None? && s.queue != [] && GoodRound(s.queue, round)
    requires cfg.pollOptions.maxConsecutiveForwards >= 1
    ensures var after := AfterRound(cfg, s, round);
            && Invariant(cfg, after) && after.inFlight.None?
            && Need(cfg, after) < Need(cfg, s)
            && forall other | GoodRound(s.queue, other) :: GoodRound(after.queue, other)
  {
    hide Invariant, GoodRound, AfterRound, RoundProposal, TotalRemaining;
    var after := AfterRound(cfg, s, round);
    AlwaysReady(cfg, s, round);
    if RoundProposal(cfg, s, round).action.kind.Poll? {
      PollRound(cfg, s, round);
    } else {
      WriteRound(cfg, s, round);
    }
    forall other | GoodRound(s.queue, other)
      ensures GoodRound(after.queue, other)
    {
      StillGood(s.queue, after.queue, other);
    }
  }

  lemma {:induction false} NeedSuffices(cfg: Config, s: BridgeState, rounds: seq<DrainRound>)
    requires Invariant(cfg, s) && s.inFlight.None? && cfg.pollOptions.maxConsecutiveForwards >= 1
    requires forall i | 0 <= i < |rounds| :: GoodRound(s.queue, rounds[i])
    requires |rounds| >= Need(cfg, s)
    ensures Drained(cfg, s, rounds).queue == []
    decreases |rounds|
  {
    hide Invariant, GoodRound, AfterRound, TotalRemaining;
    if s.queue == [] {
    } else {
      FrontHasSomethingLeft(cfg, s);
      RoundProgresses(cfg, s, rounds[0]);
      NeedSuffices(cfg, AfterRound(cfg, s, rounds[0]), rounds[1..]);
    }
  }

  /** Bounded drain: with a burst limit of at least one, nothing in flight, every queued work current
      and no new admissions, the queue is empty after at most twice the total remaining quantity of
      admitted or consumed actions, whatever polls fall due and however the writes end. */
  lemma {:induction false} QueueDrains(cfg: Config, s: BridgeState, rounds: seq<DrainRound>)
    requires Invariant(cfg, s) && s.inFlight.None? && cfg.pollOptions.maxConsecutiveForwards >= 1
    requires forall i | 0 <= i < |rounds| :: GoodRound(s.queue, rounds[i])
    requires |rounds| >= 2 * TotalRemaining(s.queue)
    ensures Drained(cfg, s, rounds).queue == []
  {
    hide Invariant, GoodRound, Drained;
    NeedSuffices(cfg, s, rounds);
  }

  // ----- why the burst limit has to be at least one -----

  /** One poll that is due and needs no dispatch. */
  function IdlePolls(): PollSet {
    RawPollSet(true, [PollCandidate(NO_REQUEST, 0, true, false)])
  }

  function IdleRound(session: SessionState): DrainRound {
    DrainRound(session, 0, IdlePolls(), NULL_HANDLE, Applied)
  }

  lemma {:induction false} IdleRoundIsGood(queue: seq<WorkSlot>, session: SessionState)
    requires AllCurrent(queue, session)
    ensures GoodRound(queue, IdleRound(session))
  {}

  lemma {:induction false} IdlePollFirst(cfg: Config, s: BridgeState, session: SessionState)
    requires cfg.pollOptions.maxConsecutiveForwards == 0
    ensures Choice(cfg.pollOptions, 0, s.queue != [], IdlePolls(), s.poll)
            == (Selected, FromCandidateSet(Poll, 0, 1))
  {
    FirstDueStep(0, IdlePolls().candidates, 0, 0);
  }

  /** With a burst limit of zero a due poll always goes before the queue. */
  lemma {:induction false} IdleRoundChangesNoWork(cfg: Config, s: BridgeState, session: SessionState)
    requires Invariant(cfg, s) && s.inFlight.None? && s.queue != [] && AllCurrent(s.queue, session)
    requires cfg.pollOptions.maxConsecutiveForwards == 0
    ensures var after := AfterRound(cfg, s, IdleRound(session));
            Invariant(cfg, after) && after.inFlight.None? && after.queue == s.queue
  {
    hide Invariant, Choice, WorkCurrent, PollAfter, GoodRound;
    var round := IdleRound(session);
    var proposal := RoundProposal(cfg, s, round);
    IdleRoundIsGood(s.queue, session);
    IdlePollFirst(cfg, s, session);
    AlwaysReady(cfg, s, round);
    PreviewIsAdmissible(cfg, s, session, 0, IdlePolls(), NULL_HANDLE);
    assert !proposal.action.requiresCompletion;
    hide Preview;
    AdmitActionKeeps(cfg, s, proposal.action, session, IdlePolls());
  }

  function IdleRounds(session: SessionState, n: nat): (rounds: seq<DrainRound>)
    ensures |rounds| == n && forall i | 0 <= i < n :: rounds[i] == IdleRound(session)
  {
    seq(n, i => IdleRound(session))
  }

  lemma {:induction false} IdleRoundsDrainNothing(cfg: Config, s: BridgeState, session: SessionState, n: nat)
    requires Invariant(cfg, s) && s.inFlight.None? && s.queue != [] && AllCurrent(s.queue, session)
    requires cfg.pollOptions.maxConsecutiveForwards == 0
    ensures Drained(cfg, s, IdleRounds(session, n)).queue == s.queue
    decreases n
  {
    hide Invariant, AfterRound, AllCurrent, IdleRound;
    if n == 0 {
      assert Drained(cfg, s, IdleRounds(session, n)) == s;
    } else {
      IdleRoundChangesNoWork(cfg, s, session);
      assert IdleRounds(session, n)[1..] == IdleRounds(session, n - 1);
      IdleRoundsDrainNothing(cfg, AfterRound(cfg, s, IdleRound(session)), session, n - 1);
    }
  }

  ghost predicate DrainsWithin(cfg: Config, s: BridgeState, bound: nat) {
    forall rounds | |rounds| >= bound && AllGood(s.queue, rounds) :: Drained(cfg, s, rounds).queue == []
  }

  ghost predicate AllGood(queue: seq<WorkSlot>, rounds: seq<DrainRound>) {
    forall i | 0 <= i < |rounds| :: GoodRound(queue, rounds[i])
  }

  /** A queue of current works drains in bounded time under all good rounds if and only if the burst
      limit is at least one, or there is nothing to drain. */
  lemma {:induction false} DrainsExactly(cfg: Config, s: BridgeState, session: SessionState)
    requires Invariant(cfg, s) && s.inFlight.None? && AllCurrent(s.queue, session)
    ensures (exists bound: nat :: DrainsWithin(cfg, s, bound))
            <==> cfg.pollOptions.maxConsecutiveForwards >= 1 || s.queue == []
  {
    hide Invariant, GoodRound, AllCurrent, Drained, IdleRound, TotalRemaining;
    if cfg.pollOptions.maxConsecutiveForwards >= 1 {
      forall rounds | |rounds| >= 2 * TotalRemaining(s.queue) && AllGood(s.queue, rounds)
        ensures Drained(cfg, s, rounds).queue == []
      {
        QueueDrains(cfg, s, rounds);
      }
      assert DrainsWithin(cfg, s, 2 * TotalRemaining(s.queue));
    } else if s.queue == [] {
      forall rounds: seq<DrainRound>
        ensures Drained(cfg, s, rounds) == s
      {
        NothingToDrain(cfg, s, rounds);
      }
      assert DrainsWithin(cfg, s, 0);
    } else if bound: nat :| DrainsWithin(cfg, s, bound) {
      var rounds := IdleRounds(session, bound);
      IdleRoundIsGood(s.queue, session);
      assert AllGood(s.queue, rounds);
      IdleRoundsDrainNothing(cfg, s, session, bound);
    }
  }

  lemma {:induction false} NothingToDrain(cfg: Config, s: BridgeState, rounds: seq<DrainRound>)
    requires s.queue == []
    ensures Drained(cfg, s, rounds) == s
  {}
}
