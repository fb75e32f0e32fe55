/** How the engine serves polls: when an invalid poll blocks it, and how long a due candidate can be
    passed over by accepted actions. */
module StoreForwardService {
  import opened Words
  import opened IngressWork
  import opened DownstreamExecutor
  import opened ForwardPlan
  import opened ForwardMeaning
  import opened PollPlanner
  import opened StoreForwardState
  import opened StoreForwardRuns
  import opened StoreForwardFreshness
  import opened BoundedDrain

  // ----- an invalid poll -----

  predicate DispatchesInvalid(candidate: PollCandidate) {
    && candidate.requiresDispatch
    && (!IsPollOperation(candidate.request.operation) || !ValidateDownstreamRequest(candidate.request).ValidRequest?)
  }

  /** This candidate is due, and no due one comes before it in the round that begins at `start`. */
  ghost predicate FirstInRound(now: u32, candidates: seq<PollCandidate>, start: nat, index: nat) {
    && start < |candidates|
    && index < |candidates|
    && IsDue(now, candidates[index])
    && forall other | 0 <= other < |candidates| && IsDue(now, candidates[other]) ::
         Distance(start, |candidates|, index) <= Distance(start, |candidates|, other)
  }

  /** It is this candidate's turn, and no forward write may go first. */
  ghost predicate TurnOf(cfg: Config, s: BridgeState, now: u32, polls: PollSet, index: nat) {
    && FirstInRound(now, polls.candidates, ScanStart(s.poll, |polls.candidates|), index)
    && (s.queue == [] || s.poll.forwardsSincePoll >= cfg.pollOptions.maxConsecutiveForwards)
  }

  /** Nothing but the polls can stand in the way of a preview. */
  predicate Unobstructed(cfg: Config, s: BridgeState, session: SessionState, polls: PollSet) {
    && cfg.storage
    && s.inFlight.None?
    && (s.queue != [] ==> WorkCurrent(s.queue[0].workIdentity, session))
    && (polls.candidates != [] ==> polls.present)
  }

  lemma {:induction false} FirstDueIsFirstInRound(now: u32, candidates: seq<PollCandidate>, start: nat, index: nat)
    requires start < |candidates| && index < |candidates|
    ensures FirstInRound(now, candidates, start, index)
            <==> var first := FirstDue(now, candidates, start, 0);
                 first < |candidates| && index == Visited(start, first, |candidates|)
  {
    hide IsDue, FirstDue, Visited, Distance;
    var count, first := |candidates|, FirstDue(now, candidates, start, 0);
    NoneDueBefore(now, candidates, start, 0);
    if first < count {
      VisitedIsAt(start, count, first);
      assert Visited(start, Distance(start, count, index), count) == index;
    }
  }

  ghost predicate NoTurn(cfg: Config, s: BridgeState, now: u32, polls: PollSet) {
    forall index: nat :: !TurnOf(cfg, s, now, polls, index)
  }

  predicate NoneDue(now: u32, polls: PollSet) {
    forall i | 0 <= i < |polls.candidates| :: !IsDue(now, polls.candidates[i])
  }

  /** What the selection means: the one candidate whose turn it is, a forward write if it is nobody's
      turn, or nothing if there is neither. */
  lemma {:induction false} ChoiceTakesTurn(cfg: Config, s: BridgeState, now: u32, polls: PollSet)
    requires polls.candidates != [] ==> polls.present
    ensures var (status, selection) := Choice(cfg.pollOptions, now, s.queue != [], polls, s.poll);
            var count := |polls.candidates|;
            if status.Selected? && selection.kind.Poll? then
              && selection == FromCandidateSet(Poll, selection.pollIndex, count)
              && selection.pollIndex < count
              && !NoneDue(now, polls)
              && forall index: nat :: TurnOf(cfg, s, now, polls, index) <==> index == selection.pollIndex
            else if status.Selected? then
              selection == FromCandidateSet(ForwardWrite, 0, count) && s.queue != [] && NoTurn(cfg, s, now, polls)
            else
              status.NothingSelected? && s.queue == [] && NoneDue(now, polls) && NoTurn(cfg, s, now, polls)
  {
    hide FirstDue, FirstInRound, Visited, IsDue;
    var count, start := |polls.candidates|, ScanStart(s.poll, |polls.candidates|);
    forall index: nat
      ensures FirstInRound(now, polls.candidates, start, index)
              <==> && index < count
                   && var first := FirstDue(now, polls.candidates, start, 0);
                      first < count && index == Visited(start, first, count)
    {
      if index < count {
        FirstDueIsFirstInRound(now, polls.candidates, start, index);
      } else {
        NotInRound(now, polls.candidates, start, index);
      }
    }
    if count > 0 {
      NoneDueBefore(now, polls.candidates, start, 0);
    }
  }

  lemma {:induction false} NotInRound(now: u32, candidates: seq<PollCandidate>, start: nat, index: nat)
    requires index >= |candidates|
    ensures !FirstInRound(now, candidates, start, index)
  {}

  /** An otherwise unobstructed preview is refused for an invalid poll request if and only if it is the
      turn of a candidate that would dispatch one; it has nothing to do if and only if the queue is
      empty and no candidate is due; and in every other case it is ready. */
  lemma {:induction false} PreviewStatusExact(
    cfg: Config, s: BridgeState, session: SessionState, now: u32, polls: PollSet, writeContext: Handle)
    requires Invariant(cfg, s) && Unobstructed(cfg, s, session, polls)
    ensures var status := Preview(cfg, s, session, now, polls, writeContext).status;
            && (status.InvalidPollRequest? <==> InvalidTurn(cfg, s, now, polls))
            && (status.NothingToDo? <==> s.queue == [] && NoneDue(now, polls))
            && (status.ActionReady? || status.InvalidPollRequest? || status.NothingToDo?)
  {
    hide Invariant, Choice, TurnOf, WorkCurrent, Plannable, FragmentAt, NoneDue, ValidateDownstreamRequest,
      IsPollOperation;
    ChoiceTakesTurn(cfg, s, now, polls);
    if s.queue != [] {
      FrontIsPlannable(cfg, s);
    }
    forall request: DownstreamRequest, sequence: u32
      ensures ValidateDownstreamRequest(request.(sequence := sequence)) == ValidateDownstreamRequest(request)
    {
      SequenceIsNotValidated(request, sequence);
    }
  }

  lemma {:induction false} SequenceIsNotValidated(request: DownstreamRequest, sequence: u32)
    ensures ValidateDownstreamRequest(request.(sequence := sequence)) == ValidateDownstreamRequest(request)
  {}

  /** It is the turn of a candidate that would dispatch an invalid request. */
  ghost predicate InvalidTurn(cfg: Config, s: BridgeState, now: u32, polls: PollSet) {
    exists index: nat :: TurnOf(cfg, s, now, polls, index) && DispatchesInvalid(polls.candidates[index])
  }

  /** While that stays so, the engine is blocked: no preview is ready and nothing changes, however many
      works wait in the queue. */
  lemma {:induction false} InvalidPollBlocks(cfg: Config, s: BridgeState, rounds: seq<DrainRound>)
    requires Invariant(cfg, s)
    requires forall i | 0 <= i < |rounds| ::
               && Unobstructed(cfg, s, rounds[i].session, rounds[i].polls)
               && InvalidTurn(cfg, s, rounds[i].now, rounds[i].polls)
    ensures Drained(cfg, s, rounds) == s
    decreases |rounds|
  {
    hide Invariant, Unobstructed, InvalidTurn, Preview;
    if rounds == [] || s.queue == [] {
    } else {
      var round := rounds[0];
      PreviewStatusExact(cfg, s, round.session, round.now, round.polls, round.writeContext);
      assert AfterRound(cfg, s, round) == s;
      InvalidPollBlocks(cfg, s, rounds[1..]);
    }
  }

  // ----- what a poll carries -----

  predicate DueBy(candidate: PollCandidate, now: u32) {
    candidate.enabled && PollDeadlineReached32(now, candidate.dueAt)
  }

  /** The action is this candidate's poll: it was due when the action was selected, and what is sent is
      the candidate's own request under a new sequence, or nothing if it needs no dispatch. */
  predicate CarriesPoll(action: StoreForwardAction, candidate: PollCandidate) {
    && DueBy(candidate, action.selectedAt)
    && action.requiresCompletion == candidate.requiresDispatch
    && (if candidate.requiresDispatch then
          action.downstream.(sequence := candidate.request.sequence) == candidate.request
        else action.downstream == NO_REQUEST && action.sequence == 0)
    && action.write == NO_WRITE
    && action.workContext == NULL_HANDLE
  }

  /** A poll that a preview calls ready carries the candidate it was selected for. */
  lemma {:induction false} PollCarriesCandidate(
    cfg: Config, s: BridgeState, session: SessionState, now: u32, polls: PollSet, writeContext: Handle)
    ensures var proposal := Preview(cfg, s, session, now, polls, writeContext);
            var action, index := proposal.action, proposal.action.scheduling.pollIndex;
            proposal.status.ActionReady? && action.kind.Poll? ==>
              && action.selectedAt == now
              && action.pollCount == |polls.candidates|
              && index < |polls.candidates|
              && CarriesPoll(action, polls.candidates[index])
  {
    hide Choice, Plannable, FragmentAt, WorkCurrent, ValidateDownstreamRequest, IsPollOperation,
      PollDeadlineReached32;
    var (status, _) := Choice(cfg.pollOptions, now, s.queue != [], polls, s.poll);
    if status.Selected? {
      ChoiceCommits(cfg.pollOptions, now, s.queue != [], polls, s.poll);
    }
  }

  /** What a ready forward write sends, in the caller's consistency context, is a valid request with the
      effect of writing the front work's next addresses through their translations. */
  lemma {:induction false} WriteSendsFragment(
    cfg: Config, s: BridgeState, session: SessionState, now: u32, polls: PollSet, writeContext: Handle, memory: Memory)
    requires Invariant(cfg, s)
    requires var proposal := Preview(cfg, s, session, now, polls, writeContext);
             proposal.status.ActionReady? && proposal.action.kind.ForwardWrite?
    ensures var action := Preview(cfg, s, session, now, polls, writeContext).action;
            && s.queue != []
            && Plannable(cfg.planner, AsCursor(s.queue[0]))
            && var cursor := AsCursor(s.queue[0]);
               && action.selectedAt == now
               && action.pollCount == |polls.candidates|
               && action.downstream.consistencyContext == writeContext
               && ValidateDownstreamRequest(action.downstream).ValidRequest?
               && Execute(memory, action.downstream)
                  == WriteEach(cfg.planner.routes, cursor.work.kind, memory, cursor.nextAddress,
                               Remaining(cursor)[..QuantityAt(cfg.planner, cursor)])
  {
    hide Invariant, Choice, Plannable, WorkCurrent, Execute, WriteEach, ValidateDownstreamRequest, Remaining,
      QuantityAt, FragmentAt;
    var action := Preview(cfg, s, session, now, polls, writeContext).action;
    PreviewIsSound(cfg, s, session, now, polls, writeContext);
    FragmentMeans(cfg.planner, AsCursor(s.queue[0]), action.sequence, writeContext, memory);
  }

  // ----- bounded waiting for accepted actions -----

  /** Call number `i` of the run presents an action that is accepted. */
  ghost predicate AcceptsAt(cfg: Config, images: Images, inputs: seq<Input>, i: nat)
    requires i < |inputs|
  {
    inputs[i].AdmitActionCall? && AcceptedAt(cfg, images, inputs, i, inputs[i].action)
  }

  /** That action is the poll of candidate `index`, and carries that candidate. */
  ghost predicate ServesAt(cfg: Config, images: Images, inputs: seq<Input>, i: nat, index: nat)
    requires i < |inputs|
  {
    && AcceptsAt(cfg, images, inputs, i)
    && inputs[i].action.kind.Poll?
    && inputs[i].action.scheduling.pollIndex == index
    && index < |inputs[i].polls.candidates|
    && CarriesPoll(inputs[i].action, inputs[i].polls.candidates[index])
  }

  /** Call number `i` is no reset, and if it accepts an action then the candidate was due at the time
      for which that action was selected. */
  ghost predicate DueAt(cfg: Config, images: Images, inputs: seq<Input>, i: nat, count: nat, index: nat)
    requires i < |inputs|
  {
    && !inputs[i].ResetCall?
    && (AcceptsAt(cfg, images, inputs, i) ==>
          && |inputs[i].polls.candidates| == count
          && index < count
          && DueBy(inputs[i].polls.candidates[index], inputs[i].action.selectedAt))
  }

  ghost predicate DueFrom(cfg: Config, images: Images, inputs: seq<Input>, from: nat, count: nat, index: nat) {
    forall i | from <= i < |inputs| :: DueAt(cfg, images, inputs, i, count, index)
  }

  /** How many actions are accepted from call number `from` on. */
  ghost function AcceptedFrom(cfg: Config, images: Images, inputs: seq<Input>, from: nat): nat
    decreases |inputs|
  {
    if |inputs| <= from then 0 else
      var last := |inputs| - 1;
      AcceptedFrom(cfg, images, inputs[..last], from) + (if AcceptsAt(cfg, images, inputs, last) then 1 else 0)
  }

  /** Only accepted actions and resets touch the fairness state. */
  lemma {:induction false} OthersKeepFairness(cfg: Config, run: Run, input: Input)
    requires !input.ResetCall?
    requires input.AdmitActionCall? ==>
               !IsAccepting(AdmitActionStatusOf(cfg, run.state, input.action, input.session, input.polls))
    ensures Step(cfg, run, input).state.poll == run.state.poll
  {
    hide AdmitWorkResult, AdmitActionStatusOf, CompleteResult, CompleteStatusOf, DiscardStatus, RetirementOf,
      Transition;
  }

  /** An accepted action is one select-and-commit round of the fairness state. */
  lemma {:induction false} AcceptedIsRound(
    cfg: Config, run: Run, action: StoreForwardAction, session: SessionState, polls: PollSet)
    requires IsAccepting(AdmitActionStatusOf(cfg, run.state, action, session, polls)) && polls.candidates != []
    ensures var round := Round(action.selectedAt, run.state.queue != [], polls.candidates);
            && polls == RoundPolls(round)
            && action.kind == action.scheduling.kind
            && Choice(cfg.pollOptions, round.now, round.forwardReady, polls, run.state.poll)
               == (Selected, action.scheduling)
            && (action.kind.Poll? ==>
                  && action.scheduling.pollIndex < |polls.candidates|
                  && CarriesPoll(action, polls.candidates[action.scheduling.pollIndex]))
            && Step(cfg, run, AdmitActionCall(action, session, polls)).state.poll
               == StateAfter(cfg.pollOptions, run.state.poll, round)
  {
    hide WorkCurrent, Plannable, FragmentAt, ValidateDownstreamRequest, IsPollOperation, FirstDue, Committed,
      CarriesPoll;
    PollCarriesCandidate(cfg, run.state, session, action.selectedAt, polls, action.downstream.consistencyContext);
  }

  /** Every accepted action that is not the candidate's own poll uses up patience. */
  lemma {:induction false} PatienceIsSpent(
    cfg: Config, images: Images, inputs: seq<Input>, from: nat, count: nat, index: nat)
    requires from <= |inputs| && index < count < ADDRESS_SPACE && DueFrom(cfg, images, inputs, from, count, index)
    requires forall i | from <= i < |inputs| :: !ServesAt(cfg, images, inputs, i, index)
    ensures Patience(cfg.pollOptions, RunOf(cfg, images, inputs).state.poll, count, index)
            + AcceptedFrom(cfg, images, inputs, from)
            <= Patience(cfg.pollOptions, RunOf(cfg, images, inputs[..from]).state.poll, count, index)
    decreases |inputs|
  {
    hide Step, Patience, AdmitActionStatusOf, PollDeadlineReached32, Choice, StateAfter, CarriesPoll;
    if from == |inputs| {
      assert inputs[..from] == inputs;
    } else {
      var last := |inputs| - 1;
      var before, run, input := inputs[..last], RunOf(cfg, images, inputs[..last]), inputs[last];
      assert before[..from] == inputs[..from];
      forall i | from <= i < last
        ensures DueAt(cfg, images, before, i, count, index) && !ServesAt(cfg, images, before, i, index)
      {
        SameCall(cfg, images, inputs, last, i);
        assert DueAt(cfg, images, inputs, i, count, index) && !ServesAt(cfg, images, inputs, i, index);
      }
      PatienceIsSpent(cfg, images, before, from, count, index);
      assert DueAt(cfg, images, inputs, last, count, index) && !ServesAt(cfg, images, inputs, last, index);
      if AcceptsAt(cfg, images, inputs, last) {
        AcceptedIsRound(cfg, run, input.action, input.session, input.polls);
        PatienceDrops(cfg.pollOptions, run.state.poll,
                      Round(input.action.selectedAt, run.state.queue != [], input.polls.candidates), index);
      } else {
        OthersKeepFairness(cfg, run, input);
      }
    }
  }

  lemma {:induction false} SameCall(cfg: Config, images: Images, inputs: seq<Input>, n: nat, i: nat)
    requires i < n <= |inputs|
    ensures inputs[..n][i] == inputs[i]
    ensures AcceptsAt(cfg, images, inputs[..n], i) <==> AcceptsAt(cfg, images, inputs, i)
  {
    hide RunOf, AdmitActionStatusOf;
    assert inputs[..n][..i] == inputs[..i];
  }

  /** Bounded waiting in the engine, over every run: of any count * (limit + 1) actions that are
      accepted while a candidate stays due, one is that candidate's own poll, whatever works are
      admitted, however actions end, and whatever calls are refused in between. A reset starts the
      fairness state over. */
  lemma {:induction false} EngineServes(
    cfg: Config, images: Images, inputs: seq<Input>, from: nat, count: nat, index: nat)
    requires from <= |inputs| && index < count < ADDRESS_SPACE && DueFrom(cfg, images, inputs, from, count, index)
    requires AcceptedFrom(cfg, images, inputs, from) >= count * (cfg.pollOptions.maxConsecutiveForwards + 1)
    ensures exists i | from <= i < |inputs| :: ServesAt(cfg, images, inputs, i, index)
  {
    hide DueFrom, AcceptedFrom, ServesAt, RunOf, Patience;
    if forall i | from <= i < |inputs| :: !ServesAt(cfg, images, inputs, i, index) {
      PatienceIsSpent(cfg, images, inputs, from, count, index);
      PatienceBound(cfg.pollOptions, RunOf(cfg, images, inputs[..from]).state.poll, count, index);
    }
  }
}
