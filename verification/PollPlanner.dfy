/** Fair choice between due polls and a ready forward write. */
module PollPlanner {
  import opened Words
  import opened DownstreamExecutor

  /** Half-range modular deadline comparison. */
  predicate PollDeadlineReached32(now: u32, dueAt: u32) {
    Wrap32(now - dueAt) < 0x8000_0000
  }

  /** On true times, however often the tick counter has wrapped, the modular comparison is the order
      of the events exactly while they are within half the range of each other. */
  lemma {:induction false} DeadlineOrderExact(now: nat, dueAt: nat)
    requires -0x1_0000_0000 <= now - dueAt < 0x1_0000_0000
    ensures (PollDeadlineReached32(now % 0x1_0000_0000, dueAt % 0x1_0000_0000) <==> now >= dueAt)
            <==> -0x8000_0000 <= now - dueAt < 0x8000_0000
  {}

  datatype PollCandidate =
    PollCandidate(request: DownstreamRequest, dueAt: u32, enabled: bool, requiresDispatch: bool)

  /** A caller's candidate array; `present` is false for a null pointer. */
  datatype RawPollSet = RawPollSet(present: bool, candidates: seq<PollCandidate>)

  type PollSet = p: RawPollSet | |p.candidates| < ADDRESS_SPACE witness RawPollSet(false, [])

  datatype ScheduledActionKind = NoAction | ForwardWrite | Poll

  datatype PollSelection =
    PollSelection(kind: ScheduledActionKind, pollIndex: u16, originatingPollCount: u16, pollCountBound: bool)

  const NO_SELECTION := PollSelection(NoAction, 0, 0, false)

  function FromCandidateSet(kind: ScheduledActionKind, index: u16, count: u16): PollSelection {
    PollSelection(kind, index, count, true)
  }

  datatype PollPlannerState =
    PollPlannerState(nextPollIndex: u16, forwardsSincePoll: u16, lastPollAt: u32, hasConsumedPoll: bool)

  const INITIAL_POLL_STATE := PollPlannerState(0, 0, 0, false)

  datatype PollScanCursor = PollScanCursor(nextIndex: u16, remaining: u16, candidateCount: u16, active: bool)

  const NO_SCAN := PollScanCursor(0, 0, 0, false)

  datatype PollDueStatus = Due | ScanComplete | InvalidScanStorage | CandidateCountChanged

  datatype PollSelectStatus = Selected | NothingSelected | InvalidPollStorage

  /** The burst limit: how many forwards a due poll can be made to wait for. */
  datatype PollPlannerOptions = PollPlannerOptions(maxConsecutiveForwards: u16)

  predicate IsDue(now: u32, candidate: PollCandidate) {
    candidate.enabled && PollDeadlineReached32(now, candidate.dueAt)
  }

  // ----- one scan -----

  /** Round-robin order: the index visited `k` steps after `start` among `count` candidates. */
  function Visited(start: nat, k: nat, count: nat): (index: nat)
    requires start < count && k < count
    ensures index < count
  {
    if start + k < count then start + k else start + k - count
  }

  /** The next index round the circle. */
  function Following(index: nat, count: nat): (next: nat)
    requires index < count
    ensures next < count
  {
    if index + 1 == count then 0 else index + 1
  }

  function ScanStart(state: PollPlannerState, count: nat): nat {
    if state.nextPollIndex < count then state.nextPollIndex else 0
  }

  /** A full scan visits every index exactly once. */
  lemma {:induction false} ScanVisitsOnce(start: nat, count: nat, index: nat)
    requires start < count && index < count
    ensures exists k | 0 <= k < count :: Visited(start, k, count) == index
    ensures forall j, k | 0 <= j < count && 0 <= k < count
        && Visited(start, j, count) == Visited(start, k, count) :: j == k
  {
    assert Visited(start, Distance(start, count, index), count) == index;
  }

  /** How many steps a scan from `start` takes to reach `index`. */
  function Distance(start: nat, count: nat, index: nat): (k: nat)
    requires start < count && index < count
    ensures k < count && Visited(start, k, count) == index
  {
    if start <= index then index - start else index + count - start
  }

  /** Cursors that a scan can reach. */
  predicate ScanShape(cursor: PollScanCursor) {
    && (cursor.candidateCount > 0 ==> cursor.nextIndex < cursor.candidateCount)
    && cursor.remaining <= cursor.candidateCount
  }

  method BeginPollScan(count: u16, state: PollPlannerState) returns (cursor: PollScanCursor)
    ensures ScanShape(cursor)
    ensures cursor == if count == 0 then NO_SCAN else PollScanCursor(ScanStart(state, count), count, count, true)
    ensures cursor.nextIndex == if state.nextPollIndex < count then state.nextPollIndex else 0
  {
    cursor := NO_SCAN;
    if count == 0 {
      return;
    }
    cursor := cursor.(nextIndex := if state.nextPollIndex < count then state.nextPollIndex else 0);
    cursor := cursor.(remaining := count, candidateCount := count, active := true);
  }

  /** A cursor moved one place round. */
  function Advanced(cursor: PollScanCursor): PollScanCursor
    requires ScanShape(cursor) && cursor.remaining > 0
  {
    PollScanCursor(Following(cursor.nextIndex, cursor.candidateCount), cursor.remaining - 1, cursor.candidateCount,
                   cursor.remaining > 1)
  }

  method NextIndex(cursor: PollScanCursor) returns (next: PollScanCursor, index: Option<u16>)
    requires ScanShape(cursor)
    ensures ScanShape(next)
    ensures index == if cursor.active && cursor.remaining > 0 then Some(cursor.nextIndex) else None
    ensures next == if index.None? then cursor.(active := false) else Advanced(cursor)
  {
    next := cursor;
    if !cursor.active || cursor.remaining == 0 || cursor.candidateCount == 0 {
      next := next.(active := false);
      return next, None;
    }
    index := Some(cursor.nextIndex);
    var following := cursor.nextIndex + 1;
    next := next.(nextIndex := if following == cursor.candidateCount then 0 else following);
    next := next.(remaining := next.remaining - 1);
    if next.remaining == 0 {
      next := next.(active := false);
    }
  }

  /** The number of steps from `k` on until the first due candidate, or `count` if none is due. */
  function FirstDue(now: u32, candidates: seq<PollCandidate>, start: nat, k: nat): (first: nat)
    requires (start < |candidates| || candidates == []) && k <= |candidates|
    ensures k <= first <= |candidates|
    decreases |candidates| - k
  {
    if k == |candidates| then k
    else if IsDue(now, candidates[Visited(start, k, |candidates|)]) then k
    else FirstDue(now, candidates, start, k + 1)
  }

  /** It really is the first one: due itself unless there is none, with none due before it. */
  lemma {:induction false} FirstDueIsFirst(now: u32, candidates: seq<PollCandidate>, start: nat, k: nat)
    requires start < |candidates| && k <= |candidates|
    ensures var first := FirstDue(now, candidates, start, k);
            && (first < |candidates| ==> IsDue(now, candidates[Visited(start, first, |candidates|)]))
            && forall j | k <= j < first :: !IsDue(now, candidates[Visited(start, j, |candidates|)])
    decreases |candidates| - k
  {
    if k == |candidates| || IsDue(now, candidates[Visited(start, k, |candidates|)]) {
    } else {
      FirstDueIsFirst(now, candidates, start, k + 1);
    }
  }

  /** An active cursor stands `k` steps into a round that began at `start`. */
  predicate ScanAt(cursor: PollScanCursor, start: nat, k: nat) {
    cursor.active ==>
      && start < cursor.candidateCount
      && k < cursor.candidateCount
      && cursor.remaining == cursor.candidateCount - k
      && cursor.nextIndex == Visited(start, k, cursor.candidateCount)
  }

  lemma {:induction false} ScanAdvances(cursor: PollScanCursor, start: nat, k: nat)
    requires ScanShape(cursor) && ScanAt(cursor, start, k) && cursor.active
    ensures cursor.remaining > 0 && k < cursor.candidateCount && start < cursor.candidateCount
    ensures cursor.nextIndex == Visited(start, k, cursor.candidateCount)
    ensures Advanced(cursor).active == (k + 1 < cursor.candidateCount)
    ensures ScanAt(Advanced(cursor), start, k + 1)
  {}

  lemma {:induction false} FirstDueStep(now: u32, candidates: seq<PollCandidate>, start: nat, k: nat)
    requires start < |candidates| && k <= |candidates|
    ensures FirstDue(now, candidates, start, k)
            == if k == |candidates| || IsDue(now, candidates[Visited(start, k, |candidates|)]) then k
               else FirstDue(now, candidates, start, k + 1)
  {}

  /** From wherever the scan stands, the first due candidate, and a cursor just behind it, so that the
      next call goes on with the rest of the round. */
  method NextDue(now: u32, polls: PollSet, cursor: PollScanCursor, ghost start: nat, ghost k: nat)
    returns (status: PollDueStatus, next: PollScanCursor, selection: PollSelection)
    requires ScanShape(cursor) && ScanAt(cursor, start, k)
    ensures ScanShape(next)
    ensures var count := |polls.candidates|;
            if count != 0 && !polls.present then status == InvalidScanStorage && selection == NO_SELECTION
                && next == NO_SCAN
            else if cursor.candidateCount != count then
              status == CandidateCountChanged && selection == NO_SELECTION && next == NO_SCAN
            else if !cursor.active then status == ScanComplete && selection == NO_SELECTION && next == cursor
            else
              var first := FirstDue(now, polls.candidates, start, k);
              && status == (if first < count then Due else ScanComplete)
              && selection == (if first < count then FromCandidateSet(Poll, Visited(start, first, count), count)
                               else NO_SELECTION)
              && next.candidateCount == count
              && next.active == (first + 1 < count)
              && ScanAt(next, start, first + 1)
  {
    hide FirstDue, IsDue, Visited, ScanAt;
    selection := NO_SELECTION;
    next := cursor;
    if |polls.candidates| != 0 && !polls.present {
      return InvalidScanStorage, NO_SCAN, selection;
    }
    if cursor.candidateCount != |polls.candidates| {
      return CandidateCountChanged, NO_SCAN, selection;
    }
    ghost var j := k;
    if cursor.active {
      ScanAdvances(cursor, start, k);
    }
    var index: Option<u16>;
    next, index := NextIndex(next);
    while index.Some?
      invariant ScanShape(next) && next.candidateCount == |polls.candidates|
      invariant index.Some? ==>
          && cursor.active
          && k <= j < |polls.candidates|
          && index.value == Visited(start, j, |polls.candidates|)
          && next.active == (j + 1 < |polls.candidates|)
          && ScanAt(next, start, j + 1)
          && FirstDue(now, polls.candidates, start, j) == FirstDue(now, polls.candidates, start, k)
      invariant index.None? ==>
          && !next.active
          && if cursor.active then FirstDue(now, polls.candidates, start, k) == |polls.candidates| else next == cursor
      decreases next.remaining, index.Some?
    {
      FirstDueStep(now, polls.candidates, start, j);
      if IsDue(now, polls.candidates[index.value]) {
        return Due, next, FromCandidateSet(Poll, index.value, |polls.candidates|);
      }
      if next.active {
        ScanAdvances(next, start, j + 1);
      } else {
        FirstDueStep(now, polls.candidates, start, j + 1);
      }
      next, index := NextIndex(next);
      j := j + 1;
    }
    InactiveIsAnywhere(next, start, |polls.candidates| + 1);
    return ScanComplete, next, selection;
  }

  lemma {:induction false} InactiveIsAnywhere(cursor: PollScanCursor, start: nat, k: nat)
    ensures !cursor.active ==> ScanAt(cursor, start, k)
  {}

  // ----- a handler pass over one scan -----

  /** The candidates that repeated scanning offers from step `k` on when all are declined. */
  function Offers(now: u32, candidates: seq<PollCandidate>, start: nat, k: nat): seq<u16>
    requires (start < |candidates| || candidates == []) && k <= |candidates| < ADDRESS_SPACE
    decreases |candidates| - k
  {
    var first := FirstDue(now, candidates, start, k);
    if first == |candidates| then [] else
      [Visited(start, first, |candidates|)] + Offers(now, candidates, start, first + 1)
  }

  /** Candidates behind a null pointer are never offered. */
  function ReadableOffers(now: u32, polls: PollSet, start: nat, k: nat): seq<u16>
    requires (start < |polls.candidates| || polls.candidates == []) && k <= |polls.candidates|
  {
    if polls.present then Offers(now, polls.candidates, start, k) else []
  }

  ghost predicate InRoundOrder(indices: seq<u16>, start: nat, count: nat, from: nat) {
    && (forall i | 0 <= i < |indices| ::
          start < count && indices[i] < count && from <= Distance(start, count, indices[i]))
    && (forall i, j | 0 <= i < j < |indices| ::
          start < count && indices[i] < count && indices[j] < count
          && Distance(start, count, indices[i]) < Distance(start, count, indices[j]))
  }

  /** A round offers exactly the due candidates that it has not passed yet, in round-robin order, and
      hence each of them once. */
  lemma {:induction false} OffersExact(now: u32, candidates: seq<PollCandidate>, start: nat, k: nat)
    requires start < |candidates| < ADDRESS_SPACE && k <= |candidates|
    ensures var count, offers := |candidates|, Offers(now, candidates, start, k);
            && InRoundOrder(offers, start, count, k)
            && forall index | 0 <= index < count ::
                 index in offers <==> IsDue(now, candidates[index]) && k <= Distance(start, count, index)
    decreases |candidates| - k
  {
    hide IsDue, FirstDue, Visited, Distance, InRoundOrder;
    var count, first := |candidates|, FirstDue(now, candidates, start, k);
    NoneDueBefore(now, candidates, start, k);
    if first == count {
      NothingInRoundOrder(start, count, k);
    } else {
      var next, rest := Visited(start, first, count), Offers(now, candidates, start, first + 1);
      OffersExact(now, candidates, start, first + 1);
      VisitedIsAt(start, count, first);
      RoundOrderGrows(next, rest, start, count, k);
      assert Offers(now, candidates, start, k) == [next] + rest;
    }
  }

  lemma {:induction false} NoneDueBefore(now: u32, candidates: seq<PollCandidate>, start: nat, k: nat)
    requires start < |candidates| && k <= |candidates|
    ensures var count, first := |candidates|, FirstDue(now, candidates, start, k);
            && (first < count ==> IsDue(now, candidates[Visited(start, first, count)]))
            && forall index | 0 <= index < count && IsDue(now, candidates[index]) ::
                 k <= Distance(start, count, index) ==> first <= Distance(start, count, index)
  {
    hide IsDue, FirstDue, Visited, Distance;
    FirstDueIsFirst(now, candidates, start, k);
    forall index | 0 <= index < |candidates| && IsDue(now, candidates[index])
      ensures k <= Distance(start, |candidates|, index) ==>
                FirstDue(now, candidates, start, k) <= Distance(start, |candidates|, index)
    {
      assert Visited(start, Distance(start, |candidates|, index), |candidates|) == index;
    }
  }

  lemma {:induction false} NothingInRoundOrder(start: nat, count: nat, from: nat)
    ensures InRoundOrder([], start, count, from)
  {}

  lemma {:induction false} RoundOrderGrows(next: u16, rest: seq<u16>, start: nat, count: nat, from: nat)
    requires start < count && next < count && from <= Distance(start, count, next)
    requires InRoundOrder(rest, start, count, Distance(start, count, next) + 1)
    ensures InRoundOrder([next] + rest, start, count, from)
  {
    hide Distance;
  }

  lemma {:induction false} VisitedIsAt(start: nat, count: nat, k: nat)
    requires start < count && k < count
    ensures Distance(start, count, Visited(start, k, count)) == k
  {}

  /** What the application makes of a candidate it is offered. */
  datatype PollAttempt = Declined | QueueRejected | Polled

  /** The documented handler pass: offer due candidates until one is polled, which is committed, or
      the downstream queue rejects one, which ends the pass. A declined candidate is not offered again
      in the same pass, and only a polled one changes the persistent state. */
  method HandlerPass(now: u32, polls: PollSet, state: PollPlannerState, attempt: u16 -> PollAttempt)
    returns (offered: seq<u16>, updated: PollPlannerState)
    ensures var count := |polls.candidates|;
            var due := ReadableOffers(now, polls, ScanStart(state, count), 0);
            && offered <= due
            && (forall i | 0 <= i < |offered| - 1 :: attempt(offered[i]).Declined?)
            && if offered == [] || attempt(offered[|offered| - 1]).Declined? then offered == due && updated == state
               else if attempt(offered[|offered| - 1]).QueueRejected? then updated == state
               else Some(updated)
                    == Committed(FromCandidateSet(Poll, offered[|offered| - 1], count), count, now, state)
  {
    hide FirstDue, Visited, ScanAt, Committed, ReadableOffers, ScanShape, IsDue;
    var count := |polls.candidates|;
    offered, updated := [], state;
    ghost var start, k := ScanStart(state, count), 0;
    ghost var due := ReadableOffers(now, polls, start, 0);
    var cursor := BeginPollScan(count, state);
    ScanIsAtStart(cursor, start);
    assert offered + due == due;
    var status, selection := Due, NO_SELECTION;
    while status == Due
      invariant ScanShape(cursor) && k <= count && updated == state
      invariant if status == Due then
                  && cursor.candidateCount == count
                  && cursor.active == (k < count)
                  && ScanAt(cursor, start, k)
                  && due == offered + ReadableOffers(now, polls, start, k)
                else offered == due
      invariant forall i | 0 <= i < |offered| :: attempt(offered[i]).Declined?
      decreases count - k, status == Due
    {
      status, cursor, selection := NextDue(now, polls, cursor, start, k);
      OffersUnfold(now, polls, start, k);
      if status == Due {
        k := FirstDue(now, polls.candidates, start, k) + 1;
        OneMoreOffered(due, offered, selection.pollIndex, ReadableOffers(now, polls, start, k));
        offered := offered + [selection.pollIndex];
        match attempt(selection.pollIndex) {
          case Declined =>
          case QueueRejected =>
            return;
          case Polled =>
            DueCommits(selection.pollIndex, count, now, state);
            var ok;
            ok, updated := Commit(selection, count, now, state);
            return;
        }
      }
    }
  }

  lemma {:induction false} OneMoreOffered(due: seq<u16>, offered: seq<u16>, next: u16, rest: seq<u16>)
    requires due == offered + ([next] + rest)
    ensures due == offered + [next] + rest && offered + [next] <= due
  {
    assert offered + ([next] + rest) == offered + [next] + rest;
  }

  lemma {:induction false} OffersUnfold(now: u32, polls: PollSet, start: nat, k: nat)
    requires (start < |polls.candidates| || polls.candidates == []) && k <= |polls.candidates|
    ensures var count, first := |polls.candidates|, FirstDue(now, polls.candidates, start, k);
            ReadableOffers(now, polls, start, k)
            == if !polls.present || first == count then []
               else [Visited(start, first, count)] + ReadableOffers(now, polls, start, first + 1)
  {}

  lemma {:induction false} ScanIsAtStart(cursor: PollScanCursor, start: nat)
    requires cursor.active ==>
               start == cursor.nextIndex < cursor.candidateCount && cursor.remaining == cursor.candidateCount
    ensures ScanAt(cursor, start, 0)
  {}

  lemma {:induction false} DueCommits(index: u16, count: u16, now: u32, state: PollPlannerState)
    requires index < count
    ensures Committed(FromCandidateSet(Poll, index, count), count, now, state).Some?
  {}

  // ----- selection and commit -----

  /** A forward goes first unless a poll is due and the burst limit is used up. */
  function Choice(options: PollPlannerOptions, now: u32, forwardReady: bool, polls: PollSet, state: PollPlannerState)
    : (PollSelectStatus, PollSelection)
  {
    var count := |polls.candidates|;
    var start := ScanStart(state, count);
    var first := if count == 0 then 0 else FirstDue(now, polls.candidates, start, 0);
    if count != 0 && !polls.present then (InvalidPollStorage, NO_SELECTION)
    else if forwardReady && (first == count || state.forwardsSincePoll < options.maxConsecutiveForwards) then
      (Selected, FromCandidateSet(ForwardWrite, 0, count))
    else if first < count then (Selected, FromCandidateSet(Poll, Visited(start, first, count), count))
    else (NothingSelected, NO_SELECTION)
  }

  method Select(options: PollPlannerOptions, now: u32, forwardReady: bool, polls: PollSet, state: PollPlannerState)
    returns (status: PollSelectStatus, selection: PollSelection)
    ensures (status, selection) == Choice(options, now, forwardReady, polls, state)
  {
    var count := |polls.candidates|;
    selection := NO_SELECTION;
    if count != 0 && !polls.present {
      return InvalidPollStorage, selection;
    }
    var scan := BeginPollScan(count, state);
    var scanStatus, _, dueSelection := NextDue(now, polls, scan, ScanStart(state, count), 0);
    if scanStatus == InvalidScanStorage || scanStatus == CandidateCountChanged {
      assert false;
    }
    var due := scanStatus == Due;
    if forwardReady && (!due || state.forwardsSincePoll < options.maxConsecutiveForwards) {
      return Selected, FromCandidateSet(ForwardWrite, 0, count);
    }
    if due {
      return Selected, dueSelection;
    }
    if forwardReady {
      assert false;
    }
    return NothingSelected, selection;
  }

  /** The state after an accepted phase, or nothing when the selection does not fit the candidates. */
  function Committed(selection: PollSelection, count: u16, now: u32,
      state: PollPlannerState): Option<PollPlannerState> {
    if selection.pollCountBound && selection.originatingPollCount != count then None
    else match selection.kind
         case ForwardWrite =>
           Some(state.(forwardsSincePoll := Min(state.forwardsSincePoll + 1, 0xFFFF)))
         case Poll =>
           if selection.pollIndex >= count then None
           else Some(PollPlannerState(Following(selection.pollIndex, count), 0, now, true))
         case NoAction => None
  }

  method Commit(selection: PollSelection, count: u16, now: u32, state: PollPlannerState)
    returns (ok: bool, updated: PollPlannerState)
    ensures ok <==> Committed(selection, count, now, state).Some?
    ensures updated == if ok then Committed(selection, count, now, state).value else state
  {
    updated := state;
    if selection.pollCountBound && selection.originatingPollCount != count {
      return false, updated;
    }
    match selection.kind {
      case ForwardWrite =>
        if updated.forwardsSincePoll != 0xFFFF {
          updated := updated.(forwardsSincePoll := updated.forwardsSincePoll + 1);
        }
        return true, updated;
      case Poll =>
        if count == 0 || selection.pollIndex >= count {
          return false, updated;
        }
        updated := updated.(nextPollIndex := Wrap16(selection.pollIndex + 1));
        if updated.nextPollIndex == count {
          updated := updated.(nextPollIndex := 0);
        }
        updated := updated.(forwardsSincePoll := 0);
        updated := updated.(lastPollAt := now);
        updated := updated.(hasConsumedPoll := true);
        return true, updated;
      case NoAction =>
        return false, updated;
    }
  }

  /** Whatever was selected can be committed against the same candidate count. */
  lemma {:induction false} ChoiceCommits(
    options: PollPlannerOptions, now: u32, forwardReady: bool, polls: PollSet, state: PollPlannerState)
    requires Choice(options, now, forwardReady, polls, state).0.Selected?
    ensures var selection := Choice(options, now, forwardReady, polls, state).1;
            && Committed(selection, |polls.candidates|, now, state).Some?
            && (selection.kind.ForwardWrite? ==> forwardReady)
            && (selection.kind.Poll? ==>
                  && selection.pollIndex < |polls.candidates|
                  && IsDue(now, polls.candidates[selection.pollIndex]))
            && !selection.kind.NoAction?
  {
    if |polls.candidates| > 0 {
      FirstDueIsFirst(now, polls.candidates, ScanStart(state, |polls.candidates|), 0);
    }
  }

  /** A selection is bound to its candidates: against any other number of them it is refused, and so is
      one that selects nothing or an index outside them. Every other commit is accepted. */
  lemma {:induction false} CommitsExactly(selection: PollSelection, count: u16, now: u32, state: PollPlannerState)
    ensures Committed(selection, count, now, state).Some?
            <==> && (selection.pollCountBound ==> selection.originatingPollCount == count)
                 && (selection.kind.ForwardWrite? || (selection.kind.Poll? && selection.pollIndex < count))
  {}

  lemma {:induction false} SelectionsAreBound(
    options: PollPlannerOptions, now: u32, forwardReady: bool, polls: PollSet, state: PollPlannerState,
    count: u16, later: u32, other: PollPlannerState)
    requires Choice(options, now, forwardReady, polls, state).0.Selected? && count != |polls.candidates|
    ensures Committed(Choice(options, now, forwardReady, polls, state).1, count, later, other).None?
  {
    hide FirstDue, IsDue;
  }

  // ----- bounded waiting -----

  /** One select/commit round with whatever the caller supplies. */
  datatype Round = Round(now: u32, forwardReady: bool, candidates: seq<PollCandidate>)

  function RoundPolls(round: Round): PollSet
    requires |round.candidates| < ADDRESS_SPACE
  {
    RawPollSet(true, round.candidates)
  }

  function StateAfter(options: PollPlannerOptions, state: PollPlannerState, round: Round): PollPlannerState
    requires |round.candidates| < ADDRESS_SPACE
  {
    var (status, selection) := Choice(options, round.now, round.forwardReady, RoundPolls(round), state);
    match Committed(selection, |round.candidates|, round.now, state)
    case Some(next) => next
    case None => state
  }

  /** Some round of the run selects candidate `index`. */
  predicate Served(options: PollPlannerOptions, state: PollPlannerState, rounds: seq<Round>, index: nat)
    requires forall i | 0 <= i < |rounds| :: |rounds[i].candidates| < ADDRESS_SPACE
    decreases |rounds|
  {
    rounds != [] &&
    var round := rounds[0];
    var (status, selection) := Choice(options, round.now, round.forwardReady, RoundPolls(round), state);
    || (status.Selected? && selection.kind.Poll? && selection.pollIndex == index)
    || Served(options, StateAfter(options, state, round), rounds[1..], index)
  }

  /** In every round there are `count` candidates and this one is enabled and due. */
  predicate AlwaysDue(rounds: seq<Round>, count: nat, index: nat) {
    forall i | 0 <= i < |rounds| ::
      && |rounds[i].candidates| == count < ADDRESS_SPACE
      && index < count
      && IsDue(rounds[i].now, rounds[i].candidates[index])
  }

  /** How many more rounds can pass before the candidate is selected. */
  function Patience(options: PollPlannerOptions, state: PollPlannerState, count: nat, index: nat): nat
    requires index < count
  {
    var limit := options.maxConsecutiveForwards;
    Distance(ScanStart(state, count), count, index) * (limit + 1) + Max(0, limit - state.forwardsSincePoll)
  }

  lemma {:induction false} ProductSteps(a: nat, b: nat, c: nat)
    requires a < b
    ensures a * c + c <= b * c
    decreases b
  {
    assert b * c == (b - 1) * c + c;
    if a == b - 1 {
    } else {
      ProductSteps(a, b - 1, c);
    }
  }

  /** Any round that passes the candidate over uses up some patience. */
  lemma {:induction false} PatienceDrops(options: PollPlannerOptions, state: PollPlannerState, round: Round, index: nat)
    requires |round.candidates| < ADDRESS_SPACE && index < |round.candidates|
    requires IsDue(round.now, round.candidates[index])
    ensures var (status, selection) := Choice(options, round.now, round.forwardReady, RoundPolls(round), state);
            && status.Selected?
            && ((selection.kind.Poll? && selection.pollIndex == index)
                || Patience(options, StateAfter(options, state, round), |round.candidates|, index)
                   < Patience(options, state, |round.candidates|, index))
  {
    var count: int, limit: int := |round.candidates|, options.maxConsecutiveForwards;
    var start := ScanStart(state, count);
    var distance := Distance(start, count, index);
    var first := FirstDue(round.now, round.candidates, start, 0);
    FirstDueIsFirst(round.now, round.candidates, start, 0);
    hide FirstDue, IsDue;
    assert first <= distance;
    var next := StateAfter(options, state, round);
    if !round.forwardReady || state.forwardsSincePoll >= limit {
      if first < distance {
        assert next.nextPollIndex == Following(Visited(start, first, count), count);
        assert Distance(ScanStart(next, count), count, index) == distance - first - 1;
        ProductSteps(distance - first - 1, distance, limit + 1);
      }
    } else {
      assert next == state.(forwardsSincePoll := state.forwardsSincePoll + 1);
    }
  }

  lemma {:induction false} PatienceSuffices(
    options: PollPlannerOptions, state: PollPlannerState, rounds: seq<Round>, count: nat, index: nat)
    requires AlwaysDue(rounds, count, index) && index < count
    requires Patience(options, state, count, index) < |rounds|
    ensures Served(options, state, rounds, index)
    decreases |rounds|
  {
    PatienceDrops(options, state, rounds[0], index);
    hide Patience, Choice, StateAfter, IsDue;
    var (status, selection) := Choice(options, rounds[0].now, rounds[0].forwardReady, RoundPolls(rounds[0]), state);
    if selection.kind.Poll? && selection.pollIndex == index {
    } else {
      PatienceSuffices(options, StateAfter(options, state, rounds[0]), rounds[1..], count, index);
    }
  }

  lemma {:induction false} PatienceBound(
    options: PollPlannerOptions, state: PollPlannerState, count: nat, index: nat)
    requires index < count
    ensures Patience(options, state, count, index) < count * (options.maxConsecutiveForwards + 1)
  {
    var limit: int := options.maxConsecutiveForwards;
    ProductSteps(Distance(ScanStart(state, count), count, index), count, limit + 1);
  }

  /** Bounded waiting: from any fairness state and for every burst limit up to 0xFFFF, a candidate
      that is enabled and due in every round is selected within count * (limit + 1) rounds, whatever
      the other candidates and the forward writes do. */
  lemma {:induction false} BoundedWaiting(
    options: PollPlannerOptions, state: PollPlannerState, rounds: seq<Round>, count: nat, index: nat)
    requires AlwaysDue(rounds, count, index) && index < count
    requires |rounds| >= count * (options.maxConsecutiveForwards + 1)
    ensures Served(options, state, rounds, index)
  {
    hide Served, AlwaysDue, Patience;
    PatienceBound(options, state, count, index);
    PatienceSuffices(options, state, rounds, count, index);
  }

  // ----- the index-only convenience scan -----

  /** One transient scan over a persistent index and timestamp; only a successful commit publishes. */
  class PollIndexScan {
    const candidateCount: u16
    var state: PollPlannerState
    var scan: PollScanCursor
    ghost const start: nat
    ghost var visits: nat

    ghost predicate Valid()
      reads this
    {
      && ScanShape(scan)
      && visits <= candidateCount
      && (candidateCount > 0 ==> start < candidateCount)
      && (scan.active <==> visits < candidateCount)
      && (scan.active ==> scan.candidateCount == candidateCount)
      && ScanAt(scan, start, visits)
    }

    constructor (candidateCount: u16, nextPollIndex: u16, lastPollAt: u32)
      ensures Valid() && visits == 0 && this.candidateCount == candidateCount
      ensures start == (if nextPollIndex < candidateCount then nextPollIndex else 0)
      ensures state.nextPollIndex == start && state.lastPollAt == lastPollAt
    {
      this.candidateCount := candidateCount;
      var initial := INITIAL_POLL_STATE.(
        nextPollIndex := if candidateCount != 0 && nextPollIndex < candidateCount then nextPollIndex else 0,
        lastPollAt := lastPollAt);
      this.state := initial;
      this.start := if nextPollIndex < candidateCount then nextPollIndex else 0;
      this.visits := 0;
      var cursor := BeginPollScan(candidateCount, initial);
      this.scan := cursor;
    }

    /** The k-th call yields the k-th index of the round; after a whole round there is none left. */
    method Next() returns (index: Option<u16>)
      requires Valid()
      modifies this`scan, this`visits
      ensures Valid()
      ensures index == if old(visits) < candidateCount then Some(Visited(start, old(visits), candidateCount)) else None
      ensures visits == old(visits) + (if index.Some? then 1 else 0)
    {
      var cursor: PollScanCursor;
      cursor, index := NextIndex(scan);
      scan := cursor;
      if index.Some? {
        visits := visits + 1;
      }
    }

    /** Publishes a new index and timestamp only for a valid index and an unchanged count. */
    method CommitConsumed(candidateIndex: u16, currentCandidateCount: u16, now: u32) returns (ok: bool)
      requires Valid()
      modifies this`state
      ensures Valid()
      ensures ok <==> currentCandidateCount == candidateCount && candidateIndex < candidateCount
      ensures ok ==> state.nextPollIndex == Following(candidateIndex, candidateCount) && state.lastPollAt == now
      ensures !ok ==> state == old(state)
    {
      var updated: PollPlannerState;
      ok, updated := Commit(FromCandidateSet(Poll, candidateIndex, candidateCount), currentCandidateCount, now, state);
      state := updated;
    }
  }
}
