/** Bounded completion tracking for several admitted works, one slot each. */
module CompletionLedger {
  import opened Words
  import opened IngressWork
  import opened ForwardPlan
  import opened CompletionTransition

  datatype WorkOutcome = Pending | WorkApplied | WorkNotSent | WorkUncertain | WorkTerminal

  function WorkOutcomeFor(outcome: DownstreamOutcome): WorkOutcome {
    match outcome
    case Applied => WorkApplied
    case DefinitelyNotSent => WorkNotSent
    case SendUncertain => WorkUncertain
    case FailedAfterSend | UnknownOutcome(_) => WorkTerminal
  }

  function CombineWorkOutcomes(current: WorkOutcome, observed: DownstreamOutcome): WorkOutcome {
    var next := WorkOutcomeFor(observed);
    if current == Pending || current == WorkApplied then next
    else if next == WorkTerminal || current == WorkTerminal then WorkTerminal
    else if next == WorkUncertain || current == WorkUncertain then WorkUncertain
    else WorkNotSent
  }

  /** How much certainty an outcome has lost. */
  function Severity(outcome: WorkOutcome): nat {
    match outcome
    case Pending => 0
    case WorkApplied => 1
    case WorkNotSent => 2
    case WorkUncertain => 3
    case WorkTerminal => 4
  }

  predicate IsFailure(outcome: WorkOutcome) {
    outcome != Pending && outcome != WorkApplied
  }

  datatype WorkCompletionSummary = WorkCompletionSummary(
    work: WorkIdentity, outcome: WorkOutcome, outstandingRequests: u16, settled: bool, drained: bool)

  const NO_SUMMARY := WorkCompletionSummary(NO_WORK, Pending, 0, false, false)

  datatype LedgerSlot = LedgerSlot(
    aggregate: CompletionAggregate,
    issuedRequest: PlannedWrite,
    observedOutcome: WorkOutcome,
    nextIssuedFragment: u16,
    outstandingRequests: u16,
    occupied: bool,
    planningClosed: bool)

  const FREE_SLOT := LedgerSlot(NO_AGGREGATE, NO_WRITE, Pending, 0, 0, false, false)

  datatype LedgerReserveStatus = Reserved | InvalidLedgerStorage | InvalidLedgerWork | DuplicateWork | LedgerFull

  datatype LedgerIssueStatus =
    | Recorded | IssueWorkNotFound | InvalidRequest | IssueOutOfOrder | PlanningClosed | OutstandingRequestExists
    | FragmentIndexOverflow

  datatype LedgerResolveStatus =
    Resolved | ResolveWorkNotFound | UnknownResult | NoOutstandingRequest | RequestMismatch | CompletionRejected

  datatype LedgerReleaseStatus = Released | ReleaseWorkNotFound | StillActive

  datatype LedgerResolution = LedgerResolution(
    status: LedgerResolveStatus, decision: CompletionDecision, summary: WorkCompletionSummary)

  // ----- one slot -----

  function NewSlot(work: WorkIdentity, delivery: IngressDelivery): LedgerSlot {
    LedgerSlot(NewAggregate(work, delivery), NO_WRITE, Pending, 0, 0, true, false)
  }

  function Summarize(slot: LedgerSlot): WorkCompletionSummary {
    var drained := slot.planningClosed && slot.outstandingRequests == 0;
    var settled := IsFailure(slot.observedOutcome) || drained;
    WorkCompletionSummary(
      slot.aggregate.work, if settled then slot.observedOutcome else Pending, slot.outstandingRequests, settled,
          drained)
  }

  /** Why a request cannot be recorded in a slot of its work, or that it can. */
  function SlotIssueStatus(slot: LedgerSlot, request: PlannedWrite): LedgerIssueStatus {
    if slot.planningClosed then PlanningClosed
    else if slot.outstandingRequests != 0 then OutstandingRequestExists
    else if request.delivery != slot.aggregate.delivery
            || request.identity.fragmentIndex != slot.nextIssuedFragment then IssueOutOfOrder
    else if slot.nextIssuedFragment == 0xFFFF && !request.finalFragment then FragmentIndexOverflow
    else Recorded
  }

  function AfterIssue(slot: LedgerSlot, request: PlannedWrite): LedgerSlot {
    slot.(
      issuedRequest := request,
      outstandingRequests := 1,
      planningClosed := slot.planningClosed || request.finalFragment,
      nextIssuedFragment :=
        if request.finalFragment then slot.nextIssuedFragment else Wrap16(slot.nextIssuedFragment + 1))
  }

  function AfterResolve(slot: LedgerSlot, outcome: DownstreamOutcome): LedgerSlot {
    slot.(
      aggregate := Accepted(slot.aggregate, slot.issuedRequest.finalFragment, outcome),
      observedOutcome := CombineWorkOutcomes(slot.observedOutcome, outcome),
      outstandingRequests := 0,
      issuedRequest := NO_WRITE)
  }

  function AfterClose(slot: LedgerSlot): LedgerSlot {
    slot.(planningClosed := true)
  }

  /** How the fields of an occupied slot agree with each other. */
  ghost predicate SlotAgrees(slot: LedgerSlot) {
    var aggregate, issued := slot.aggregate, slot.issuedRequest;
    && slot.occupied
    && aggregate.Valid()
    && aggregate.failed == IsFailure(slot.observedOutcome)
    && (slot.observedOutcome == Pending <==> aggregate.nextFragmentIndex == 0 && !aggregate.complete)
    && (aggregate.noticeEmitted <==>
          TracksPublicCompletion(aggregate.delivery) && (aggregate.failed || aggregate.complete))
    && slot.outstandingRequests <= 1
    && (slot.outstandingRequests == 0 ==>
          && slot.nextIssuedFragment == aggregate.nextFragmentIndex
          && (aggregate.complete ==> slot.planningClosed)
          && (slot.planningClosed ==> aggregate.complete || aggregate.failed))
    && (slot.outstandingRequests == 1 ==>
          && !aggregate.complete
          && issued.identity.Valid()
          && issued.identity.work == aggregate.work
          && issued.delivery == aggregate.delivery
          && issued.identity.fragmentIndex == aggregate.nextFragmentIndex
          && slot.nextIssuedFragment == aggregate.nextFragmentIndex + (if issued.finalFragment then 0 else 1)
          && (issued.finalFragment ==> slot.planningClosed)
          && (slot.planningClosed ==> issued.finalFragment || aggregate.failed))
  }

  /** One fragment that reached a terminal result. */
  datatype FragmentResult = FragmentResult(request: PlannedWrite, outcome: DownstreamOutcome)

  /** The severity maximum of a history; nothing is known of an empty one. */
  ghost predicate IsWorst(outcome: WorkOutcome, history: seq<FragmentResult>) {
    && (outcome == Pending <==> history == [])
    && (forall i | 0 <= i < |history| :: Severity(WorkOutcomeFor(history[i].outcome)) <= Severity(outcome))
    && (history != [] ==> exists i | 0 <= i < |history| :: WorkOutcomeFor(history[i].outcome) == outcome)
  }

  predicate HistoryFinished(history: seq<FragmentResult>) {
    history != [] && history[|history| - 1].request.finalFragment
  }

  /** What a slot tells about the results its work has had so far. */
  ghost predicate Tells(slot: LedgerSlot, history: seq<FragmentResult>) {
    && IsWorst(slot.observedOutcome, history)
    && slot.aggregate.complete == HistoryFinished(history)
    && slot.aggregate.nextFragmentIndex == |history| - (if HistoryFinished(history) then 1 else 0)
    && (forall i | 0 <= i < |history| :: history[i].request.identity.fragmentIndex == i)
    && (forall i | 0 <= i < |history| - 1 :: !history[i].request.finalFragment)
  }

  lemma {:induction false} NewSlotAgrees(work: WorkIdentity, delivery: IngressDelivery)
    requires work.Valid() && IsAccepted(delivery)
    ensures SlotAgrees(NewSlot(work, delivery)) && Tells(NewSlot(work, delivery), [])
  {}

  lemma {:induction false} IssueAgrees(slot: LedgerSlot, request: PlannedWrite, history: seq<FragmentResult>)
    requires SlotAgrees(slot) && Tells(slot, history)
    requires request.identity.Valid() && request.identity.work == slot.aggregate.work
    requires SlotIssueStatus(slot, request).Recorded?
    ensures SlotAgrees(AfterIssue(slot, request)) && Tells(AfterIssue(slot, request), history)
  {}

  lemma {:induction false} CloseAgrees(slot: LedgerSlot, history: seq<FragmentResult>)
    requires SlotAgrees(slot) && Tells(slot, history) && IsFailure(slot.observedOutcome)
    ensures SlotAgrees(AfterClose(slot)) && Tells(AfterClose(slot), history)
  {}

  /** The request in flight can only be refused for its own identity or a stale session. */
  lemma {:induction false} OutstandingVerdict(slot: LedgerSlot, observed: CompletionRecord, session: SessionState)
    requires SlotAgrees(slot) && slot.outstandingRequests == 1 && IsKnownOutcome(observed.outcome)
    ensures Verdict(slot.issuedRequest, observed, session, slot.aggregate)
            == if observed.identity != slot.issuedRequest.identity then IdentityMismatch
               else if !WorkCurrent(slot.aggregate.work, session) then StaleCompletion
               else Current
  {}

  lemma {:induction false} ResolveAgrees(slot: LedgerSlot, outcome: DownstreamOutcome, history: seq<FragmentResult>)
    requires SlotAgrees(slot) && Tells(slot, history) && slot.outstandingRequests == 1
    ensures SlotAgrees(AfterResolve(slot, outcome))
    ensures Tells(AfterResolve(slot, outcome), history + [FragmentResult(slot.issuedRequest, outcome)])
  {
    WorstExtends(slot.observedOutcome, history, FragmentResult(slot.issuedRequest, outcome));
    hide IsWorst;
  }

  /** Combining keeps the maximum, so an observed failure only ever rises. */
  lemma {:induction false} WorstExtends(outcome: WorkOutcome, history: seq<FragmentResult>, result: FragmentResult)
    requires IsWorst(outcome, history)
    ensures IsWorst(CombineWorkOutcomes(outcome, result.outcome), history + [result])
    ensures Severity(CombineWorkOutcomes(outcome, result.outcome)) >= Severity(outcome)
    ensures IsFailure(outcome) ==> IsFailure(CombineWorkOutcomes(outcome, result.outcome))
  {
    var extended := history + [result];
    assert extended[|history|] == result;
    if history != [] && CombineWorkOutcomes(outcome, result.outcome) == outcome {
      var i :| 0 <= i < |history| && WorkOutcomeFor(history[i].outcome) == outcome;
      assert WorkOutcomeFor(extended[i].outcome) == outcome;
    } else {
      assert WorkOutcomeFor(extended[|history|].outcome) == CombineWorkOutcomes(outcome, result.outcome);
    }
  }

  /** Some fragment of the history ended like this. */
  predicate Ended(history: seq<FragmentResult>, outcome: DownstreamOutcome) {
    exists i | 0 <= i < |history| :: history[i].outcome == outcome
  }

  /** Some fragment failed after it was sent; what is not a known outcome counts as that. */
  predicate EndedTerminally(history: seq<FragmentResult>) {
    exists i | 0 <= i < |history| :: history[i].outcome.FailedAfterSend? || history[i].outcome.UnknownOutcome?
  }

  predicate EndedApplied(history: seq<FragmentResult>) {
    history != [] && forall i | 0 <= i < |history| :: history[i].outcome == Applied
  }

  /** What one outcome says of a whole history: a failure after sending outweighs an uncertain send,
      which outweighs the certainty that nothing was sent, which outweighs success. */
  predicate SaysWorst(outcome: WorkOutcome, history: seq<FragmentResult>) {
    && (outcome == WorkTerminal <==> EndedTerminally(history))
    && (outcome == WorkUncertain <==> !EndedTerminally(history) && Ended(history, SendUncertain))
    && (outcome == WorkNotSent
        <==> !EndedTerminally(history) && !Ended(history, SendUncertain) && Ended(history, DefinitelyNotSent))
    && (outcome == WorkApplied <==> EndedApplied(history))
    && (outcome == Pending <==> history == [])
  }

  /** The observed outcome of a slot, in terms of how the work's fragments ended. */
  lemma {:induction false} ObservedExactly(outcome: WorkOutcome, history: seq<FragmentResult>)
    requires IsWorst(outcome, history)
    ensures SaysWorst(outcome, history)
  {
    if history != [] {
      var i :| 0 <= i < |history| && WorkOutcomeFor(history[i].outcome) == outcome;
      assert Severity(WorkOutcomeFor(history[i].outcome)) == Severity(outcome);
    }
  }

  /** A summary in terms of how the work's fragments ended: it names the worst failure as soon as there
      is one, success once every fragment through the final one applied, and nothing before that. */
  predicate SummaryTells(summary: WorkCompletionSummary, history: seq<FragmentResult>) {
    if history != [] && !EndedApplied(history) then
      summary.settled && SaysWorst(summary.outcome, history)
    else
      && summary.settled == HistoryFinished(history)
      && summary.outcome == if HistoryFinished(history) then WorkApplied else Pending
  }

  /** What the summary of a slot says of the results its work has had. */
  lemma {:induction false} SummaryExactly(slot: LedgerSlot, history: seq<FragmentResult>)
    requires SlotAgrees(slot) && Tells(slot, history)
    ensures var summary, failed := Summarize(slot), history != [] && !EndedApplied(history);
            && summary.work == slot.aggregate.work
            && summary.outstandingRequests == slot.outstandingRequests
            && SummaryTells(summary, history)
            && (summary.drained <==>
                  slot.outstandingRequests == 0 && (HistoryFinished(history) || (failed && slot.planningClosed)))
  {
    hide SaysWorst;
    ObservedExactly(slot.observedOutcome, history);
    WorstDecides(slot.observedOutcome, history);
    hide IsWorst, EndedApplied;
  }

  lemma {:induction false} WorstDecides(outcome: WorkOutcome, history: seq<FragmentResult>)
    requires SaysWorst(outcome, history)
    ensures outcome == WorkApplied <==> EndedApplied(history)
    ensures outcome == Pending <==> history == []
  {}

  /** A work settled as applied had every fragment through its final one applied. */
  lemma {:induction false} SettledAsApplied(slot: LedgerSlot, history: seq<FragmentResult>)
    requires SlotAgrees(slot) && Tells(slot, history)
    ensures Summarize(slot).settled && Summarize(slot).outcome == WorkApplied
            <==> HistoryFinished(history) && forall i | 0 <= i < |history| :: history[i].outcome == Applied
  {}

  /** A tracked work is settled exactly when its one notice has been emitted. */
  lemma {:induction false} SettledIffNoticed(slot: LedgerSlot)
    requires SlotAgrees(slot) && slot.aggregate.delivery.Tracked?
    ensures Summarize(slot).settled <==> slot.aggregate.noticeEmitted
  {}

  // ----- the whole ledger -----

  type LedgerContents = map<WorkIdentity, LedgerSlot>

  function IssueStatus(contents: LedgerContents, request: PlannedWrite): LedgerIssueStatus {
    if !request.identity.Valid() || !IsAccepted(request.delivery) then InvalidRequest
    else if request.identity.work !in contents then IssueWorkNotFound
    else SlotIssueStatus(contents[request.identity.work], request)
  }

  function ResolveStatus(
    contents: LedgerContents, expected: PlannedWrite, observed: CompletionRecord, session: SessionState)
    : LedgerResolveStatus
  {
    var work := expected.identity.work;
    if work !in contents then ResolveWorkNotFound
    else if !IsKnownOutcome(observed.outcome) then UnknownResult
    else if contents[work].outstandingRequests == 0 then NoOutstandingRequest
    else if contents[work].issuedRequest != expected then RequestMismatch
    else if observed.identity != expected.identity || !WorkCurrent(work, session) then CompletionRejected
    else Resolved
  }

  function ResolutionOf(
    contents: LedgerContents, expected: PlannedWrite, observed: CompletionRecord, session: SessionState)
    : LedgerResolution
  {
    var work := expected.identity.work;
    var status := ResolveStatus(contents, expected, observed, session);
    var decision :=
      if status.Resolved? then DecisionFor(contents[work].aggregate, expected, observed.outcome)
      else if !status.CompletionRejected? then NO_DECISION
      else RejectedDecision(if observed.identity != expected.identity then IdentityMismatch else StaleCompletion);
    var summary :=
      if status.ResolveWorkNotFound? then NO_SUMMARY
      else if status.Resolved? then Summarize(AfterResolve(contents[work], observed.outcome))
      else Summarize(contents[work]);
    LedgerResolution(status, decision, summary)
  }

  /** How far a request gets before something speaks against recording it. */
  lemma {:induction false} IssuedExactly(contents: LedgerContents, request: PlannedWrite)
    ensures var status, work := IssueStatus(contents, request), request.identity.work;
            var valid := && work.sourceToken != 0 && work.sessionGeneration != 0
                         && request.identity.requestSequence != 0
                         && (request.delivery.Tracked? || request.delivery.SilentOrdered?
                             || request.delivery.LatestState?);
            var known := valid && work in contents;
            var open := known && !contents[work].planningClosed;
            var free := open && contents[work].outstandingRequests == 0;
            var next := && free
                        && request.delivery == contents[work].aggregate.delivery
                        && request.identity.fragmentIndex == contents[work].nextIssuedFragment;
            var counted := next && (request.finalFragment || request.identity.fragmentIndex < 0xFFFF);
            && (status.InvalidRequest? <==> !valid)
            && (status.IssueWorkNotFound? <==> valid && !known)
            && (status.PlanningClosed? <==> known && !open)
            && (status.OutstandingRequestExists? <==> open && !free)
            && (status.IssueOutOfOrder? <==> free && !next)
            && (status.FragmentIndexOverflow? <==> next && !counted)
            && (status.Recorded? <==> counted)
  {}

  /** How far a result gets before the ledger turns it away, and what is said of its work. */
  lemma {:induction false} ResolvedExactly(
    contents: LedgerContents, expected: PlannedWrite, observed: CompletionRecord, session: SessionState)
    ensures var result, work := ResolutionOf(contents, expected, observed, session), expected.identity.work;
            var found := work in contents;
            var known := found && !observed.outcome.UnknownOutcome?;
            var owed := known && contents[work].outstandingRequests != 0;
            var same := owed && contents[work].issuedRequest == expected;
            var named := same && observed.identity == expected.identity;
            var current := named && WorkCurrent(work, session);
            && (result.status.ResolveWorkNotFound? <==> !found)
            && (result.status.UnknownResult? <==> found && !known)
            && (result.status.NoOutstandingRequest? <==> known && !owed)
            && (result.status.RequestMismatch? <==> owed && !same)
            && (result.status.CompletionRejected? <==> same && !current)
            && (result.status.Resolved? <==> current)
            && (result.decision.status.IdentityMismatch? <==> same && !named)
            && (result.decision.status.StaleCompletion? <==> named && !current)
            && (result.decision.status.Current? <==> current)
            && (found && !current ==> result.summary == Summarize(contents[work]))
            && (!current ==> result.decision.appliedAction.NoImageAction? && result.decision.notice.NoNotice?)
  {
    hide WorkCurrent, Summarize, AfterResolve;
  }

  function OccupiedCount(cells: seq<LedgerSlot>): (count: nat)
    ensures count <= |cells|
    decreases |cells|
  {
    if cells == [] then 0
    else OccupiedCount(cells[..|cells| - 1]) + (if cells[|cells| - 1].occupied then 1 else 0)
  }

  lemma {:induction false} CountAfterUpdate(cells: seq<LedgerSlot>, i: nat, slot: LedgerSlot)
    requires i < |cells|
    ensures OccupiedCount(cells[i := slot])
            == OccupiedCount(cells) + (if slot.occupied then 1 else 0) - (if cells[i].occupied then 1 else 0)
    decreases |cells|
  {
    var last := |cells| - 1;
    if i == last {
      assert cells[i := slot][..last] == cells[..last];
    } else {
      assert cells[i := slot][..last] == cells[..last][i := slot];
      CountAfterUpdate(cells[..last], i, slot);
    }
  }

  lemma {:induction false} CountAtExtremes(cells: seq<LedgerSlot>)
    ensures OccupiedCount(cells) == |cells| <==> forall i | 0 <= i < |cells| :: cells[i].occupied
    ensures OccupiedCount(cells) == 0 <==> forall i | 0 <= i < |cells| :: !cells[i].occupied
    decreases |cells|
  {
    if cells == [] {
    } else {
      var rest := cells[..|cells| - 1];
      CountAtExtremes(rest);
      assert forall i | 0 <= i < |rest| :: rest[i] == cells[i];
    }
  }

  // ----- slots as a finite map -----

  type Positions = map<WorkIdentity, nat>
  type Histories = map<WorkIdentity, seq<FragmentResult>>

  /** The work has its own cell, and its slot is coherent and true to the results it has had. */
  ghost predicate LiveAt(
    cells: seq<LedgerSlot>, contents: LedgerContents, position: Positions, history: Histories, work: WorkIdentity)
  {
    && work in contents && work in position && work in history
    && position[work] < |cells|
    && cells[position[work]] == contents[work]
    && contents[work].aggregate.work == work
    && SlotAgrees(contents[work])
    && Tells(contents[work], history[work])
  }

  /** The occupant of a cell, if any, is a live work that has this cell. */
  ghost predicate TenantAt(cells: seq<LedgerSlot>, contents: LedgerContents, position: Positions, i: int) {
    0 <= i < |cells| && cells[i].occupied ==>
      && cells[i].aggregate.work in contents
      && cells[i].aggregate.work in position
      && position[cells[i].aggregate.work] == i
  }

  /** `cells` hold exactly the live works of `contents`. */
  ghost predicate Refines(
    cells: seq<LedgerSlot>, contents: LedgerContents, position: Positions, history: Histories)
  {
    && contents.Keys == position.Keys == history.Keys
    && (forall work {:trigger LiveAt(cells, contents, position, history, work)} ::
          work in contents ==> LiveAt(cells, contents, position, history, work))
    && (forall i {:trigger TenantAt(cells, contents, position, i)} :: TenantAt(cells, contents, position, i))
    && OccupiedCount(cells) == |contents|
  }

  lemma {:induction false} EmptyRefines(cells: seq<LedgerSlot>)
    requires forall i | 0 <= i < |cells| :: !cells[i].occupied
    ensures Refines(cells, map[], map[], map[])
  {
    CountAtExtremes(cells);
  }

  lemma {:induction false} InsertRefines(
    cells: seq<LedgerSlot>, contents: LedgerContents, position: Positions, history: Histories,
    i: nat, work: WorkIdentity, delivery: IngressDelivery)
    requires Refines(cells, contents, position, history)
    requires i < |cells| && !cells[i].occupied && work !in contents && work.Valid() && IsAccepted(delivery)
    ensures var slot := NewSlot(work, delivery);
            Refines(cells[i := slot], contents[work := slot], position[work := i], history[work := []])
    ensures |contents[work := NewSlot(work, delivery)]| == |contents| + 1
  {
    hide SlotAgrees, Tells, OccupiedCount;
    var slot := NewSlot(work, delivery);
    NewSlotAgrees(work, delivery);
    CountAfterUpdate(cells, i, slot);
    var cells', contents', position', history' :=
      cells[i := slot], contents[work := slot], position[work := i], history[work := []];
    forall w | w in contents'
      ensures LiveAt(cells', contents', position', history', w)
    {
      if w != work {
        ScanFinds(cells, contents, position, history, w);
      }
    }
    forall k
      ensures TenantAt(cells', contents', position', k)
    {
      assert TenantAt(cells, contents, position, k);
    }
  }

  lemma {:induction false} RewriteKeepsOthers(
    cells: seq<LedgerSlot>, contents: LedgerContents, position: Positions, history: Histories,
    work: WorkIdentity, slot: LedgerSlot, results: seq<FragmentResult>, w: WorkIdentity)
    requires LiveAt(cells, contents, position, history, work) && LiveAt(cells, contents, position, history, w)
    requires SlotAgrees(slot) && Tells(slot, results) && slot.aggregate.work == work
    ensures LiveAt(cells[position[work] := slot], contents[work := slot], position, history[work := results], w)
  {
    hide SlotAgrees, Tells;
  }

  lemma {:induction false} AgreesIsOccupied(slot: LedgerSlot)
    requires SlotAgrees(slot)
    ensures slot.occupied
  {}

  lemma {:induction false} SameDomain<V>(m: map<WorkIdentity, V>, work: WorkIdentity, value: V)
    requires work in m
    ensures m[work := value].Keys == m.Keys && |m[work := value]| == |m|
  {
    assert m[work := value].Keys == m.Keys;
  }

  lemma {:induction false} RewriteRefines(
    cells: seq<LedgerSlot>, contents: LedgerContents, position: Positions, history: Histories,
    work: WorkIdentity, slot: LedgerSlot, results: seq<FragmentResult>)
    requires Refines(cells, contents, position, history) && work in contents
    requires SlotAgrees(slot) && Tells(slot, results) && slot.aggregate.work == work
    ensures work in position && position[work] < |cells|
    ensures Refines(cells[position[work] := slot], contents[work := slot], position, history[work := results])
    ensures |contents[work := slot]| == |contents|
  {
    hide SlotAgrees, Tells, OccupiedCount;
    ScanFinds(cells, contents, position, history, work);
    AgreesIsOccupied(slot);
    CountAfterUpdate(cells, position[work], slot);
    SameDomain(contents, work, slot);
    SameDomain(history, work, results);
    var cells', contents', history' := cells[position[work] := slot], contents[work := slot], history[work := results];
    forall k
      ensures TenantAt(cells', contents', position, k)
    {
      assert TenantAt(cells, contents, position, k);
    }
    forall w | w in contents'
      ensures LiveAt(cells', contents', position, history', w)
    {
      assert w in contents;
      assert LiveAt(cells, contents, position, history, w);
      RewriteKeepsOthers(cells, contents, position, history, work, slot, results, w);
    }
  }

  lemma {:induction false} RemoveRefines(
    cells: seq<LedgerSlot>, contents: LedgerContents, position: Positions, history: Histories, work: WorkIdentity)
    requires Refines(cells, contents, position, history) && work in contents
    ensures work in position && position[work] < |cells|
    ensures Refines(cells[position[work] := FREE_SLOT], contents - {work}, position - {work}, history - {work})
    ensures |contents - {work}| == |contents| - 1
  {
    hide SlotAgrees, Tells, OccupiedCount;
    ScanFinds(cells, contents, position, history, work);
    CountAfterUpdate(cells, position[work], FREE_SLOT);
    var cells', contents', position', history' :=
      cells[position[work] := FREE_SLOT], contents - {work}, position - {work}, history - {work};
    assert contents.Keys == contents'.Keys + {work};
    forall w | w in contents'
      ensures LiveAt(cells', contents', position', history', w)
    {
      assert LiveAt(cells, contents, position, history, w);
    }
    forall k
      ensures TenantAt(cells', contents', position', k)
    {
      assert TenantAt(cells, contents, position, k);
    }
  }

  /** The cell of a live work is the one a linear scan for its identity finds. */
  lemma {:induction false} ScanFinds(
    cells: seq<LedgerSlot>, contents: LedgerContents, position: Positions, history: Histories, work: WorkIdentity)
    requires Refines(cells, contents, position, history)
    ensures work in contents ==>
              && work.Valid()
              && LiveAt(cells, contents, position, history, work)
              && cells[position[work]].occupied
  {
    assert work in contents ==> LiveAt(cells, contents, position, history, work);
  }

  lemma {:induction false} OccupantIsLive(
    cells: seq<LedgerSlot>, contents: LedgerContents, position: Positions, history: Histories, i: nat)
    requires Refines(cells, contents, position, history) && i < |cells| && cells[i].occupied
    ensures var work := cells[i].aggregate.work;
            && LiveAt(cells, contents, position, history, work)
            && position[work] == i
            && contents[work] == cells[i]
  {
    assert TenantAt(cells, contents, position, i);
    assert LiveAt(cells, contents, position, history, cells[i].aggregate.work);
  }

  lemma {:induction false} RoomLeft(
    cells: seq<LedgerSlot>, contents: LedgerContents, position: Positions, history: Histories)
    requires Refines(cells, contents, position, history)
    ensures |contents| < |cells| <==> exists i | 0 <= i < |cells| :: !cells[i].occupied
    ensures |contents| <= |cells|
  {
    CountAtExtremes(cells);
  }

  lemma {:induction false} SameKeys(
    cells: seq<LedgerSlot>, contents: LedgerContents, position: Positions, history: Histories)
    requires Refines(cells, contents, position, history)
    ensures contents.Keys == position.Keys == history.Keys
    ensures cells == [] ==> contents == map[]
  {}

  /** The array with its linear scans refines a finite map from identities to slots; `history` keeps
      the results that each live work has had. */
  class Ledger {
    const slots: array<LedgerSlot>
    const present: bool
    const capacity: u16
    var size: u16
    ghost var contents: LedgerContents
    ghost var position: Positions
    ghost var history: Histories

    predicate ValidStorage() {
      capacity == 0 || present
    }

    ghost function Cells(): seq<LedgerSlot>
      reads slots
    {
      if present then slots[..] else []
    }

    ghost predicate Valid()
      reads this, slots
    {
      && (present ==> slots.Length == capacity)
      && Refines(Cells(), contents, position, history)
      && size == |contents|
    }

    constructor (slots: array<LedgerSlot>, present: bool, capacity: u16)
      requires present ==> slots.Length == capacity
      modifies slots
      ensures Valid() && contents == map[]
      ensures this.slots == slots && this.present == present && this.capacity == capacity
    {
      this.slots := slots;
      this.present := present;
      this.capacity := capacity;
      this.size := 0;
      this.contents := map[];
      this.position := map[];
      this.history := map[];
      new;
      Clear();
    }

    /** Everything is forgotten. */
    method Clear()
      requires present ==> slots.Length == capacity
      modifies this, slots
      ensures Valid() && contents == map[]
    {
      size := 0;
      contents, position, history := map[], map[], map[];
      if present {
        for i := 0 to capacity
          invariant size == 0 && contents == map[] && position == map[] && history == map[]
          invariant forall k | 0 <= k < i :: slots[k] == FREE_SLOT
        {
          slots[i] := FREE_SLOT;
        }
      }
      EmptyRefines(Cells());
    }

    method FirstFree() returns (index: Option<u16>)
      requires Valid()
      ensures index.Some? <==> |contents| < |Cells()|
      ensures index.Some? ==> present && index.value < capacity && !slots[index.value].occupied
    {
      hide Refines;
      RoomLeft(Cells(), contents, position, history);
      if !present {
        return None;
      }
      for i := 0 to capacity
        invariant forall k | 0 <= k < i :: slots[k].occupied
      {
        if !slots[i].occupied {
          assert !Cells()[i].occupied;
          return Some(i);
        }
      }
      return None;
    }

    method Find(work: WorkIdentity) returns (index: Option<u16>)
      requires Valid()
      ensures index.Some? <==> work in contents
      ensures work in contents ==>
                && present
                && work.Valid()
                && work in position && work in history
                && index.value < capacity
                && index.value == position[work]
                && slots[index.value] == contents[work]
                && contents[work].aggregate.work == work
                && SlotAgrees(contents[work])
                && Tells(contents[work], history[work])
    {
      hide Refines, SlotAgrees, Tells;
      ScanFinds(Cells(), contents, position, history, work);
      if !present || !work.Valid() {
        return None;
      }
      for i := 0 to capacity
        invariant forall k | 0 <= k < i :: !(slots[k].occupied && slots[k].aggregate.work == work)
      {
        if slots[i].occupied && slots[i].aggregate.work == work {
          OccupantIsLive(Cells(), contents, position, history, i);
          return Some(i);
        }
      }
      return None;
    }

    method Reserve(work: WorkIdentity, delivery: IngressDelivery) returns (status: LedgerReserveStatus)
      requires Valid()
      modifies this, slots
      ensures Valid()
      ensures status == if !ValidStorage() then InvalidLedgerStorage
                        else if !work.Valid() || !IsAccepted(delivery) then InvalidLedgerWork
                        else if work in old(contents) then DuplicateWork
                        else if |old(contents)| == capacity then LedgerFull
                        else Reserved
      ensures contents == if status.Reserved? then old(contents)[work := NewSlot(work, delivery)] else old(contents)
      ensures history == if status.Reserved? then old(history)[work := []] else old(history)
    {
      hide Refines, SlotAgrees, Tells;
      if !ValidStorage() {
        return InvalidLedgerStorage;
      }
      if !work.Valid() || !IsAccepted(delivery) {
        return InvalidLedgerWork;
      }
      var found := Find(work);
      if found.Some? {
        return DuplicateWork;
      }
      RoomLeft(Cells(), contents, position, history);
      var free := FirstFree();
      if free.None? {
        return LedgerFull;
      }
      ghost var before := Cells();
      InsertRefines(before, contents, position, history, free.value, work, delivery);
      slots[free.value] := FREE_SLOT;
      slots[free.value] := slots[free.value].(aggregate := NewAggregate(work, delivery));
      slots[free.value] := slots[free.value].(occupied := true);
      size := size + 1;
      contents := contents[work := NewSlot(work, delivery)];
      position := position[work := free.value];
      history := history[work := []];
      assert Cells() == before[free.value := NewSlot(work, delivery)];
      return Reserved;
    }

    method RecordIssued(request: PlannedWrite) returns (status: LedgerIssueStatus)
      requires Valid()
      modifies this, slots
      ensures Valid()
      ensures status == IssueStatus(old(contents), request)
      ensures contents
              == if status.Recorded? then
                   old(contents)[request.identity.work := AfterIssue(old(contents)[request.identity.work], request)]
                 else old(contents)
      ensures history == old(history)
    {
      hide Refines, SlotAgrees, Tells;
      if !request.identity.Valid() || !IsAccepted(request.delivery) {
        return InvalidRequest;
      }
      var work := request.identity.work;
      var found := Find(work);
      if found.None? {
        return IssueWorkNotFound;
      }
      var i := found.value;
      if slots[i].planningClosed {
        return PlanningClosed;
      }
      if slots[i].outstandingRequests != 0 {
        return OutstandingRequestExists;
      }
      if request.delivery != slots[i].aggregate.delivery
         || request.identity.fragmentIndex != slots[i].nextIssuedFragment {
        return IssueOutOfOrder;
      }
      if slots[i].nextIssuedFragment == 0xFFFF && !request.finalFragment {
        return FragmentIndexOverflow;
      }
      ghost var before, slot := Cells(), slots[i];
      IssueAgrees(slot, request, history[work]);
      RewriteRefines(before, contents, position, history, work, AfterIssue(slot, request), history[work]);
      assert history[work := history[work]] == history;
      slots[i] := slots[i].(issuedRequest := request);
      slots[i] := slots[i].(outstandingRequests := 1);
      if request.finalFragment {
        slots[i] := slots[i].(planningClosed := true);
      } else {
        slots[i] := slots[i].(nextIssuedFragment := slots[i].nextIssuedFragment + 1);
      }
      contents := contents[work := AfterIssue(slot, request)];
      assert Cells() == before[i := AfterIssue(slot, request)];
      return Recorded;
    }

    method ClosePlanningAfterFailure(work: WorkIdentity) returns (ok: bool)
      requires Valid()
      modifies this, slots
      ensures Valid()
      ensures ok <==> work in old(contents) && IsFailure(old(contents)[work].observedOutcome)
      ensures contents == if ok then old(contents)[work := AfterClose(old(contents)[work])] else old(contents)
      ensures history == old(history)
    {
      hide Refines, SlotAgrees, Tells;
      var found := Find(work);
      if found.None? {
        return false;
      }
      var i := found.value;
      if slots[i].observedOutcome == Pending || slots[i].observedOutcome == WorkApplied {
        return false;
      }
      ghost var before, slot := Cells(), slots[i];
      CloseAgrees(slot, history[work]);
      RewriteRefines(before, contents, position, history, work, AfterClose(slot), history[work]);
      assert history[work := history[work]] == history;
      slots[i] := slots[i].(planningClosed := true);
      contents := contents[work := AfterClose(slot)];
      assert Cells() == before[i := AfterClose(slot)];
      return true;
    }

    /** Resolving the exact request in flight, with its own identity and a known outcome, succeeds if
        and only if the session is current; no other rejection can arise. */
    method Resolve(expected: PlannedWrite, observed: CompletionRecord, session: SessionState)
      returns (result: LedgerResolution)
      requires Valid()
      modifies this, slots
      ensures Valid()
      ensures result == ResolutionOf(old(contents), expected, observed, session)
      ensures var work := expected.identity.work;
              if result.status.Resolved? then
                && contents == old(contents)[work := AfterResolve(old(contents)[work], observed.outcome)]
                && work in old(history)
                && history == old(history)[work := old(history)[work] + [FragmentResult(expected, observed.outcome)]]
              else contents == old(contents) && history == old(history)
      ensures result.status.Resolved? ==> SummaryTells(result.summary, history[expected.identity.work])
    {
      hide Refines, SlotAgrees, Tells, SummaryTells;
      result := LedgerResolution(ResolveWorkNotFound, NO_DECISION, NO_SUMMARY);
      var work := expected.identity.work;
      var found := Find(work);
      if found.None? {
        return;
      }
      var i := found.value;
      result := result.(summary := Summarize(slots[i]));
      if !IsKnownOutcome(observed.outcome) {
        return result.(status := UnknownResult);
      }
      if slots[i].outstandingRequests == 0 {
        return result.(status := NoOutstandingRequest);
      }
      if slots[i].issuedRequest != expected {
        return result.(status := RequestMismatch);
      }
      ghost var before, slot := Cells(), slots[i];
      OutstandingIsOne(slot);
      OutstandingVerdict(slot, observed, session);
      var decision, aggregate := ResolveCompletion(slots[i].issuedRequest, observed, session, slots[i].aggregate);
      result := result.(decision := decision);
      if decision.status != Current {
        return result.(status := CompletionRejected);
      }
      ghost var resolved, results := AfterResolve(slot, observed.outcome), history[work] + [FragmentResult(expected,
          observed.outcome)];
      ResolveAgrees(slot, observed.outcome, history[work]);
      RewriteRefines(before, contents, position, history, work, resolved, results);
      slots[i] := slots[i].(aggregate := aggregate);
      slots[i] := slots[i].(observedOutcome := CombineWorkOutcomes(slots[i].observedOutcome, observed.outcome));
      slots[i] := slots[i].(outstandingRequests := 0);
      slots[i] := slots[i].(issuedRequest := NO_WRITE);
      result := result.(status := Resolved, summary := Summarize(slots[i]));
      SummaryExactly(resolved, results);
      contents := contents[work := resolved];
      history := history[work := results];
      assert Cells() == before[i := resolved];
    }

    method Summary(work: WorkIdentity) returns (found: bool, summary: WorkCompletionSummary)
      requires Valid()
      ensures found <==> work in contents
      ensures summary == if found then Summarize(contents[work]) else NO_SUMMARY
      ensures found ==> work in history && SummaryTells(summary, history[work])
    {
      hide Refines, SlotAgrees, Tells, SummaryTells;
      var index := Find(work);
      if index.None? {
        return false, NO_SUMMARY;
      }
      SummaryExactly(contents[work], history[work]);
      return true, Summarize(slots[index.value]);
    }

    method ReleaseSlot(index: u16, ghost work: WorkIdentity)
      requires Valid() && work in contents && work in position && present && index < capacity && position[work] == index
      modifies this, slots
      ensures Valid()
      ensures contents == old(contents) - {work} && history == old(history) - {work}
      ensures |contents| == |old(contents)| - 1
      ensures slots[..] == old(slots[..])[index := FREE_SLOT]
    {
      hide Refines;
      RemoveRefines(Cells(), contents, position, history, work);
      slots[index] := FREE_SLOT;
      size := size - 1;
      contents := contents - {work};
      position := position - {work};
      history := history - {work};
    }

    method Release(work: WorkIdentity) returns (status: LedgerReleaseStatus)
      requires Valid()
      modifies this, slots
      ensures Valid()
      ensures status == if work !in old(contents) then ReleaseWorkNotFound
                        else if Summarize(old(contents)[work]).drained then Released else StillActive
      ensures contents == if status.Released? then old(contents) - {work} else old(contents)
      ensures history == if status.Released? then old(history) - {work} else old(history)
    {
      hide Refines, SlotAgrees, Tells;
      var found := Find(work);
      if found.None? {
        return ReleaseWorkNotFound;
      }
      if !Summarize(slots[found.value]).drained {
        return StillActive;
      }
      ReleaseSlot(found.value, work);
      return Released;
    }

    method Abandon(work: WorkIdentity) returns (ok: bool)
      requires Valid()
      modifies this, slots
      ensures Valid()
      ensures ok <==> work in old(contents)
      ensures contents == old(contents) - {work} && history == old(history) - {work}
    {
      SameKeys(Cells(), contents, position, history);
      hide Refines, SlotAgrees, Tells;
      var found := Find(work);
      if found.None? {
        return false;
      }
      ReleaseSlot(found.value, work);
      return true;
    }

    /** Drop every work of one session generation. */
    method AbandonGeneration(generation: u16) returns (removed: u16)
      requires Valid()
      modifies this, slots
      ensures Valid()
      ensures forall work :: work in contents
                <==> work in old(contents) && !(generation != 0 && work.sessionGeneration == generation)
      ensures forall work | work in contents :: contents[work] == old(contents)[work]
      ensures removed == |old(contents)| - |contents|
    {
      hide Refines, SlotAgrees, Tells, OccupiedCount, WorkCurrent;
      removed := 0;
      if !present || generation == 0 {
        SameKeys(Cells(), contents, position, history);
        return;
      }
      for i := 0 to capacity
        invariant Valid()
        invariant removed == |old(contents)| - |contents|
        invariant forall work | work in contents :: work in old(contents) && contents[work] == old(contents)[work]
        invariant forall work | work in old(contents) && work !in contents :: work.sessionGeneration == generation
        invariant forall k | 0 <= k < i && slots[k].occupied :: slots[k].aggregate.work.sessionGeneration != generation
      {
        if slots[i].occupied && slots[i].aggregate.work.sessionGeneration == generation {
          OccupantIsLive(Cells(), contents, position, history, i);
          ReleaseSlot(i, slots[i].aggregate.work);
          removed := removed + 1;
        }
      }
      forall work | work in contents
        ensures work.sessionGeneration != generation
      {
        ScanFinds(Cells(), contents, position, history, work);
        assert slots[position[work]].occupied;
      }
    }

    /** Drop every work that can never complete under this session. */
    method AbandonNotCurrent(session: SessionState) returns (removed: u16)
      requires Valid()
      modifies this, slots
      ensures Valid()
      ensures forall work :: work in contents <==> work in old(contents) && WorkCurrent(work, session)
      ensures forall work | work in contents :: contents[work] == old(contents)[work]
      ensures removed == |old(contents)| - |contents|
    {
      hide Refines, SlotAgrees, Tells, OccupiedCount, WorkCurrent;
      removed := 0;
      if !present {
        SameKeys(Cells(), contents, position, history);
        return;
      }
      for i := 0 to capacity
        invariant Valid()
        invariant removed == |old(contents)| - |contents|
        invariant forall work | work in contents :: work in old(contents) && contents[work] == old(contents)[work]
        invariant forall work | work in old(contents) && work !in contents :: !WorkCurrent(work, session)
        invariant forall k | 0 <= k < i && slots[k].occupied :: WorkCurrent(slots[k].aggregate.work, session)
      {
        if slots[i].occupied && !WorkCurrent(slots[i].aggregate.work, session) {
          OccupantIsLive(Cells(), contents, position, history, i);
          ReleaseSlot(i, slots[i].aggregate.work);
          removed := removed + 1;
        }
      }
      forall work | work in contents
        ensures WorkCurrent(work, session)
      {
        ScanFinds(Cells(), contents, position, history, work);
        assert slots[position[work]].occupied;
      }
    }
  }

  lemma {:induction false} OutstandingIsOne(slot: LedgerSlot)
    requires SlotAgrees(slot) && slot.outstandingRequests != 0
    ensures slot.outstandingRequests == 1
  {}
}
