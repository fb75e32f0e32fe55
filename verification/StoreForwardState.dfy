/** The store-forward engine as a state machine on values: what each call returns, the state after
    it, and the invariant that ties the queue, the ledger and the action in flight together. */
module StoreForwardState {
  import opened Words
  import opened IngressWork
  import opened RouteTable
  import opened DownstreamExecutor
  import opened ForwardPlan
  import opened ForwardMeaning
  import opened CompletionTransition
  import opened CompletionLedger
  import opened PollPlanner

  // ----- records -----

  datatype RawWorkSlot = RawWorkSlot(
    kind: ValueKind,
    workIdentity: WorkIdentity,
    upstreamStart: u16,
    quantity: u16,
    workDelivery: IngressDelivery,
    snapshot: Buffer,
    nextAddress: u16,
    remaining: u16,
    sourceOffset: u16,
    fragmentIndex: u16,
    active: bool,
    userContext: Handle)

  type WorkSlot = s: RawWorkSlot | s.snapshot.Buffer? ==> s.quantity <= |s.snapshot.values|
    witness RawWorkSlot(CoilValues, NO_WORK, 0, 0, Rejected, Null, 0, 0, 0, 0, false, NULL_HANDLE)

  /** One queue record holds a work of either kind together with its forward cursor. */
  function PackWork(work: IngressWork, cursor: ForwardCursor, context: Handle): WorkSlot
    requires work.snapshot.data.Buffer? ==> work.count <= |work.snapshot.data.values|
  {
    RawWorkSlot(
      work.kind, work.identity, work.start, work.count, work.delivery, work.snapshot.data,
      cursor.nextAddress, cursor.remaining, cursor.sourceOffset, cursor.fragmentIndex, cursor.active, context)
  }

  function SlotWork(slot: WorkSlot): IngressWork {
    IngressWork(slot.kind, slot.workIdentity, slot.upstreamStart, slot.quantity, slot.workDelivery,
                RawSnapshot(slot.snapshot, slot.quantity))
  }

  function AsCursor(slot: WorkSlot): ForwardCursor {
    ForwardCursor(
      SlotWork(slot), slot.nextAddress, slot.remaining, slot.sourceOffset, slot.fragmentIndex, slot.active)
  }

  function UpdateFrom(slot: WorkSlot, cursor: ForwardCursor): WorkSlot {
    slot.(nextAddress := cursor.nextAddress, remaining := cursor.remaining, sourceOffset := cursor.sourceOffset,
          fragmentIndex := cursor.fragmentIndex, active := cursor.active)
  }

  /** Packing loses nothing: a slot gives back its work and whatever cursor was last put into it. */
  lemma {:induction false} PackRoundTrip(work: IngressWork, cursor: ForwardCursor, later: ForwardCursor,
      context: Handle)
    requires work.snapshot.count == work.count && cursor.work == work && later.work == work
    ensures var slot := PackWork(work, cursor, context);
            && AsCursor(slot) == cursor
            && AsCursor(UpdateFrom(slot, later)) == later
            && slot.userContext == context
  {}

  datatype StoreForwardAction = StoreForwardAction(
    kind: ScheduledActionKind,
    proposalRevision: u32,
    sequence: u32,
    write: PlannedWrite,
    downstream: DownstreamRequest,
    scheduling: PollSelection,
    pollCount: u16,
    selectedAt: u32,
    requiresCompletion: bool,
    workContext: Handle)

  const NO_BRIDGE_ACTION: StoreForwardAction :=
    StoreForwardAction(NoAction, 0, 0, NO_WRITE, NO_REQUEST, NO_SELECTION, 0, 0, false, NULL_HANDLE)

  datatype AdmitStatus = WorkAdmitted | AdmitStorageInvalid | QueueFull | PlanRejected | AdmitLedgerRejected

  datatype StoreForwardAdmission =
    StoreForwardAdmission(status: AdmitStatus, planStatus: ForwardPlanStatus, ledgerStatus: LedgerReserveStatus)

  datatype NextActionStatus =
    | ActionReady | NothingToDo | PreviewActionInFlight | PreviewStorageInvalid | PreviewPollStorageInvalid
    | InvalidPollRequest | StaleWork | PlanningFailed

  datatype ActionAdmitStatus =
    | ActionAdmitted | Consumed | AdmitActionInFlight | InvalidAction | StaleProposal | ActionLedgerRejected
    | FairnessRejected

  datatype CompleteStatus =
    | Completed | NoActionInFlight | ActionMismatch | CompleteOutcomeInvalid | CompleteLedgerRejected
    | CompleteStaleSession

  datatype StoreForwardCompletion = StoreForwardCompletion(
    status: CompleteStatus,
    kind: ScheduledActionKind,
    outcome: DownstreamOutcome,
    decision: CompletionDecision,
    work: WorkCompletionSummary,
    workRetired: bool,
    workContext: Handle)

  datatype RetireStatus = Retired | RetireEmpty | RetireActionInFlight | WorkStillCurrent

  datatype StoreForwardRetirement = StoreForwardRetirement(work: WorkIdentity, kind: ValueKind, userContext: Handle)

  const NO_RETIREMENT := StoreForwardRetirement(NO_WORK, CoilValues, NULL_HANDLE)

  /** What a bridge is built from. */
  datatype Config = Config(
    planner: ForwardPlanner,
    pollOptions: PollPlannerOptions,
    queueCapacity: u16,
    ledgerCapacity: u16,
    storage: bool)

  datatype BridgeState = BridgeState(
    queue: seq<WorkSlot>,
    ledger: LedgerContents,
    poll: PollPlannerState,
    requestSequence: u32,
    revision: u32,
    inFlight: Option<StoreForwardAction>)

  const INITIAL_STATE := BridgeState([], map[], INITIAL_POLL_STATE, 0, 1, None)

  // ----- the calls -----

  ghost function AdmitWorkResult(cfg: Config, s: BridgeState, work: IngressWork, session: SessionState)
    : (result: StoreForwardAdmission)
    ensures result.status.WorkAdmitted? ==> work.snapshot.data.Buffer? && work.count == work.snapshot.count
  {
    var plan := if WorkCurrent(work.identity, session) then BeginStatus(cfg.planner, work) else StaleSession;
    var reserved := if work.identity in s.ledger then DuplicateWork
                    else if |s.ledger| == cfg.ledgerCapacity then LedgerFull else Reserved;
    if !cfg.storage then StoreForwardAdmission(AdmitStorageInvalid, InvalidWork, InvalidLedgerWork)
    else if |s.queue| == cfg.queueCapacity then StoreForwardAdmission(QueueFull, InvalidWork, InvalidLedgerWork)
    else if !plan.Ready? then StoreForwardAdmission(PlanRejected, plan, InvalidLedgerWork)
    else if !reserved.Reserved? then StoreForwardAdmission(AdmitLedgerRejected, Ready, reserved)
    else StoreForwardAdmission(WorkAdmitted, Ready, Reserved)
  }

  function AfterAdmitWork(s: BridgeState, work: IngressWork, context: Handle): BridgeState
    requires work.snapshot.data.Buffer? ==> work.count <= |work.snapshot.data.values|
  {
    s.(queue := s.queue + [PackWork(work, StartCursor(work), context)],
       ledger := s.ledger[work.identity := NewSlot(work.identity, work.delivery)],
       revision := NextNonZeroSequence32(s.revision))
  }

  datatype Proposal = Proposal(status: NextActionStatus, action: StoreForwardAction, cursor: ForwardCursor)

  function NoProposal(status: NextActionStatus): Proposal {
    Proposal(status, NO_BRIDGE_ACTION, IDLE_CURSOR)
  }

  /** The next action, without any effect. */
  ghost function Preview(
    cfg: Config, s: BridgeState, session: SessionState, now: u32, polls: PollSet, writeContext: Handle): Proposal
  {
    var (selected, selection) := Choice(cfg.pollOptions, now, s.queue != [], polls, s.poll);
    var sequence := NextNonZeroSequence32(s.requestSequence);
    var count := |polls.candidates|;
    var action := StoreForwardAction(
      selection.kind, s.revision, 0, NO_WRITE, NO_REQUEST, selection, count, now, false, NULL_HANDLE);
    if !cfg.storage then NoProposal(PreviewStorageInvalid)
    else if s.inFlight.Some? then NoProposal(PreviewActionInFlight)
    else if s.queue != [] && !WorkCurrent(s.queue[0].workIdentity, session) then NoProposal(StaleWork)
    else if selected.InvalidPollStorage? then NoProposal(PreviewPollStorageInvalid)
    else if selected.NothingSelected? then NoProposal(NothingToDo)
    else if selection.kind.Poll? && selection.pollIndex < count then
      var candidate := polls.candidates[selection.pollIndex];
      var request := candidate.request.(sequence := sequence);
      if !candidate.requiresDispatch then Proposal(ActionReady, action, IDLE_CURSOR)
      else if !IsPollOperation(request.operation) || !ValidateDownstreamRequest(request).ValidRequest? then
        NoProposal(InvalidPollRequest)
      else Proposal(ActionReady, action.(sequence := sequence, downstream := request, requiresCompletion := true),
          IDLE_CURSOR)
    else if s.queue != [] && Plannable(cfg.planner, AsCursor(s.queue[0])) then
      var write := FragmentAt(cfg.planner, AsCursor(s.queue[0]), sequence);
      Proposal(ActionReady,
               action.(sequence := sequence, write := write, downstream := DownstreamRequestFor(write, writeContext),
                       requiresCompletion := true, workContext := s.queue[0].userContext),
               CursorAfterFragment(cfg.planner, AsCursor(s.queue[0])))
    else NoProposal(PlanningFailed)
  }

  ghost function RePreview(cfg: Config, s: BridgeState, action: StoreForwardAction, session: SessionState,
      polls: PollSet)
    : Proposal
  {
    Preview(cfg, s, session, action.selectedAt, polls, action.downstream.consistencyContext)
  }

  /** Admission accepts exactly the action that a preview would return now. */
  ghost predicate IsCurrentProposal(
    cfg: Config, s: BridgeState, action: StoreForwardAction, session: SessionState, polls: PollSet)
  {
    var proposal := RePreview(cfg, s, action, session, polls);
    proposal.status.ActionReady? && proposal.action == action
  }

  ghost function AdmitActionStatusOf(
    cfg: Config, s: BridgeState, action: StoreForwardAction, session: SessionState, polls: PollSet): ActionAdmitStatus
  {
    if s.inFlight.Some? then AdmitActionInFlight
    else if action.kind.NoAction? then InvalidAction
    else if !IsCurrentProposal(cfg, s, action, session, polls) then StaleProposal
    else if action.requiresCompletion then ActionAdmitted
    else Consumed
  }

  function PollAfter(s: BridgeState, action: StoreForwardAction): PollPlannerState {
    match Committed(action.scheduling, action.pollCount, action.selectedAt, s.poll)
    case Some(next) => next
    case None => s.poll
  }

  /** The state after an accepted action; a forward write moves the front cursor to `cursor`. */
  function AfterAdmitAction(s: BridgeState, action: StoreForwardAction, cursor: ForwardCursor): BridgeState {
    var moved := s.(poll := PollAfter(s, action), revision := NextNonZeroSequence32(s.revision));
    var work := action.write.identity.work;
    if !action.requiresCompletion then moved
    else if !action.kind.ForwardWrite? || s.queue == [] || work !in s.ledger then
      moved.(requestSequence := action.sequence, inFlight := Some(action))
    else
      moved.(requestSequence := action.sequence, inFlight := Some(action),
             queue := s.queue[0 := UpdateFrom(s.queue[0], cursor)],
             ledger := s.ledger[work := AfterIssue(s.ledger[work], action.write)])
  }

  function WithoutFront(s: BridgeState): BridgeState {
    if s.queue == [] then s
    else s.(queue := s.queue[1..], ledger := s.ledger - {s.queue[0].workIdentity})
  }

  /** The slot of the work in flight after its fragment ended; a failure also closes its planning. */
  function SlotAfterCompletion(slot: LedgerSlot, outcome: DownstreamOutcome): LedgerSlot {
    var resolved := AfterResolve(slot, outcome);
    if outcome == Applied then resolved else AfterClose(resolved)
  }

  function CompleteStatusOf(
    s: BridgeState, action: StoreForwardAction, outcome: DownstreamOutcome, session: SessionState): CompleteStatus
  {
    if s.inFlight.None? then NoActionInFlight
    else if action != s.inFlight.value then ActionMismatch
    else if !IsKnownOutcome(outcome) then CompleteOutcomeInvalid
    else if action.kind.ForwardWrite? && !WorkCurrent(action.write.identity.work, session) then CompleteStaleSession
    else Completed
  }

  function CompleteResult(
    s: BridgeState, action: StoreForwardAction, outcome: DownstreamOutcome,
        session: SessionState): StoreForwardCompletion
  {
    var status := CompleteStatusOf(s, action, outcome, session);
    var held := if s.inFlight.Some? then s.inFlight.value else action;
    var result := StoreForwardCompletion(
      status, held.kind, outcome, NO_DECISION, NO_SUMMARY, false,
      if s.inFlight.Some? then held.workContext else NULL_HANDLE);
    var work := action.write.identity.work;
    if !action.kind.ForwardWrite? || work !in s.ledger then result
    else if status.CompleteStaleSession? then
      result.(decision := RejectedDecision(StaleCompletion), work := Summarize(s.ledger[work]), workRetired := true)
    else if status.Completed? then
      var slot := SlotAfterCompletion(s.ledger[work], outcome);
      result.(decision := DecisionFor(s.ledger[work].aggregate, action.write, outcome),
              work := Summarize(slot),
              workRetired := Summarize(slot).drained)
    else result
  }

  function AfterComplete(
    s: BridgeState, action: StoreForwardAction, outcome: DownstreamOutcome, session: SessionState): BridgeState
  {
    var status := CompleteStatusOf(s, action, outcome, session);
    var idle := s.(inFlight := None, revision := NextNonZeroSequence32(s.revision));
    var work := action.write.identity.work;
    if !status.Completed? && !status.CompleteStaleSession? then s
    else if !action.kind.ForwardWrite? || work !in s.ledger then idle
    else if CompleteResult(s, action, outcome, session).workRetired then WithoutFront(idle)
    else idle.(ledger := s.ledger[work := SlotAfterCompletion(s.ledger[work], outcome)])
  }

  function DiscardStatus(s: BridgeState, session: SessionState): RetireStatus {
    if s.inFlight.Some? then RetireActionInFlight
    else if s.queue == [] then RetireEmpty
    else if WorkCurrent(s.queue[0].workIdentity, session) then WorkStillCurrent
    else Retired
  }

  function AbandonStatus(s: BridgeState): RetireStatus {
    if s.inFlight.Some? then RetireActionInFlight else if s.queue == [] then RetireEmpty else Retired
  }

  function RetirementOf(s: BridgeState, status: RetireStatus): StoreForwardRetirement {
    if !status.Retired? || s.queue == [] then NO_RETIREMENT
    else StoreForwardRetirement(s.queue[0].workIdentity, s.queue[0].kind, s.queue[0].userContext)
  }

  function AfterRetire(s: BridgeState, status: RetireStatus): BridgeState {
    if status.Retired? then WithoutFront(s).(revision := NextNonZeroSequence32(s.revision)) else s
  }

  function AfterReset(s: BridgeState): BridgeState {
    if s.inFlight.Some? then s
    else s.(queue := [], ledger := map[], poll := INITIAL_POLL_STATE, revision := NextNonZeroSequence32(s.revision))
  }

  // ----- the invariant -----

  function WriteInFlight(s: BridgeState): Option<PlannedWrite> {
    if s.inFlight.Some? && s.inFlight.value.kind.ForwardWrite? then Some(s.inFlight.value.write) else None
  }

  /** How a queued work agrees with its ledger slot. `waiting` works have not started; `issued` is the
      work's write in flight, if it has one. */
  ghost predicate EntryAgrees(
    planner: ForwardPlanner, slot: WorkSlot, record: LedgerSlot, waiting: bool, issued: Option<PlannedWrite>)
  {
    && OnPlan(planner, AsCursor(slot))
    && record.aggregate.work == slot.workIdentity
    && record.aggregate.delivery == slot.workDelivery
    && SlotAgrees(record)
    && !record.aggregate.failed
    && (waiting ==>
          AsCursor(slot) == StartCursor(SlotWork(slot)) && record == NewSlot(slot.workIdentity, slot.workDelivery))
    && match issued
       case None =>
         && record.outstandingRequests == 0
         && !record.planningClosed
         && slot.active
         && slot.fragmentIndex == record.nextIssuedFragment
       case Some(write) =>
         && record.outstandingRequests == 1
         && record.issuedRequest == write
         && (slot.active <==> !write.finalFragment)
         && (record.planningClosed <==> write.finalFragment)
         && slot.fragmentIndex == record.nextIssuedFragment + (if write.finalFragment then 1 else 0)
  }

  ghost predicate EntryAt(planner: ForwardPlanner, s: BridgeState, i: int) {
    0 <= i < |s.queue| ==>
      && s.queue[i].workIdentity in s.ledger
      && EntryAgrees(planner, s.queue[i], s.ledger[s.queue[i].workIdentity], i > 0,
                     if i == 0 then WriteInFlight(s) else None)
  }

  predicate Queued(queue: seq<WorkSlot>, work: WorkIdentity) {
    exists i | 0 <= i < |queue| :: queue[i].workIdentity == work
  }

  predicate DistinctWorks(queue: seq<WorkSlot>) {
    forall i, j | 0 <= i < j < |queue| :: queue[i].workIdentity != queue[j].workIdentity
  }

  /** What is retained about the action in flight. */
  predicate RetainedAction(s: BridgeState) {
    s.inFlight.Some? ==>
      var action := s.inFlight.value;
      && !action.kind.NoAction?
      && (action.kind.ForwardWrite? ==>
            && s.queue != []
            && action.write.identity.work == s.queue[0].workIdentity
            && action.workContext == s.queue[0].userContext)
  }

  /** Queued works and ledger slots match one to one. */
  ghost predicate Matched(queue: seq<WorkSlot>, ledger: LedgerContents) {
    && DistinctWorks(queue)
    && |queue| == |ledger|
    && forall work :: work in ledger <==> Queued(queue, work)
  }

  ghost predicate Entries(planner: ForwardPlanner, s: BridgeState) {
    forall i {:trigger EntryAt(planner, s, i)} :: EntryAt(planner, s, i)
  }

  /** Queue and ledger match, every pair in them agrees, and both stay within their storage. */
  ghost predicate Invariant(cfg: Config, s: BridgeState) {
    && Usable(cfg.planner.routes)
    && (!cfg.storage ==> s.queue == [])
    && |s.queue| <= cfg.queueCapacity
    && |s.ledger| <= cfg.ledgerCapacity
    && Matched(s.queue, s.ledger)
    && Entries(cfg.planner, s)
    && RetainedAction(s)
  }

  lemma {:induction false} InitialInvariant(cfg: Config)
    requires Usable(cfg.planner.routes)
    ensures Invariant(cfg, INITIAL_STATE)
  {}

  // ----- every call keeps it -----

  lemma {:induction false} MatchedAfterPush(
    queue: seq<WorkSlot>, ledger: LedgerContents, slot: WorkSlot, record: LedgerSlot)
    requires Matched(queue, ledger) && slot.workIdentity !in ledger
    ensures Matched(queue + [slot], ledger[slot.workIdentity := record])
    ensures |ledger[slot.workIdentity := record]| == |ledger| + 1
  {
    var longer := queue + [slot];
    assert longer[|queue|] == slot;
    assert !Queued(queue, slot.workIdentity);
    forall work
      ensures Queued(longer, work) <==> Queued(queue, work) || work == slot.workIdentity
    {
      if i :| 0 <= i < |queue| && queue[i].workIdentity == work {
        assert longer[i].workIdentity == work;
      }
    }
  }

  lemma {:induction false} MatchedAfterPop(queue: seq<WorkSlot>, ledger: LedgerContents)
    requires queue != [] && Matched(queue, ledger)
    ensures Matched(queue[1..], ledger - {queue[0].workIdentity})
    ensures |ledger - {queue[0].workIdentity}| == |ledger| - 1
  {
    var front, rest := queue[0].workIdentity, queue[1..];
    assert Queued(queue, front);
    assert ledger.Keys == (ledger - {front}).Keys + {front};
    forall work
      ensures Queued(rest, work) <==> Queued(queue, work) && work != front
    {
      if i :| 0 <= i < |rest| && rest[i].workIdentity == work {
        assert queue[i + 1].workIdentity == work;
      }
      if i :| 0 <= i < |queue| && queue[i].workIdentity == work {
        assert i > 0 ==> rest[i - 1].workIdentity == work;
      }
    }
  }

  lemma {:induction false} MatchedAfterUpdate(
    queue: seq<WorkSlot>, ledger: LedgerContents, slot: WorkSlot, record: LedgerSlot)
    requires queue != [] && Matched(queue, ledger) && slot.workIdentity == queue[0].workIdentity
    ensures Matched(queue[0 := slot], ledger[slot.workIdentity := record])
    ensures |ledger[slot.workIdentity := record]| == |ledger|
  {
    var changed := queue[0 := slot];
    assert Queued(queue, slot.workIdentity);
    assert ledger[slot.workIdentity := record].Keys == ledger.Keys;
    assert forall i | 0 <= i < |queue| :: changed[i].workIdentity == queue[i].workIdentity;
  }

  lemma {:induction false} AdmissionFacts(cfg: Config, s: BridgeState, work: IngressWork, session: SessionState)
    requires Invariant(cfg, s) && AdmitWorkResult(cfg, s, work, session).status.WorkAdmitted?
    ensures Usable(cfg.planner.routes) && BeginStatus(cfg.planner, work).Ready?
    ensures work.identity.Valid() && work.snapshot.data.Buffer? && work.snapshot.count == work.count
    ensures cfg.storage && |s.queue| < cfg.queueCapacity && |s.ledger| < cfg.ledgerCapacity
    ensures work.identity !in s.ledger
    ensures WriteInFlight(s).Some? ==> s.queue != []
  {
    hide Entries, Matched;
  }

  lemma {:induction false} NewEntryAgrees(planner: ForwardPlanner, work: IngressWork, context: Handle)
    requires Usable(planner.routes) && BeginStatus(planner, work).Ready?
    requires work.identity.Valid() && work.snapshot.data.Buffer? && work.snapshot.count == work.count
    ensures EntryAgrees(planner, PackWork(work, StartCursor(work), context), NewSlot(work.identity, work.delivery),
                        true, None)
  {
    StartIsOnPlan(planner, work);
    NewSlotAgrees(work.identity, work.delivery);
    hide OnPlan;
  }

  lemma {:induction false} AdmitWorkKeeps(
    cfg: Config, s: BridgeState, work: IngressWork, session: SessionState, context: Handle)
    requires Invariant(cfg, s) && AdmitWorkResult(cfg, s, work, session).status.WorkAdmitted?
    ensures Invariant(cfg, AfterAdmitWork(s, work, context))
  {
    hide EntryAgrees, Matched, BeginStatus, NewSlot, Usable, AdmitWorkResult;
    var planner, after := cfg.planner, AfterAdmitWork(s, work, context);
    var slot, record := PackWork(work, StartCursor(work), context), NewSlot(work.identity, work.delivery);
    AdmissionFacts(cfg, s, work, session);
    NewEntryAgrees(planner, work, context);
    WaitingIsIdle(planner, slot, record);
    MatchedAfterPush(s.queue, s.ledger, slot, record);
    forall i
      ensures EntryAt(planner, after, i)
    {
      assert EntryAt(planner, s, i);
    }
  }

  /** A work that has not started is idle wherever it stands. */
  lemma {:induction false} WaitingIsIdle(planner: ForwardPlanner, slot: WorkSlot, record: LedgerSlot)
    requires EntryAgrees(planner, slot, record, true, None)
    ensures EntryAgrees(planner, slot, record, false, None)
  {}

  /** A previewed forward write is the next fragment of the front work, recordable in its slot. */
  lemma {:induction false} FrontIsPlannable(cfg: Config, s: BridgeState)
    requires Invariant(cfg, s) && WriteInFlight(s).None? && s.queue != []
    ensures var front := s.queue[0];
            && Plannable(cfg.planner, AsCursor(front))
            && front.workIdentity in s.ledger
            && EntryAgrees(cfg.planner, front, s.ledger[front.workIdentity], false, None)
  {
    assert EntryAt(cfg.planner, s, 0);
    OnPlanStep(cfg.planner, AsCursor(s.queue[0]));
  }

  /** Issuing the next fragment of an idle work: the ledger accepts it, and the pair agrees again. */
  lemma {:induction false} IssueKeepsEntry(
    planner: ForwardPlanner, slot: WorkSlot, record: LedgerSlot, sequence: u32)
    requires EntryAgrees(planner, slot, record, false, None) && Plannable(planner, AsCursor(slot)) && sequence != 0
    ensures var write := FragmentAt(planner, AsCursor(slot), sequence);
            && write.identity.work == slot.workIdentity
            && write.identity.Valid() && IsAccepted(write.delivery)
            && SlotIssueStatus(record, write).Recorded?
            && EntryAgrees(planner, UpdateFrom(slot, CursorAfterFragment(planner, AsCursor(slot))),
                           AfterIssue(record, write), false, Some(write))
  {
    var cursor := AsCursor(slot);
    var next, write := CursorAfterFragment(planner, cursor), FragmentAt(planner, cursor, sequence);
    OnPlanStep(planner, cursor);
    hide Plannable;
    assert AsCursor(UpdateFrom(slot, next)) == next;
    assert cursor.fragmentIndex < 0xFFFF;
    hide OnPlan;
    assert SlotAgrees(AfterIssue(record, write));
  }

  /** A preview never fails in planning, and what it calls ready can be committed. */
  lemma {:induction false} PreviewIsSound(
    cfg: Config, s: BridgeState, session: SessionState, now: u32, polls: PollSet, writeContext: Handle)
    requires Invariant(cfg, s)
    ensures var proposal := Preview(cfg, s, session, now, polls, writeContext);
            && !proposal.status.PlanningFailed?
            && (proposal.status.ActionReady? ==>
                  var action := proposal.action;
                  && !action.kind.NoAction?
                  && action.kind == action.scheduling.kind
                  && Committed(action.scheduling, action.pollCount, action.selectedAt, s.poll).Some?
                  && (action.requiresCompletion ==> action.sequence == NextNonZeroSequence32(s.requestSequence))
                  && (!action.requiresCompletion ==> action.kind.Poll? && action.sequence == 0)
                  && (action.kind.Poll? && action.requiresCompletion ==>
                        && IsPollOperation(action.downstream.operation)
                        && action.downstream.sequence == action.sequence
                        && ValidateDownstreamRequest(action.downstream).ValidRequest?)
                  && (action.kind.ForwardWrite? ==>
                        && action.requiresCompletion
                        && s.inFlight.None?
                        && s.queue != []
                        && Plannable(cfg.planner, AsCursor(s.queue[0]))
                        && action.write == FragmentAt(cfg.planner, AsCursor(s.queue[0]), action.sequence)
                        && proposal.cursor == CursorAfterFragment(cfg.planner, AsCursor(s.queue[0]))
                        && action.workContext == s.queue[0].userContext))
  {
    var (selected, selection) := Choice(cfg.pollOptions, now, s.queue != [], polls, s.poll);
    if selected.Selected? {
      ChoiceCommits(cfg.pollOptions, now, s.queue != [], polls, s.poll);
    }
    if s.inFlight.None? && s.queue != [] {
      FrontIsPlannable(cfg, s);
    }
    hide Invariant, Plannable, Choice, Committed, WorkCurrent, ValidateDownstreamRequest;
  }

  /** What a preview calls ready, admission accepts. */
  lemma {:induction false} PreviewIsAdmissible(
    cfg: Config, s: BridgeState, session: SessionState, now: u32, polls: PollSet, writeContext: Handle)
    requires Invariant(cfg, s)
    ensures var proposal := Preview(cfg, s, session, now, polls, writeContext);
            proposal.status.ActionReady? ==>
              && s.inFlight.None?
              && IsCurrentProposal(cfg, s, proposal.action, session, polls)
              && RePreview(cfg, s, proposal.action, session, polls).cursor == proposal.cursor
  {
    hide Invariant, Plannable, Choice, WorkCurrent, ValidateDownstreamRequest, FragmentAt, Committed;
    PreviewIsSound(cfg, s, session, now, polls, writeContext);
  }

  /** A preview with these arguments returns exactly this action. */
  ghost predicate Proposes(
    cfg: Config, s: BridgeState, session: SessionState, now: u32, polls: PollSet, writeContext: Handle,
    action: StoreForwardAction)
  {
    var proposal := Preview(cfg, s, session, now, polls, writeContext);
    proposal.status.ActionReady? && proposal.action == action
  }

  /** Admission is exact: an action is accepted if and only if some preview of the present state, at
      whatever time and for whatever consistency context, returns exactly this action. */
  lemma {:induction false} AdmissionExact(
    cfg: Config, s: BridgeState, action: StoreForwardAction, session: SessionState, polls: PollSet)
    requires Invariant(cfg, s)
    ensures var status := AdmitActionStatusOf(cfg, s, action, session, polls);
            status.ActionAdmitted? || status.Consumed?
            <==> exists now: u32, writeContext: Handle :: Proposes(cfg, s, session, now, polls, writeContext, action)
  {
    hide Invariant, Preview;
    if now: u32, writeContext: Handle :| Proposes(cfg, s, session, now, polls, writeContext, action) {
      PreviewIsAdmissible(cfg, s, session, now, polls, writeContext);
      PreviewIsSound(cfg, s, session, now, polls, writeContext);
    }
    var status := AdmitActionStatusOf(cfg, s, action, session, polls);
    if status.ActionAdmitted? || status.Consumed? {
      assert Proposes(cfg, s, session, action.selectedAt, polls, action.downstream.consistencyContext, action);
    }
  }

  /** Rewriting only the front pair keeps the invariant when that pair agrees again. */
  lemma {:induction false} FrontRewriteKeeps(
    cfg: Config, s: BridgeState, after: BridgeState, slot: WorkSlot, record: LedgerSlot)
    requires Invariant(cfg, s) && s.queue != [] && slot.workIdentity == s.queue[0].workIdentity
    requires after.queue == s.queue[0 := slot] && after.ledger == s.ledger[slot.workIdentity := record]
    requires EntryAgrees(cfg.planner, slot, record, false, WriteInFlight(after))
    requires RetainedAction(after)
    ensures Invariant(cfg, after)
  {
    hide EntryAgrees, Matched, RetainedAction, Usable;
    MatchedAfterUpdate(s.queue, s.ledger, slot, record);
    FrontIsUnlike(s.queue, s.ledger);
    forall i
      ensures EntryAt(cfg.planner, after, i)
    {
      assert EntryAt(cfg.planner, s, i);
    }
  }

  lemma {:induction false} FrontIsUnlike(queue: seq<WorkSlot>, ledger: LedgerContents)
    requires queue != [] && Matched(queue, ledger)
    ensures forall i | 0 < i < |queue| :: queue[i].workIdentity != queue[0].workIdentity
  {}

  /** So does changing nothing but the fairness state, the counters and a poll in flight. */
  lemma {:induction false} SameWorksKeep(cfg: Config, s: BridgeState, after: BridgeState)
    requires Invariant(cfg, s) && WriteInFlight(s) == WriteInFlight(after) == None
    requires after.queue == s.queue && after.ledger == s.ledger && RetainedAction(after)
    ensures Invariant(cfg, after)
  {
    hide EntryAgrees, Matched;
    forall i
      ensures EntryAt(cfg.planner, after, i)
    {
      assert EntryAt(cfg.planner, s, i);
    }
  }

  lemma {:induction false} AdmitActionKeeps(
    cfg: Config, s: BridgeState, action: StoreForwardAction, session: SessionState, polls: PollSet)
    requires Invariant(cfg, s) && s.inFlight.None? && IsCurrentProposal(cfg, s, action, session, polls)
    ensures Invariant(cfg, AfterAdmitAction(s, action, RePreview(cfg, s, action, session, polls).cursor))
  {
    var proposal := RePreview(cfg, s, action, session, polls);
    PreviewIsSound(cfg, s, session, action.selectedAt, polls, action.downstream.consistencyContext);
    hide Preview, Plannable, PollAfter;
    var after := AfterAdmitAction(s, action, proposal.cursor);
    if action.kind.ForwardWrite? {
      var front := s.queue[0];
      FrontIsPlannable(cfg, s);
      IssueKeepsEntry(cfg.planner, front, s.ledger[front.workIdentity], action.sequence);
      hide Invariant, EntryAgrees, FragmentAt, CursorAfterFragment;
      FrontRewriteKeeps(cfg, s, after, UpdateFrom(front, proposal.cursor),
                        AfterIssue(s.ledger[front.workIdentity], action.write));
    } else {
      hide Invariant;
      SameWorksKeep(cfg, s, after);
    }
  }

  /** The work in flight resolves: if it goes on, the pair agrees again and is idle; it is drained
      exactly after a failure or its final fragment. */
  lemma {:induction false} ResolveKeepsEntry(
    planner: ForwardPlanner, slot: WorkSlot, record: LedgerSlot, write: PlannedWrite, outcome: DownstreamOutcome)
    requires EntryAgrees(planner, slot, record, false, Some(write)) && IsKnownOutcome(outcome)
    ensures Summarize(SlotAfterCompletion(record, outcome)).drained <==> outcome != Applied || write.finalFragment
    ensures outcome != Applied ==> IsFailure(AfterResolve(record, outcome).observedOutcome)
    ensures outcome == Applied && !write.finalFragment ==>
              EntryAgrees(planner, slot, SlotAfterCompletion(record, outcome), false, None)
  {
    hide OnPlan;
  }

  lemma {:induction false} WithoutFrontKeeps(cfg: Config, s: BridgeState, idle: BridgeState)
    requires Invariant(cfg, s) && s.queue != []
    requires idle == WithoutFront(s).(inFlight := None, revision := idle.revision)
    ensures Invariant(cfg, idle)
  {
    hide EntryAgrees, Matched, Usable;
    MatchedAfterPop(s.queue, s.ledger);
    FrontIsUnlike(s.queue, s.ledger);
    forall i
      ensures EntryAt(cfg.planner, idle, i)
    {
      assert EntryAt(cfg.planner, s, i + 1);
      if 0 <= i < |idle.queue| {
        WaitingIsIdle(cfg.planner, s.queue[i + 1], s.ledger[s.queue[i + 1].workIdentity]);
      }
    }
  }

  lemma {:induction false} FrontInFlight(cfg: Config, s: BridgeState)
    requires Invariant(cfg, s) && WriteInFlight(s).Some?
    ensures s.queue != [] && s.queue[0].workIdentity == WriteInFlight(s).value.identity.work
    ensures s.queue[0].workIdentity in s.ledger
    ensures EntryAgrees(cfg.planner, s.queue[0], s.ledger[s.queue[0].workIdentity], false, WriteInFlight(s))
    ensures s.inFlight.value.workContext == s.queue[0].userContext
  {
    assert EntryAt(cfg.planner, s, 0);
  }

  lemma {:induction false} CompleteKeeps(
    cfg: Config, s: BridgeState, action: StoreForwardAction, outcome: DownstreamOutcome, session: SessionState)
    requires Invariant(cfg, s)
    ensures Invariant(cfg, AfterComplete(s, action, outcome, session))
  {
    hide Invariant, EntryAgrees, WorkCurrent;
    var status, after := CompleteStatusOf(s, action, outcome, session), AfterComplete(s, action, outcome, session);
    if status.Completed? || status.CompleteStaleSession? {
      if action.kind.ForwardWrite? {
        FrontInFlight(cfg, s);
        var front := s.queue[0];
        var record := s.ledger[front.workIdentity];
        ResolveKeepsEntry(cfg.planner, front, record, action.write, outcome);
        hide SlotAfterCompletion, Summarize, DecisionFor;
        if CompleteResult(s, action, outcome, session).workRetired {
          WithoutFrontKeeps(cfg, s, after);
        } else {
          FrontRewriteKeeps(cfg, s, after, front, SlotAfterCompletion(record, outcome));
        }
      } else {
        SameWorksKeep(cfg, s, after);
      }
    }
  }

  /** The completion of the write in flight, case by case: the ledger resolves it or refuses it for a
      stale session and nothing else, and the work stays only after an applied fragment that is not
      its last. */
  lemma {:induction false} CompleteWriteShape(
    cfg: Config, s: BridgeState, action: StoreForwardAction, outcome: DownstreamOutcome, session: SessionState)
    requires Invariant(cfg, s) && s.inFlight == Some(action) && action.kind.ForwardWrite? && IsKnownOutcome(outcome)
    ensures var work := action.write.identity.work;
            && s.queue != [] && s.queue[0].workIdentity == work && work in s.ledger
            && var record, current := s.ledger[work], WorkCurrent(work, session);
               var resolved, slot := AfterResolve(record, outcome), SlotAfterCompletion(record, outcome);
               var retired := !current || outcome != Applied || action.write.finalFragment;
               var revision := NextNonZeroSequence32(s.revision);
               && slot == (if outcome == Applied then resolved else AfterClose(resolved))
               && (outcome != Applied ==> IsFailure(resolved.observedOutcome))
               && (Summarize(slot).drained <==> outcome != Applied || action.write.finalFragment)
               && ResolveStatus(s.ledger, action.write, CompletionRecord(action.write.identity, outcome), session)
                  == (if current then Resolved else CompletionRejected)
               && Invariant(cfg, AfterComplete(s, action, outcome, session))
               && AfterComplete(s, action, outcome, session)
                  == (if retired then BridgeState(s.queue[1..], s.ledger - {work}, s.poll, s.requestSequence,
                      revision, None)
                      else BridgeState(s.queue, s.ledger[work := slot], s.poll, s.requestSequence, revision, None))
               && CompleteResult(s, action, outcome, session)
                  == (if current then
                        StoreForwardCompletion(Completed, ForwardWrite, outcome,
                                               DecisionFor(record.aggregate, action.write, outcome),
                                               Summarize(slot), retired, action.workContext)
                      else
                        StoreForwardCompletion(CompleteStaleSession, ForwardWrite, outcome,
                                               RejectedDecision(StaleCompletion),
                                               Summarize(record), true, action.workContext))
  {
    hide Invariant, WorkCurrent, SlotAgrees, OnPlan, DecisionFor, AfterResolve, Summarize;
    CompleteKeeps(cfg, s, action, outcome, session);
    FrontInFlight(cfg, s);
    ResolveKeepsEntry(cfg.planner, s.queue[0], s.ledger[s.queue[0].workIdentity], action.write, outcome);
  }

  lemma {:induction false} RetireKeeps(cfg: Config, s: BridgeState, status: RetireStatus)
    requires Invariant(cfg, s) && s.inFlight.None? && (status.Retired? ==> s.queue != [])
    ensures Invariant(cfg, AfterRetire(s, status))
  {
    if status.Retired? {
      WithoutFrontKeeps(cfg, s, AfterRetire(s, status));
    }
  }

  lemma {:induction false} ResetKeeps(cfg: Config, s: BridgeState)
    requires Invariant(cfg, s)
    ensures Invariant(cfg, AfterReset(s))
  {
    if s.inFlight.None? {
      forall i
        ensures EntryAt(cfg.planner, AfterReset(s), i)
      {}
    }
  }
}
