/** Whole runs of the engine. A run carries, beside the state, what a caller can observe of it: every
    work's life from admission to hand-back, the writes in the order they were admitted, the records
    handed back, the notices announced, and the applied images driven by the completion decisions. */
module StoreForwardRuns {
  import opened Words
  import opened IngressWork
  import opened RouteTable
  import opened ForwardPlan
  import opened CompletionTransition
  import opened PollPlanner
  import opened StoreForwardState

  /** Any call that can change the engine, with any arguments; previews change nothing. */
  datatype Input =
    | AdmitWorkCall(work: IngressWork, session: SessionState, context: Handle)
    | AdmitActionCall(action: StoreForwardAction, session: SessionState, polls: PollSet)
    | CompleteCall(action: StoreForwardAction, outcome: DownstreamOutcome, session: SessionState)
    | DiscardCall(session: SessionState)
    | AbandonCall
    | ResetCall

  datatype Ending = StillQueued | EndedCompleted | EndedStale | EndedRetired | EndedReset

  /** One admitted work: what was issued for it, how each issued write ended, what was announced. */
  datatype WorkLife = WorkLife(
    work: IngressWork,
    context: Handle,
    issued: seq<PlannedWrite>,
    outcomes: seq<DownstreamOutcome>,
    notices: seq<CompletionNotice>,
    ending: Ending)

  /** A work given back to its owner. */
  datatype Returned = Returned(work: WorkIdentity, context: Handle)

  /** A notice as the caller gets it, with the work it is about. */
  datatype Announcement = Announcement(work: WorkIdentity, notice: CompletionNotice)

  /** The applied image of each register table. */
  datatype Images = Images(coils: seq<Value>, holdings: seq<Value>) {
    function Of(kind: ValueKind): seq<Value> {
      if kind.CoilValues? then coils else holdings
    }
  }

  /** `lives` is in admission order; the first `finished` of them have left the queue. */
  datatype Run = Run(
    state: BridgeState,
    lives: seq<WorkLife>,
    finished: nat,
    writes: seq<PlannedWrite>,
    applied: seq<PlannedWrite>,
    returned: seq<Returned>,
    announced: seq<Announcement>,
    images: Images)

  function InitialRun(images: Images): Run {
    Run(INITIAL_STATE, [], 0, [], [], [], [], images)
  }

  /** Both images after a completion decision has been passed on for this request. */
  function Transition(images: Images, request: PlannedWrite, decision: CompletionDecision): Images {
    Images(
      if Records(CoilValues, request, decision) then Marked(CoilValues, images.coils, request) else images.coils,
      if Records(HoldingValues, request, decision) then Marked(HoldingValues, images.holdings, request)
      else images.holdings)
  }

  // ----- one step -----

  function WithFrontLife(run: Run, life: WorkLife): seq<WorkLife> {
    if run.finished < |run.lives| then run.lives[run.finished := life] else run.lives
  }

  function FrontLife(run: Run): WorkLife {
    if run.finished < |run.lives| then run.lives[run.finished]
    else WorkLife(NO_INGRESS, NULL_HANDLE, [], [], [], StillQueued)
  }

  function Announced(notices: seq<CompletionNotice>, notice: CompletionNotice): seq<CompletionNotice> {
    if notice == NoNotice then notices else notices + [notice]
  }

  /** What the result of a completion hands back, and what it announces. */
  function HandBackOf(result: StoreForwardCompletion): seq<Returned> {
    if result.workRetired then [Returned(result.work.work, result.workContext)] else []
  }

  function AnnouncementOf(result: StoreForwardCompletion): seq<Announcement> {
    if result.decision.notice == NoNotice then [] else [Announcement(result.work.work, result.decision.notice)]
  }

  /** What a retirement hands back. */
  function RetirementBack(status: RetireStatus, retired: StoreForwardRetirement): seq<Returned> {
    if status.Retired? then [Returned(retired.work, retired.userContext)] else []
  }

  function LifeAfterResult(life: WorkLife, outcome: DownstreamOutcome, result: StoreForwardCompletion): WorkLife {
    life.(outcomes := life.outcomes + [outcome],
          notices := Announced(life.notices, result.decision.notice),
          ending := if result.workRetired then EndedCompleted else StillQueued)
  }

  ghost function RunAdmitWork(cfg: Config, run: Run, work: IngressWork, session: SessionState, context: Handle): Run {
    if !AdmitWorkResult(cfg, run.state, work, session).status.WorkAdmitted? then run else
      run.(state := AfterAdmitWork(run.state, work, context),
           lives := run.lives + [WorkLife(work, context, [], [], [], StillQueued)])
  }

  ghost function RunAdmitAction(
    cfg: Config, run: Run, action: StoreForwardAction, session: SessionState, polls: PollSet): Run
  {
    var status := AdmitActionStatusOf(cfg, run.state, action, session, polls);
    if !status.ActionAdmitted? && !status.Consumed? then run else
      var cursor := RePreview(cfg, run.state, action, session, polls).cursor;
      var moved := run.(state := AfterAdmitAction(run.state, action, cursor));
      if !status.ActionAdmitted? || !action.kind.ForwardWrite? then moved else
        moved.(writes := run.writes + [action.write],
               lives := WithFrontLife(run, FrontLife(run).(issued := FrontLife(run).issued + [action.write])))
  }

  function LifeAfterRefusal(life: WorkLife, result: StoreForwardCompletion): WorkLife {
    life.(notices := Announced(life.notices, result.decision.notice), ending := EndedStale)
  }

  function RunComplete(run: Run, action: StoreForwardAction, outcome: DownstreamOutcome, session: SessionState): Run {
    var result := CompleteResult(run.state, action, outcome, session);
    var moved := run.(
      state := AfterComplete(run.state, action, outcome, session),
      announced := run.announced + AnnouncementOf(result),
      returned := run.returned + HandBackOf(result));
    var resolved := result.kind.ForwardWrite? && result.status.Completed?;
    if !resolved && !result.workRetired then moved else
      moved.(
        images := Transition(run.images, action.write, result.decision),
        applied := if resolved && outcome == Applied then run.applied + [action.write] else run.applied,
        lives := WithFrontLife(run, if resolved then LifeAfterResult(FrontLife(run), outcome, result)
                                    else LifeAfterRefusal(FrontLife(run), result)),
        finished := run.finished + (if result.workRetired then 1 else 0))
  }

  function RunReset(run: Run): Run {
    if run.state.inFlight.Some? then run else
      run.(state := AfterReset(run.state), lives := Dropped(run.lives, run.finished), finished := |run.lives|)
  }

  ghost function Step(cfg: Config, run: Run, input: Input): Run {
    match input
    case AdmitWorkCall(work, session, context) => RunAdmitWork(cfg, run, work, session, context)
    case AdmitActionCall(action, session, polls) => RunAdmitAction(cfg, run, action, session, polls)
    case CompleteCall(action, outcome, session) => RunComplete(run, action, outcome, session)
    case DiscardCall(session) => RunRetire(run, DiscardStatus(run.state, session))
    case AbandonCall => RunRetire(run, AbandonStatus(run.state))
    case ResetCall => RunReset(run)
  }

  function RunRetire(run: Run, status: RetireStatus): Run {
    if !status.Retired? then run else
      run.(state := AfterRetire(run.state, status),
           lives := WithFrontLife(run, FrontLife(run).(ending := EndedRetired)),
           finished := run.finished + 1,
           returned := run.returned + RetirementBack(status, RetirementOf(run.state, status)))
  }

  function Dropped(lives: seq<WorkLife>, finished: nat): (dropped: seq<WorkLife>)
    ensures |dropped| == |lives|
    ensures forall i | 0 <= i < |lives| ::
              dropped[i] == if i < finished then lives[i] else lives[i].(ending := EndedReset)
  {
    seq(|lives|, i requires 0 <= i < |lives| => if i < finished then lives[i] else lives[i].(ending := EndedReset))
  }

  ghost function RunOf(cfg: Config, images: Images, inputs: seq<Input>): Run
    decreases |inputs|
  {
    if inputs == [] then InitialRun(images)
    else Step(cfg, RunOf(cfg, images, inputs[..|inputs| - 1]), inputs[|inputs| - 1])
  }

  lemma {:induction false} RunExtends(cfg: Config, images: Images, inputs: seq<Input>, input: Input)
    ensures RunOf(cfg, images, inputs + [input]) == Step(cfg, RunOf(cfg, images, inputs), input)
  {
    hide Step;
    assert (inputs + [input])[..|inputs|] == inputs;
  }

  // ----- sequences over lives -----

  function Concat<T>(parts: seq<seq<T>>): seq<T>
    decreases |parts|
  {
    if parts == [] then [] else Concat(parts[..|parts| - 1]) + parts[|parts| - 1]
  }

  lemma {:induction false} ConcatGrows<T>(parts: seq<seq<T>>, i: nat, more: seq<T>)
    requires i < |parts| && forall j | i < j < |parts| :: parts[j] == []
    ensures Concat(parts[i := parts[i] + more]) == Concat(parts) + more
    decreases |parts|
  {
    var last := |parts| - 1;
    var grown := parts[i := parts[i] + more];
    if i == last {
      assert grown[..last] == parts[..last];
      assert Concat(parts[..last]) + (parts[last] + more) == Concat(parts[..last]) + parts[last] + more;
    } else {
      assert grown[..last] == parts[..last][i := parts[..last][i] + more];
      ConcatGrows(parts[..last], i, more);
    }
  }

  lemma {:induction false} ConcatPush<T>(parts: seq<seq<T>>)
    ensures Concat(parts + [[]]) == Concat(parts)
  {
    assert (parts + [[]])[..|parts|] == parts;
  }

  function IssuedParts(lives: seq<WorkLife>): (parts: seq<seq<PlannedWrite>>)
    ensures |parts| == |lives| && forall i | 0 <= i < |lives| :: parts[i] == lives[i].issued
  {
    seq(|lives|, i requires 0 <= i < |lives| => lives[i].issued)
  }

  /** What has been announced about one work. */
  function NoticesOf(life: WorkLife): (announced: seq<Announcement>)
    ensures |announced| == |life.notices|
  {
    seq(|life.notices|, k requires 0 <= k < |life.notices| => Announcement(life.work.identity, life.notices[k]))
  }

  function NoticeParts(lives: seq<WorkLife>): (parts: seq<seq<Announcement>>)
    ensures |parts| == |lives| && forall i | 0 <= i < |lives| :: parts[i] == NoticesOf(lives[i])
  {
    seq(|lives|, i requires 0 <= i < |lives| => NoticesOf(lives[i]))
  }

  /** The issued writes that ended as applied, in order. */
  function AppliedWrites(issued: seq<PlannedWrite>, outcomes: seq<DownstreamOutcome>): seq<PlannedWrite>
    decreases |outcomes|
  {
    if outcomes == [] || |issued| < |outcomes| then [] else
      var last := |outcomes| - 1;
      AppliedWrites(issued, outcomes[..last]) + (if outcomes[last] == Applied then [issued[last]] else [])
  }

  function AppliedParts(lives: seq<WorkLife>): (parts: seq<seq<PlannedWrite>>)
    ensures |parts| == |lives|
    ensures forall i | 0 <= i < |lives| :: parts[i] == AppliedWrites(lives[i].issued, lives[i].outcomes)
  {
    seq(|lives|, i requires 0 <= i < |lives| => AppliedWrites(lives[i].issued, lives[i].outcomes))
  }

  lemma {:induction false} AppliedIgnoresUnresolved(
    issued: seq<PlannedWrite>, more: seq<PlannedWrite>, outcomes: seq<DownstreamOutcome>)
    requires |outcomes| <= |issued|
    ensures AppliedWrites(issued + more, outcomes) == AppliedWrites(issued, outcomes)
    decreases |outcomes|
  {
    if outcomes == [] {
    } else {
      AppliedIgnoresUnresolved(issued, more, outcomes[..|outcomes| - 1]);
    }
  }

  lemma {:induction false} AppliedGrows(issued: seq<PlannedWrite>, outcomes: seq<DownstreamOutcome>,
      outcome: DownstreamOutcome)
    requires |outcomes| < |issued|
    ensures AppliedWrites(issued, outcomes + [outcome])
            == AppliedWrites(issued, outcomes) + (if outcome == Applied then [issued[|outcomes|]] else [])
  {
    assert (outcomes + [outcome])[..|outcomes|] == outcomes;
  }

  /** The reference for the applied image: each request written over its own table's image, in order. */
  function RecordOne(images: Images, request: PlannedWrite): Images {
    match request.table
    case Coils => images.(coils := Marked(CoilValues, images.coils, request))
    case HoldingRegisters => images.(holdings := Marked(HoldingValues, images.holdings, request))
    case _ => images
  }

  function RecordAll(images: Images, requests: seq<PlannedWrite>): Images
    decreases |requests|
  {
    if requests == [] then images
    else RecordOne(RecordAll(images, requests[..|requests| - 1]), requests[|requests| - 1])
  }

  lemma {:induction false} RecordAllPush(images: Images, requests: seq<PlannedWrite>, request: PlannedWrite)
    ensures RecordAll(images, requests + [request]) == RecordOne(RecordAll(images, requests), request)
  {
    assert (requests + [request])[..|requests|] == requests;
  }

  /** What the finished works' owners got back: all of them but those dropped by a reset, in order. */
  function HandedBack(lives: seq<WorkLife>, finished: nat): seq<Returned>
    requires finished <= |lives|
    decreases finished
  {
    if finished == 0 then [] else
      var last := lives[finished - 1];
      HandedBack(lives, finished - 1)
      + (if last.ending.EndedReset? then [] else [Returned(last.work.identity, last.context)])
  }

  lemma {:induction false} HandedBackSame(lives: seq<WorkLife>, others: seq<WorkLife>, finished: nat)
    requires finished <= |lives| && finished <= |others| && lives[..finished] == others[..finished]
    ensures HandedBack(lives, finished) == HandedBack(others, finished)
    decreases finished
  {
    if finished == 0 {
    } else {
      assert lives[finished - 1] == lives[..finished][finished - 1] == others[..finished][finished - 1];
      assert lives[..finished - 1] == lives[..finished][..finished - 1];
      assert others[..finished - 1] == others[..finished][..finished - 1];
      HandedBackSame(lives, others, finished - 1);
    }
  }

  // ----- one life -----

  ghost function PlanOf(planner: ForwardPlanner, work: IngressWork): seq<PlannedWrite> {
    Plan(planner, StartCursor(work))
  }

  predicate AllSucceeded(outcomes: seq<DownstreamOutcome>) {
    forall k | 0 <= k < |outcomes| :: outcomes[k] == Applied
  }

  /** What has been issued is, sequence numbers aside, the beginning of the work's own plan. */
  ghost predicate FollowsPlan(planner: ForwardPlanner, life: WorkLife) {
    var plan := PlanOf(planner, life.work);
    && |life.issued| <= |plan|
    && forall k | 0 <= k < |life.issued| :: Unnumbered(life.issued[k]) == plan[k]
  }

  /** The notices a work is owed: exactly one when a tracked work failed or applied completely. */
  ghost function NoticesOwed(planner: ForwardPlanner, life: WorkLife): seq<CompletionNotice> {
    if !life.work.delivery.Tracked? then []
    else if !AllSucceeded(life.outcomes) then [WorkFailed]
    else if |life.outcomes| == |PlanOf(planner, life.work)| then [WorkSucceeded]
    else []
  }

  ghost predicate LifeOk(planner: ForwardPlanner, life: WorkLife) {
    var issued, resolved, total := |life.issued|, |life.outcomes|, |PlanOf(planner, life.work)|;
    && Usable(planner.routes)
    && BeginStatus(planner, life.work).Ready?
    && FollowsPlan(planner, life)
    && resolved <= issued <= resolved + 1
    && (resolved > 0 ==> AllSucceeded(life.outcomes[..resolved - 1]))
    && life.notices == NoticesOwed(planner, life)
    && match life.ending
       case EndedCompleted =>
         issued == resolved > 0 && (AllSucceeded(life.outcomes) ==> resolved == total)
       case EndedStale => AllSucceeded(life.outcomes) && resolved < total && issued == resolved + 1
       case EndedRetired => AllSucceeded(life.outcomes) && resolved < total && issued == resolved
       case EndedReset => AllSucceeded(life.outcomes) && resolved < total && issued == resolved
       case StillQueued => AllSucceeded(life.outcomes) && resolved < total
  }

  /** How a live work's record in the queue continues its life. */
  ghost predicate Continues(
    planner: ForwardPlanner, life: WorkLife, slot: WorkSlot, waiting: bool, inFlight: Option<PlannedWrite>)
  {
    && life.ending.StillQueued?
    && SlotWork(slot) == life.work
    && slot.userContext == life.context
    && AsCursor(slot) == CursorAfter(planner, StartCursor(life.work), |life.issued|)
    && (waiting ==> life.issued == [] && life.outcomes == [])
    && match inFlight
       case None => |life.issued| == |life.outcomes|
       case Some(write) => |life.issued| == |life.outcomes| + 1 && life.issued[|life.outcomes|] == write
  }

  // ----- the invariant of a run -----

  ghost predicate LifeAt(planner: ForwardPlanner, run: Run, i: int) {
    0 <= i < |run.lives| ==>
      && LifeOk(planner, run.lives[i])
      && (i < run.finished ==> !run.lives[i].ending.StillQueued?)
      && (i >= run.finished && i - run.finished < |run.state.queue| ==>
            Continues(planner, run.lives[i], run.state.queue[i - run.finished], i > run.finished,
                      if i == run.finished then WriteInFlight(run.state) else None))
  }

  ghost predicate Lives(planner: ForwardPlanner, run: Run) {
    && |run.lives| == run.finished + |run.state.queue|
    && forall i {:trigger LifeAt(planner, run, i)} :: LifeAt(planner, run, i)
  }

  /** How much of a work's snapshot its resolved fragments cover. */
  ghost function ResolvedCount(planner: ForwardPlanner, life: WorkLife): nat {
    CursorAfter(planner, StartCursor(life.work), |life.outcomes|).sourceOffset
  }

  /** The image holds the first `count` values of the work's snapshot, if the work's range fits it. */
  predicate Holds(images: Images, work: IngressWork, count: nat) {
    var image := images.Of(work.kind);
    work.start + work.count <= |image| && work.snapshot.data.Buffer?
        && count <= work.count <= |work.snapshot.data.values| ==>
      image[work.start..work.start + count] == work.snapshot.data.values[..count]
  }

  ghost predicate FrontHolds(planner: ForwardPlanner, run: Run) {
    run.finished < |run.lives| ==>
      Holds(run.images, run.lives[run.finished].work, ResolvedCount(planner, run.lives[run.finished]))
  }

  ghost predicate RunInvariant(cfg: Config, initial: Images, run: Run) {
    && Invariant(cfg, run.state)
    && Lives(cfg.planner, run)
    && run.writes == Concat(IssuedParts(run.lives))
    && run.applied == Concat(AppliedParts(run.lives))
    && run.images == RecordAll(initial, run.applied)
    && run.returned == HandedBack(run.lives, run.finished)
    && run.announced == Concat(NoticeParts(run.lives))
    && FrontHolds(cfg.planner, run)
  }
}
