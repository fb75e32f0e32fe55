/** Planning of accepted writes into endpoint-local requests: the preflight, the fragment cursor and
    the plan a cursor stands for. */
module ForwardPlan {
  import opened Words
  import opened IngressWork
  import opened RouteTable
  import opened DownstreamExecutor

  datatype ForwardSpanPolicy = SingleEndpoint | PreflightAndSplit | UnknownPolicy(code: u8)

  datatype ForwardPlanOptions = ForwardPlanOptions(
    maxCoilsPerRequest: u16,
    maxHoldingRegistersPerRequest: u16,
    orderedSpanPolicy: ForwardSpanPolicy,
    latestStateSpanPolicy: ForwardSpanPolicy)

  datatype ForwardPlanStatus =
    | Ready | NotAccepted | InvalidWork | StaleSession | InvalidLimits | EmptyWork | WorkOverflow | WorkGap
    | MultipleEndpointsNotAllowed | InvalidPolicy

  datatype ForwardNextStatus = Planned | PlanComplete | InvalidSequence | TopologyChanged

  function NextNonZeroSequence32(value: u32): u32 {
    var next := Wrap32(value + 1);
    if next == 0 then 1 else next
  }

  datatype RequestIdentity = RequestIdentity(work: WorkIdentity, requestSequence: u32, fragmentIndex: u16) {
    predicate Valid() {
      work.Valid() && requestSequence != 0
    }
  }

  const NO_IDENTITY := RequestIdentity(NO_WORK, 0, 0)

  datatype PlannedWrite = PlannedWrite(
    identity: RequestIdentity,
    delivery: IngressDelivery,
    table: RegisterTable,
    operation: DownstreamOperation,
    routeIndex: u16,
    endpointId: u8,
    upstreamStart: u16,
    downstreamStart: u16,
    quantity: u16,
    sourceOffset: u16,
    coilValues: Buffer,
    holdingValues: Buffer,
    coilValue: Value,
    holdingValue: Value,
    finalFragment: bool)

  const NO_WRITE: PlannedWrite :=
    PlannedWrite(NO_IDENTITY, Rejected, Coils, WriteSingleCoil, 0, 0, 0, 0, 0, 0,
                 Null, Null, Bit(false), Register(0), false)

  datatype ForwardCursor = ForwardCursor(
    work: IngressWork, nextAddress: u16, remaining: u16, sourceOffset: u16, fragmentIndex: u16, active: bool)

  const IDLE_CURSOR: ForwardCursor := ForwardCursor(NO_INGRESS, 0, 0, 0, 0, false)

  datatype ForwardPlanner = ForwardPlanner(routes: RouteTableView, options: ForwardPlanOptions) {
    function Limit(kind: ValueKind): u16 {
      if kind.CoilValues? then options.maxCoilsPerRequest else options.maxHoldingRegistersPerRequest
    }

    function Policy(delivery: IngressDelivery): ForwardSpanPolicy {
      if IsLatestState(delivery) then options.latestStateSpanPolicy else options.orderedSpanPolicy
    }
  }

  function TableOf(kind: ValueKind): RegisterTable {
    if kind.CoilValues? then Coils else HoldingRegisters
  }

  // ----- admission of a work into planning -----

  ghost predicate InsideOneRoute(view: RouteTableView, table: RegisterTable, start: int, count: int) {
    exists i :: Covers(view, table, start, i) && start + count <= view.routes[i].Up(table).End()
  }

  function SpanRefusal(status: RoutedSpanStatus): ForwardPlanStatus {
    match status
    case Complete => Ready
    case Empty => EmptyWork
    case AddressOverflow => WorkOverflow
    case Gap => WorkGap
  }

  /** Why a work is refused, in the order in which refusals take precedence. */
  ghost function BeginStatus(planner: ForwardPlanner, work: IngressWork): ForwardPlanStatus {
    var table, policy := TableOf(work.kind), planner.Policy(work.delivery);
    if !IsAccepted(work.delivery) then NotAccepted
    else if work.count == 0 then EmptyWork
    else if work.start + work.count > ADDRESS_SPACE then WorkOverflow
    else if !SnapshotValidFor(work.snapshot, work.count) then InvalidWork
    else if planner.Limit(work.kind) == 0 then InvalidLimits
    else if !SpanRouted(planner.routes, table, work.start, work.count) then WorkGap
    else if policy.UnknownPolicy? then InvalidPolicy
    else if policy.SingleEndpoint? && !InsideOneRoute(planner.routes, table, work.start, work.count) then
      MultipleEndpointsNotAllowed
    else Ready
  }

  function StartCursor(work: IngressWork): ForwardCursor {
    ForwardCursor(work, work.start, work.count, 0, 0, true)
  }

  method Begin(planner: ForwardPlanner, work: IngressWork) returns (status: ForwardPlanStatus, cursor: ForwardCursor)
    requires Usable(planner.routes)
    ensures status == BeginStatus(planner, work)
    ensures cursor == if status.Ready? then StartCursor(work) else IDLE_CURSOR
  {
    cursor := IDLE_CURSOR;
    if !IsAccepted(work.delivery) {
      return NotAccepted, cursor;
    }
    if work.count == 0 {
      return EmptyWork, cursor;
    }
    if work.start + work.count > ADDRESS_SPACE {
      return WorkOverflow, cursor;
    }
    if !SnapshotValidFor(work.snapshot, work.count) {
      return InvalidWork, cursor;
    }
    if planner.Limit(work.kind) == 0 {
      return InvalidLimits, cursor;
    }
    var table := TableOf(work.kind);
    var span := InspectSpan(planner.routes, table, work.start, work.count);
    if span != Complete {
      return SpanRefusal(span), cursor;
    }
    match planner.Policy(work.delivery) {
      case SingleEndpoint =>
        var located := Locate(planner.routes, table, work.start);
        if !located.Found? {
          assert false;
        } else if work.start + work.count > planner.routes.routes[located.index].Up(table).End() {
          OnlyTheLocatedRoute(planner.routes, table, work.start, work.count);
          return MultipleEndpointsNotAllowed, cursor;
        }
      case PreflightAndSplit =>
      case UnknownPolicy(_) =>
        return InvalidPolicy, cursor;
    }
    return Ready, StartCursor(work);
  }

  lemma {:induction false} OnlyTheLocatedRoute(view: RouteTableView, table: RegisterTable, start: int, count: int)
    requires Usable(view) && Routed(view, table, start)
    ensures InsideOneRoute(view, table, start, count)
            <==> start + count <= view.routes[RouteOf(view, table, start)].Up(table).End()
  {
    assert Ordered(view, table);
    if i :| Covers(view, table, start, i) && start + count <= view.routes[i].Up(table).End() {
      RouteUnique(view, table, start, i);
    }
  }

  method BeginInSession(planner: ForwardPlanner, work: IngressWork, session: SessionState)
    returns (status: ForwardPlanStatus, cursor: ForwardCursor)
    requires Usable(planner.routes)
    ensures status == if WorkCurrent(work.identity, session) then BeginStatus(planner, work) else StaleSession
    ensures cursor == if status.Ready? then StartCursor(work) else IDLE_CURSOR
  {
    if !WorkCurrent(work.identity, session) {
      return StaleSession, IDLE_CURSOR;
    }
    status, cursor := Begin(planner, work);
  }

  // ----- one fragment -----

  /** The payload a cursor still has to send can be read. */
  predicate Readable(cursor: ForwardCursor) {
    cursor.active && cursor.remaining > 0 ==>
      && cursor.work.snapshot.data.Buffer?
      && cursor.sourceOffset + cursor.remaining <= |cursor.work.snapshot.data.values|
  }

  /** The next fragment of this cursor exists. */
  ghost predicate Plannable(planner: ForwardPlanner, cursor: ForwardCursor) {
    && Usable(planner.routes)
    && Readable(cursor)
    && cursor.active
    && cursor.remaining > 0
    && planner.Limit(cursor.work.kind) > 0
    && Routed(planner.routes, TableOf(cursor.work.kind), cursor.nextAddress)
  }

  ghost function QuantityAt(planner: ForwardPlanner, cursor: ForwardCursor): (q: u16)
    requires Plannable(planner, cursor)
    ensures 1 <= q <= cursor.remaining && q <= planner.Limit(cursor.work.kind)
  {
    Chunk(planner.routes, TableOf(cursor.work.kind), planner.Limit(cursor.work.kind),
          cursor.nextAddress, cursor.remaining)
  }

  /** The fragment at a cursor, numbered `sequence`. */
  ghost function FragmentAt(planner: ForwardPlanner, cursor: ForwardCursor, sequence: u32): PlannedWrite
    requires Plannable(planner, cursor)
  {
    var work, table := cursor.work, TableOf(cursor.work.kind);
    assert Ordered(planner.routes, table);
    var i := RouteOf(planner.routes, table, cursor.nextAddress);
    var route := planner.routes.routes[i];
    var q := QuantityAt(planner, cursor);
    var payload := work.snapshot.data.Plus(cursor.sourceOffset);
    var coils := work.kind.CoilValues?;
    PlannedWrite(
      RequestIdentity(work.identity, sequence, cursor.fragmentIndex),
      work.delivery,
      table,
      if coils then (if q == 1 then WriteSingleCoil else WriteMultipleCoils)
      else (if q == 1 then WriteSingleHoldingRegister else WriteMultipleHoldingRegisters),
      i,
      route.endpointId,
      cursor.nextAddress,
      route.Down(table).start + (cursor.nextAddress - route.Up(table).start),
      q,
      cursor.sourceOffset,
      if coils then payload else Null,
      if coils then Null else payload,
      if coils then payload.values[0] else Bit(false),
      if coils then Register(0) else payload.values[0],
      q == cursor.remaining)
  }

  ghost function CursorAfterFragment(planner: ForwardPlanner, cursor: ForwardCursor): ForwardCursor
    requires Plannable(planner, cursor)
  {
    var q := QuantityAt(planner, cursor);
    ForwardCursor(
      cursor.work, Wrap16(cursor.nextAddress + q), cursor.remaining - q, Wrap16(cursor.sourceOffset + q),
      Wrap16(cursor.fragmentIndex + 1), q != cursor.remaining)
  }

  /** A request pointed at its slice of the snapshot, with the operation for that many values. */
  function Populated(kind: ValueKind, values: Buffer, quantity: u16, request: PlannedWrite): PlannedWrite
    requires values.Buffer? && |values.values| > 0
  {
    match kind
    case CoilValues =>
      request.(coilValues := values, coilValue := values.values[0],
               operation := if quantity == 1 then WriteSingleCoil else WriteMultipleCoils)
    case HoldingValues =>
      request.(holdingValues := values, holdingValue := values.values[0],
               operation := if quantity == 1 then WriteSingleHoldingRegister else WriteMultipleHoldingRegisters)
  }

  method PopulatePayload(kind: ValueKind, values: Buffer, quantity: u16, request: PlannedWrite)
    returns (populated: PlannedWrite)
    requires values.Buffer? && |values.values| > 0
    ensures populated == Populated(kind, values, quantity, request)
  {
    populated := request;
    match kind {
      case CoilValues =>
        populated := populated.(coilValues := values);
        populated := populated.(coilValue := values.values[0]);
        populated := populated.(operation := if quantity == 1 then WriteSingleCoil else WriteMultipleCoils);
      case HoldingValues =>
        populated := populated.(holdingValues := values);
        populated := populated.(holdingValue := values.values[0]);
        populated := populated.(operation :=
          if quantity == 1 then WriteSingleHoldingRegister else WriteMultipleHoldingRegisters);
    }
  }

  /** When the next fragment is refused, and how. */
  ghost function NextStatus(planner: ForwardPlanner, cursor: ForwardCursor, sequence: u32): ForwardNextStatus {
    if !cursor.active || cursor.remaining == 0 then PlanComplete
    else if sequence == 0 && cursor.work.identity.Valid() then InvalidSequence
    else if !Plannable(planner, cursor) then TopologyChanged
    else Planned
  }

  /** The arithmetic of one fragment inside the route that covers its start: no cast loses anything. */
  lemma {:induction false} FragmentGeometry(planner: ForwardPlanner, cursor: ForwardCursor, i: nat)
    requires Usable(planner.routes) && Readable(cursor) && cursor.active && cursor.remaining > 0
    requires Covers(planner.routes, TableOf(cursor.work.kind), cursor.nextAddress, i)
    ensures i < |planner.routes.routes|
    ensures var table, limit := TableOf(cursor.work.kind), planner.Limit(cursor.work.kind);
            var up, down := planner.routes.routes[i].Up(table), planner.routes.routes[i].Down(table);
            var offset := cursor.nextAddress - up.start;
            && Wrap16(offset) == offset
            && Wrap16(up.count - offset) == up.End() - cursor.nextAddress > 0
            && Wrap16(down.start + offset) == down.start + offset
            && (Plannable(planner, cursor) <==> limit > 0)
            && (limit > 0 ==>
                  && RouteOf(planner.routes, table, cursor.nextAddress) == i
                  && QuantityAt(planner, cursor)
                     == Min(Min(cursor.remaining, up.End() - cursor.nextAddress), limit)
                  && Wrap16(cursor.remaining - QuantityAt(planner, cursor))
                     == cursor.remaining - QuantityAt(planner, cursor))
  {
    ValidIsOrdered(planner.routes, TableOf(cursor.work.kind));
    RouteUnique(planner.routes, TableOf(cursor.work.kind), cursor.nextAddress, i);
  }

  /** The fragment is the populated request over its route's geometry. */
  lemma {:induction false} FragmentBuilt(planner: ForwardPlanner, cursor: ForwardCursor, sequence: u32, i: u16)
    requires Plannable(planner, cursor)
    requires RouteOf(planner.routes, TableOf(cursor.work.kind), cursor.nextAddress) == i
    ensures var work, table, q := cursor.work, TableOf(cursor.work.kind), QuantityAt(planner, cursor);
            var route := planner.routes.routes[i];
            var start := Wrap16(route.Down(table).start + (cursor.nextAddress - route.Up(table).start));
            FragmentAt(planner, cursor, sequence)
            == Populated(work.kind, work.snapshot.data.Plus(cursor.sourceOffset), q,
                         NO_WRITE.(identity := RequestIdentity(work.identity, sequence, cursor.fragmentIndex),
                                   delivery := work.delivery, table := table, routeIndex := i,
                                   endpointId := route.endpointId, upstreamStart := cursor.nextAddress,
                                   downstreamStart := start, quantity := q, sourceOffset := cursor.sourceOffset,
                                   finalFragment := q == cursor.remaining))
  {
    FragmentGeometry(planner, cursor, i);
  }

  method Next(planner: ForwardPlanner, cursor: ForwardCursor, sequence: u32)
    returns (status: ForwardNextStatus, next: ForwardCursor, request: PlannedWrite)
    requires Usable(planner.routes) && Readable(cursor)
    ensures status == NextStatus(planner, cursor, sequence)
    ensures match status
            case Planned =>
              request == FragmentAt(planner, cursor, sequence) && next == CursorAfterFragment(planner, cursor)
            case PlanComplete => request == NO_WRITE && next == cursor.(active := false)
            case InvalidSequence => request == NO_WRITE && next == cursor
            case TopologyChanged => request == NO_WRITE && next == cursor.(active := false, remaining := 0)
  {
    hide FragmentAt, QuantityAt, Populated, Validated, LocateOutcome, Covers, Wrap16;
    request := NO_WRITE;
    next := cursor;
    if !cursor.active || cursor.remaining == 0 {
      next := next.(active := false);
      return PlanComplete, next, request;
    }
    if sequence == 0 && cursor.work.identity.Valid() {
      return InvalidSequence, next, request;
    }
    var table := TableOf(cursor.work.kind);
    var located := Locate(planner.routes, table, cursor.nextAddress);
    if !located.Found? {
      next := next.(active := false, remaining := 0);
      return TopologyChanged, next, request;
    }
    FragmentGeometry(planner, cursor, located.index);
    hide Plannable;
    var route := planner.routes.routes[located.index];
    var upstream, downstream := route.Up(table), route.Down(table);
    var routeOffset := Wrap16(cursor.nextAddress - upstream.start);
    var routeAvailable := Wrap16(upstream.count - routeOffset);
    var maxQuantity := planner.Limit(cursor.work.kind);
    var quantity := if cursor.remaining < routeAvailable then cursor.remaining else routeAvailable;
    if quantity > maxQuantity {
      quantity := maxQuantity;
    }
    if quantity == 0 {
      next := next.(active := false, remaining := 0);
      return TopologyChanged, next, request;
    }
    request := request.(identity := RequestIdentity(cursor.work.identity, sequence, cursor.fragmentIndex));
    request := request.(delivery := cursor.work.delivery, table := table);
    request := request.(routeIndex := located.index, endpointId := route.endpointId);
    request := request.(upstreamStart := cursor.nextAddress);
    request := request.(downstreamStart := Wrap16(downstream.start + routeOffset));
    request := request.(quantity := quantity, sourceOffset := cursor.sourceOffset);
    request := request.(finalFragment := cursor.remaining == quantity);
    request := PopulatePayload(
      cursor.work.kind, cursor.work.snapshot.data.Plus(cursor.sourceOffset), quantity, request);
    FragmentBuilt(planner, cursor, sequence, located.index);

    next := next.(nextAddress := Wrap16(next.nextAddress + quantity));
    next := next.(remaining := Wrap16(next.remaining - quantity));
    next := next.(sourceOffset := Wrap16(next.sourceOffset + quantity));
    next := next.(fragmentIndex := Wrap16(next.fragmentIndex + 1));
    if next.remaining == 0 {
      next := next.(active := false);
    }
    return Planned, next, request;
  }

  // ----- the plan of a cursor -----

  /** The uninterrupted plan from a cursor, with its requests left unnumbered. */
  ghost function Plan(planner: ForwardPlanner, cursor: ForwardCursor): seq<PlannedWrite>
    decreases cursor.remaining
  {
    if !Plannable(planner, cursor) then []
    else [FragmentAt(planner, cursor, 0)] + Plan(planner, CursorAfterFragment(planner, cursor))
  }

  function Unnumbered(request: PlannedWrite): PlannedWrite {
    request.(identity := request.identity.(requestSequence := 0))
  }

  /** A position that iterating `Next` from a Ready start can reach. */
  ghost predicate OnPlan(planner: ForwardPlanner, cursor: ForwardCursor) {
    var work := cursor.work;
    && Usable(planner.routes)
    && BeginStatus(planner, work).Ready?
    && (cursor.active <==> cursor.remaining > 0)
    && cursor.sourceOffset + cursor.remaining == work.count
    && cursor.nextAddress == Wrap16(work.start + cursor.sourceOffset)
    && cursor.fragmentIndex <= cursor.sourceOffset
  }

  lemma {:induction false} StartIsOnPlan(planner: ForwardPlanner, work: IngressWork)
    requires Usable(planner.routes) && BeginStatus(planner, work).Ready?
    ensures OnPlan(planner, StartCursor(work))
  {}

  /** Along a plan every fragment is planned: the topology never seems to change and no 16-bit
      value wraps before the plan ends. */
  lemma {:induction false} OnPlanStep(planner: ForwardPlanner, cursor: ForwardCursor)
    requires OnPlan(planner, cursor) && cursor.active
    ensures Plannable(planner, cursor)
    ensures cursor.nextAddress == cursor.work.start + cursor.sourceOffset
    ensures forall sequence: u32 ::
              NextStatus(planner, cursor, sequence)
              == var work := cursor.work.identity;
                 if sequence == 0 && work.sourceToken != 0 && work.sessionGeneration != 0 then InvalidSequence
                 else Planned
    ensures var next, q := CursorAfterFragment(planner, cursor), QuantityAt(planner, cursor);
            && OnPlan(planner, next)
            && next.sourceOffset == cursor.sourceOffset + q
            && next.fragmentIndex == cursor.fragmentIndex + 1
            && (next.active ==> next.nextAddress == cursor.nextAddress + q)
  {
    var table := TableOf(cursor.work.kind);
    assert Routed(planner.routes, table, cursor.nextAddress);
  }

  /** A plan is its first fragment and the plan from the next position. */
  lemma {:induction false} PlanUnfolds(planner: ForwardPlanner, cursor: ForwardCursor)
    requires OnPlan(planner, cursor)
    ensures !cursor.active ==> Plan(planner, cursor) == [] && !Plannable(planner, cursor)
    ensures cursor.active ==>
              && Plannable(planner, cursor)
              && OnPlan(planner, CursorAfterFragment(planner, cursor))
              && Plan(planner, cursor)
                 == [FragmentAt(planner, cursor, 0)] + Plan(planner, CursorAfterFragment(planner, cursor))
  {
    if cursor.active {
      OnPlanStep(planner, cursor);
    }
  }

  ghost function CursorAfter(planner: ForwardPlanner, cursor: ForwardCursor, fragments: nat): ForwardCursor
    decreases fragments
  {
    if fragments == 0 || !Plannable(planner, cursor) then cursor
    else CursorAfter(planner, CursorAfterFragment(planner, cursor), fragments - 1)
  }

  /** Where a plan is after `k` fragments: still on the plan, with exactly the rest of it to come. */
  lemma {:induction false} PlanAfter(planner: ForwardPlanner, cursor: ForwardCursor, k: nat)
    requires OnPlan(planner, cursor) && k <= |Plan(planner, cursor)|
    ensures var after := CursorAfter(planner, cursor, k);
            && OnPlan(planner, after)
            && after.work == cursor.work
            && Plan(planner, after) == Plan(planner, cursor)[k..]
            && (after.active <==> k < |Plan(planner, cursor)|)
    decreases k
  {
    hide Plannable, OnPlan, Plan;
    PlanUnfolds(planner, cursor);
    if k == 0 {
    } else {
      PlanAfter(planner, CursorAfterFragment(planner, cursor), k - 1);
    }
  }

  lemma {:induction false} CursorAfterOneMore(planner: ForwardPlanner, cursor: ForwardCursor, k: nat)
    requires OnPlan(planner, cursor) && Plannable(planner, CursorAfter(planner, cursor, k))
    ensures CursorAfter(planner, cursor, k + 1) == CursorAfterFragment(planner, CursorAfter(planner, cursor, k))
    decreases k
  {
    if k == 0 {
    } else {
      assert Plannable(planner, cursor);
      OnPlanStep(planner, cursor);
      CursorAfterOneMore(planner, CursorAfterFragment(planner, cursor), k - 1);
    }
  }
}
