/** Which options, ranges and payload govern the plan of which work. */
module PlanOptions {
  import opened Words
  import opened IngressWork
  import opened RouteTable
  import opened RouteSplit
  import opened DownstreamExecutor
  import opened ForwardPlan
  import opened ForwardMeaning

  // ----- what a work needs to be planned -----

  /** The upstream and downstream ranges of a route that works of this kind use. */
  function OwnUp(route: EndpointRoute, kind: ValueKind): AddressRange {
    match kind
    case CoilValues => route.upstream.coils
    case HoldingValues => route.upstream.holding
  }

  function OwnDown(route: EndpointRoute, kind: ValueKind): AddressRange {
    match kind
    case CoilValues => route.downstream.coils
    case HoldingValues => route.downstream.holding
  }

  function OwnLimit(options: ForwardPlanOptions, kind: ValueKind): u16 {
    match kind
    case CoilValues => options.maxCoilsPerRequest
    case HoldingValues => options.maxHoldingRegistersPerRequest
  }

  /** Route `i` maps `count` addresses from `start` on. */
  predicate Maps(view: RouteTableView, kind: ValueKind, i: int, start: int, count: int) {
    0 <= i < |view.routes| && count > 0 &&
    var range := OwnUp(view.routes[i], kind);
    range.start <= start && start + count <= range.start + range.count
  }

  ghost predicate Mapped(view: RouteTableView, kind: ValueKind, address: int) {
    exists i :: Maps(view, kind, i, address, 1)
  }

  ghost predicate MappedTogether(view: RouteTableView, kind: ValueKind, start: int, count: int) {
    exists i :: Maps(view, kind, i, start, count)
  }

  predicate Accepts(delivery: IngressDelivery) {
    delivery.Tracked? || delivery.SilentOrdered? || delivery.LatestState?
  }

  predicate InSpace(work: IngressWork) {
    Accepts(work.delivery) && work.count != 0 && work.start + work.count <= 0x1_0000
  }

  predicate WithSnapshot(work: IngressWork) {
    InSpace(work) && work.snapshot.data.Buffer? && work.snapshot.count == work.count
  }

  predicate WithLimit(planner: ForwardPlanner, work: IngressWork) {
    WithSnapshot(work) && OwnLimit(planner.options, work.kind) != 0
  }

  /** All but the span policy is in order. */
  ghost predicate Presentable(planner: ForwardPlanner, work: IngressWork) {
    WithLimit(planner, work) &&
    forall a | work.start <= a < work.start + work.count :: Mapped(planner.routes, work.kind, a)
  }

  lemma {:induction false} OwnRanges(view: RouteTableView, kind: ValueKind, i: int, address: int)
    ensures Covers(view, TableOf(kind), address, i) <==> Maps(view, kind, i, address, 1)
  {}

  lemma {:induction false} OwnRouted(view: RouteTableView, kind: ValueKind, address: int)
    ensures Routed(view, TableOf(kind), address) <==> Mapped(view, kind, address)
  {
    hide Covers, Maps;
    if i :| Covers(view, TableOf(kind), address, i) {
      OwnRanges(view, kind, i, address);
    }
    if i :| Maps(view, kind, i, address, 1) {
      OwnRanges(view, kind, i, address);
    }
  }

  lemma {:induction false} OwnSpan(view: RouteTableView, kind: ValueKind, start: int, count: int)
    ensures SpanRouted(view, TableOf(kind), start, count)
            <==> forall a | start <= a < start + count :: Mapped(view, kind, a)
  {
    hide Routed, Mapped;
    forall a
      ensures Routed(view, TableOf(kind), a) <==> Mapped(view, kind, a)
    {
      OwnRouted(view, kind, a);
    }
    if forall a | start <= a < start + count :: Mapped(view, kind, a) {
      assert forall a | start <= a < start + count :: Mapped(view, kind, a) && Routed(view, TableOf(kind), a);
    }
    if SpanRouted(view, TableOf(kind), start, count) {
      assert forall a | start <= a < start + count :: Routed(view, TableOf(kind), a) && Mapped(view, kind, a);
    }
  }

  lemma {:induction false} OwnInside(view: RouteTableView, kind: ValueKind, start: int, count: int)
    requires count > 0
    ensures InsideOneRoute(view, TableOf(kind), start, count) <==> MappedTogether(view, kind, start, count)
  {
    if i :| Covers(view, TableOf(kind), start, i) && start + count <= view.routes[i].Up(TableOf(kind)).End() {
      assert Maps(view, kind, i, start, count);
    }
    if i :| Maps(view, kind, i, start, count) {
      assert Covers(view, TableOf(kind), start, i);
    }
  }

  /** Each refusal, up to the span policy, says how far the work got. */
  lemma {:induction false} RefusedExactly(planner: ForwardPlanner, work: IngressWork)
    ensures var status := BeginStatus(planner, work);
            && (status.NotAccepted? <==> !Accepts(work.delivery))
            && (status.EmptyWork? <==> Accepts(work.delivery) && work.count == 0)
            && (status.WorkOverflow? <==> Accepts(work.delivery) && work.count != 0 && !InSpace(work))
            && (status.InvalidWork? <==> InSpace(work) && !WithSnapshot(work))
            && (status.InvalidLimits? <==> WithSnapshot(work) && !WithLimit(planner, work))
            && (status.WorkGap? <==> WithLimit(planner, work) && !Presentable(planner, work))
            && (status.Ready? || status.MultipleEndpointsNotAllowed? || status.InvalidPolicy?
                <==> Presentable(planner, work))
  {
    hide InsideOneRoute, SpanRouted, Mapped;
    OwnSpan(planner.routes, work.kind, work.start, work.count);
  }

  // ----- which span policy -----

  /** The option that governs a delivery. */
  predicate Governs(options: ForwardPlanOptions, delivery: IngressDelivery, policy: ForwardSpanPolicy) {
    || ((delivery.Tracked? || delivery.SilentOrdered?) && policy == options.orderedSpanPolicy)
    || (delivery.LatestState? && policy == options.latestStateSpanPolicy)
  }

  /** The ordered option governs tracked and silent works, the latest-state option the others: under
      PreflightAndSplit such a work is always Ready, under SingleEndpoint exactly if one route contains
      it, and otherwise the refusal names the policy. */
  lemma {:induction false} PolicyDecides(planner: ForwardPlanner, work: IngressWork, policy: ForwardSpanPolicy)
    requires Presentable(planner, work) && Governs(planner.options, work.delivery, policy)
    ensures var status := BeginStatus(planner, work);
            match policy
            case PreflightAndSplit => status.Ready?
            case SingleEndpoint =>
              status == if MappedTogether(planner.routes, work.kind, work.start, work.count) then Ready
                        else MultipleEndpointsNotAllowed
            case UnknownPolicy(_) => status.InvalidPolicy?
  {
    hide InsideOneRoute, SpanRouted, Mapped, MappedTogether;
    OwnSpan(planner.routes, work.kind, work.start, work.count);
    OwnInside(planner.routes, work.kind, work.start, work.count);
  }

  /** Under SingleEndpoint every fragment of a Ready plan goes through the same route to the same
      endpoint. */
  lemma {:induction false} SingleEndpointPlan(planner: ForwardPlanner, work: IngressWork, j: nat, k: nat)
    requires Usable(planner.routes) && BeginStatus(planner, work).Ready?
    requires Governs(planner.options, work.delivery, SingleEndpoint)
    requires j < |Plan(planner, StartCursor(work))| && k < |Plan(planner, StartCursor(work))|
    ensures var plan := Plan(planner, StartCursor(work));
            plan[j].routeIndex == plan[k].routeIndex && plan[j].endpointId == plan[k].endpointId
  {
    hide Plan, Validated, Ordered, PiecesOf, Tiles, RequestsFrom, SpanRouted;
    var table := TableOf(work.kind);
    var i :| Covers(planner.routes, table, work.start, i)
             && work.start + work.count <= planner.routes.routes[i].Up(table).End();
    hide BeginStatus;
    PlanTilesWork(planner, work);
    InOneRoute(planner, work, i, j);
    InOneRoute(planner, work, i, k);
  }

  lemma {:induction false} InOneRoute(planner: ForwardPlanner, work: IngressWork, i: nat, k: nat)
    requires Usable(planner.routes) && BeginStatus(planner, work).Ready? && k < |Plan(planner, StartCursor(work))|
    requires Covers(planner.routes, TableOf(work.kind), work.start, i)
    requires work.start + work.count <= planner.routes.routes[i].Up(TableOf(work.kind)).End()
    ensures Plan(planner, StartCursor(work))[k].routeIndex == i
    ensures Plan(planner, StartCursor(work))[k].endpointId == planner.routes.routes[i].endpointId
  {
    hide Plan, Validated, Ordered, PiecesOf, Tiles, RequestsFrom, BeginStatus;
    var table, start := TableOf(work.kind), StartCursor(work);
    var plan, pieces := Plan(planner, start), PiecesOf(planner, start);
    PlanTilesWork(planner, work);
    TilesDisjoint(pieces, work.start, work.count);
    TilesNonEmpty(pieces, work.start, work.count);
    assert Carries(planner, work, plan[k], pieces[k], k, |plan|);
    ValidIsOrdered(planner.routes, table);
    assert Covers(planner.routes, table, pieces[k].start, i);
    RouteUnique(planner.routes, table, pieces[k].start, i);
    RouteUnique(planner.routes, table, pieces[k].start, plan[k].routeIndex);
  }

  lemma {:induction false} TilesNonEmpty(pieces: seq<Piece>, start: int, count: int)
    requires Tiles(pieces, start, count)
    ensures forall k | 0 <= k < |pieces| :: pieces[k].count >= 1
    decreases |pieces|
  {
    if pieces == [] {
    } else {
      TilesNonEmpty(pieces[1..], start + pieces[0].count, count - pieces[0].count);
      assert forall k | 0 < k < |pieces| :: pieces[k] == pieces[1..][k - 1];
    }
  }

  // ----- which ranges, limit and payload -----

  /** What a fragment takes from its work, its route and the options, field by field. */
  ghost predicate TakesFrom(planner: ForwardPlanner, work: IngressWork, request: PlannedWrite) {
    var start, values, offset := request.upstreamStart, work.snapshot.data, request.upstreamStart - work.start;
    && work.start <= start < start + request.quantity <= work.start + work.count
    && request.delivery == work.delivery
    && request.quantity <= OwnLimit(planner.options, work.kind)
    && request.sourceOffset == offset
    && values.Buffer? && offset < |values.values|
    && Maps(planner.routes, work.kind, request.routeIndex, start, request.quantity)
    && (var route := planner.routes.routes[request.routeIndex];
        && request.endpointId == route.endpointId
        && request.downstreamStart - OwnDown(route, work.kind).start == start - OwnUp(route, work.kind).start)
    && match work.kind
       case CoilValues =>
         && request.table == Coils
         && request.operation == (if request.quantity == 1 then WriteSingleCoil else WriteMultipleCoils)
         && request.coilValues == Buffer.Buffer(values.address + offset, values.values[offset..])
         && request.coilValue == values.values[offset]
         && request.holdingValues.Null?
       case HoldingValues =>
         && request.table == HoldingRegisters
         && request.operation
            == (if request.quantity == 1 then WriteSingleHoldingRegister else WriteMultipleHoldingRegisters)
         && request.holdingValues == Buffer.Buffer(values.address + offset, values.values[offset..])
         && request.holdingValue == values.values[offset]
         && request.coilValues.Null?
  }

  lemma {:induction false} FragmentTakes(planner: ForwardPlanner, cursor: ForwardCursor, sequence: u32)
    requires OnPlan(planner, cursor) && Plannable(planner, cursor)
    ensures TakesFrom(planner, cursor.work, FragmentAt(planner, cursor, sequence))
  {
    OnPlanStep(planner, cursor);
    hide Validated, SpanRouted;
    var table := TableOf(cursor.work.kind);
    var i := RouteOf(planner.routes, table, cursor.nextAddress);
    OwnRanges(planner.routes, cursor.work.kind, i, cursor.nextAddress);
    ValidIsOrdered(planner.routes, table);
  }

  /** Every fragment of a plan takes from its own kind's ranges, limit and table, and from its own slice
      of the snapshot. */
  lemma {:induction false} PlanTakes(planner: ForwardPlanner, cursor: ForwardCursor)
    requires OnPlan(planner, cursor)
    ensures forall k | 0 <= k < |Plan(planner, cursor)| :: TakesFrom(planner, cursor.work, Plan(planner, cursor)[k])
    decreases cursor.remaining
  {
    hide OnPlan, Plannable, Plan, TakesFrom;
    PlanUnfolds(planner, cursor);
    if !cursor.active {
    } else {
      var next := CursorAfterFragment(planner, cursor);
      FragmentTakes(planner, cursor, 0);
      OnPlanStep(planner, cursor);
      PlanTakes(planner, next);
    }
  }
}
