/** What a plan means: its shape over the upstream span, and its effect on endpoint memories. */
module ForwardMeaning {
  import opened Words
  import opened IngressWork
  import opened RouteTable
  import opened RouteSplit
  import opened DownstreamExecutor
  import opened ForwardPlan

  // ----- shape -----

  /** The upstream address a cursor stands at, before any 16-bit narrowing. */
  function Position(cursor: ForwardCursor): nat {
    cursor.work.start + cursor.sourceOffset
  }

  ghost function PiecesOf(planner: ForwardPlanner, cursor: ForwardCursor): seq<Piece> {
    Pieces(planner.routes, TableOf(cursor.work.kind), planner.Limit(cursor.work.kind), Position(cursor),
        cursor.remaining)
  }

  /** What fragment number `k` of a plan of `total` fragments says about its piece of the span. */
  ghost predicate Carries(
    planner: ForwardPlanner, work: IngressWork, request: PlannedWrite, piece: Piece, index: int, total: int)
  {
    var table := TableOf(work.kind);
    && request.identity.work == work.identity
    && request.identity.fragmentIndex == index
    && request.delivery == work.delivery
    && request.table == table
    && request.upstreamStart == piece.start
    && request.quantity == piece.count
    && request.sourceOffset == piece.start - work.start
    && request.quantity <= planner.Limit(work.kind)
    && (request.finalFragment <==> index == total - 1)
    && Covers(planner.routes, table, piece.start, request.routeIndex)
    && Covers(planner.routes, table, piece.End() - 1, request.routeIndex)
    && var route := planner.routes.routes[request.routeIndex];
       && request.endpointId == route.endpointId
       && request.downstreamStart - route.Down(table).start == request.upstreamStart - route.Up(table).start
       && request.downstreamStart + request.quantity <= route.Down(table).End()
  }

  lemma {:induction false} FirstPiece(planner: ForwardPlanner, cursor: ForwardCursor)
    requires OnPlan(planner, cursor) && cursor.active
    ensures Plannable(planner, cursor)
    ensures PiecesOf(planner, cursor)
            == [Piece(cursor.nextAddress, QuantityAt(planner, cursor))] + PiecesOf(planner,
                CursorAfterFragment(planner, cursor))
  {
    OnPlanStep(planner, cursor);
    var table := TableOf(cursor.work.kind);
    assert SpanRouted(planner.routes, table, Position(cursor), cursor.remaining);
    PiecesUnfold(planner.routes, table, planner.Limit(cursor.work.kind), Position(cursor), cursor.remaining);
  }

  lemma {:induction false} FirstCarries(planner: ForwardPlanner, cursor: ForwardCursor)
    requires OnPlan(planner, cursor) && cursor.active
    ensures Plannable(planner, cursor)
    ensures var q := QuantityAt(planner, cursor);
            Carries(planner, cursor.work, FragmentAt(planner, cursor, 0), Piece(cursor.nextAddress, q),
                    cursor.fragmentIndex, cursor.fragmentIndex + (if q == cursor.remaining then 1 else 2))
  {
    OnPlanStep(planner, cursor);
    hide OnPlan, Validated;
    var table := TableOf(cursor.work.kind);
    ValidIsOrdered(planner.routes, table);
    var i := RouteOf(planner.routes, table, cursor.nextAddress);
    assert Covers(planner.routes, table, cursor.nextAddress + QuantityAt(planner, cursor) - 1, i);
  }

  /** Fragment by fragment, the plan from a cursor is the split of what the cursor has left. */
  lemma {:induction false} PlanIsSplit(planner: ForwardPlanner, cursor: ForwardCursor)
    requires OnPlan(planner, cursor)
    ensures var plan, pieces := Plan(planner, cursor), PiecesOf(planner, cursor);
            && |plan| == |pieces|
            && forall k | 0 <= k < |plan| ::
                 Carries(planner, cursor.work, plan[k], pieces[k], cursor.fragmentIndex + k,
                     cursor.fragmentIndex + |plan|)
    decreases cursor.remaining
  {
    hide OnPlan, Plannable, Plan, PiecesOf, Carries;
    PlanUnfolds(planner, cursor);
    if cursor.active {
      var next := CursorAfterFragment(planner, cursor);
      FirstPiece(planner, cursor);
      FirstCarries(planner, cursor);
      OnPlanStep(planner, cursor);
      PlanIsSplit(planner, next);
      PlanUnfolds(planner, next);
      var plan, pieces := Plan(planner, cursor), PiecesOf(planner, cursor);
      forall k | 0 <= k < |plan|
        ensures Carries(planner, cursor.work, plan[k], pieces[k], cursor.fragmentIndex + k,
            cursor.fragmentIndex + |plan|)
      {
        if k > 0 {
          assert plan[k] == Plan(planner, next)[k - 1] && pieces[k] == PiecesOf(planner, next)[k - 1];
        } else {
          OnlyFinalIndexMatters(planner, cursor.work, plan[0], pieces[0], cursor.fragmentIndex,
                                cursor.fragmentIndex + (if QuantityAt(planner, cursor)
                                    == cursor.remaining then 1 else 2),
                                cursor.fragmentIndex + |plan|);
        }
      }
    } else {
      InactiveHasNoPieces(planner, cursor);
    }
  }

  lemma {:induction false} OnlyFinalIndexMatters(
    planner: ForwardPlanner, work: IngressWork, request: PlannedWrite, piece: Piece, index: int, a: int, b: int)
    requires Carries(planner, work, request, piece, index, a) && (index == a - 1 <==> index == b - 1)
    ensures Carries(planner, work, request, piece, index, b)
  {}

  lemma {:induction false} InactiveHasNoPieces(planner: ForwardPlanner, cursor: ForwardCursor)
    requires OnPlan(planner, cursor) && !cursor.active
    ensures PiecesOf(planner, cursor) == []
  {}

  lemma {:induction false} ReadySpan(planner: ForwardPlanner, work: IngressWork)
    requires Usable(planner.routes) && BeginStatus(planner, work).Ready?
    ensures OnPlan(planner, StartCursor(work))
    ensures Ordered(planner.routes, TableOf(work.kind))
    ensures SpanRouted(planner.routes, TableOf(work.kind), work.start, work.count)
    ensures planner.Limit(work.kind) > 0
    ensures work.snapshot.data.Buffer? && work.count <= |work.snapshot.data.values|
  {}

  /** The shape of a Ready plan: its fragments carry, in order and numbered from zero, pieces that
      tile exactly the work's span, each of them inside one route; there are as many of them as the
      crossed routes need, and no legal split of the span has fewer. */
  lemma {:induction false} PlanTilesWork(planner: ForwardPlanner, work: IngressWork)
    requires Usable(planner.routes) && BeginStatus(planner, work).Ready?
    ensures var plan, pieces := Plan(planner, StartCursor(work)), PiecesOf(planner, StartCursor(work));
            var table, limit := TableOf(work.kind), planner.Limit(work.kind);
            && |plan| == |pieces| == RequestsFrom(planner.routes, table, limit, work.start, work.start + work.count, 0)
            && Tiles(pieces, work.start, work.count)
            && forall k | 0 <= k < |plan| :: Carries(planner, work, plan[k], pieces[k], k, |plan|)
  {
    hide Plan, Pieces, Carries, Tiles, RequestsFrom, OnPlan, BeginStatus, Ordered;
    var start, table, limit := StartCursor(work), TableOf(work.kind), planner.Limit(work.kind);
    ReadySpan(planner, work);
    PlanIsSplit(planner, start);
    PiecesTile(planner.routes, table, limit, work.start, work.count);
    assert work.start + work.count - work.start == work.count;
    PieceCount(planner.routes, table, limit, work.start, work.start + work.count);
  }

  lemma {:induction false} PlanIsMinimal(planner: ForwardPlanner, work: IngressWork, other: seq<Piece>)
    requires Usable(planner.routes) && BeginStatus(planner, work).Ready?
    requires Tiles(other, work.start, work.count)
    requires forall piece | piece in other ::
               Legal(planner.routes, TableOf(work.kind), planner.Limit(work.kind), piece)
    ensures |Plan(planner, StartCursor(work))| <= |other|
  {
    hide Plan, Pieces, Carries, Tiles, Legal, OnPlan, BeginStatus, Ordered;
    var table := TableOf(work.kind);
    ReadySpan(planner, work);
    PlanIsSplit(planner, StartCursor(work));
    assert work.start + work.count - work.start == work.count;
    SplitIsMinimal(planner.routes, table, planner.Limit(work.kind), work.start, work.start + work.count, other);
  }

  // ----- effect -----

  /** The wire request of a planned write. */
  function DownstreamRequestFor(planned: PlannedWrite, consistencyContext: Handle): DownstreamRequest {
    DownstreamRequest(
      planned.identity.requestSequence,
      planned.operation,
      planned.endpointId,
      planned.downstreamStart,
      planned.quantity,
      planned.coilValues,
      planned.holdingValues,
      planned.coilValue,
      planned.holdingValue,
      consistencyContext)
  }

  /** A register of one endpoint. Two routes may name the same endpoint, so locations may alias. */
  datatype Location = Location(endpointId: u8, kind: ValueKind, address: int)

  type Memory = map<Location, Value>

  /** A device stores consecutive values from a start address. */
  function Store(memory: Memory, endpointId: u8, kind: ValueKind, start: int, values: seq<Value>): Memory
    decreases |values|
  {
    if values == [] then memory else
      Store(memory[Location(endpointId, kind, start) := values[0]], endpointId, kind, start + 1, values[1..])
  }

  function Payload(buffer: Buffer, quantity: nat): seq<Value> {
    if buffer.Null? || |buffer.values| < quantity then [] else buffer.values[..quantity]
  }

  /** What a device does with a standard write; reads change no register. */
  function Execute(memory: Memory, request: DownstreamRequest): Memory {
    match request.operation
    case WriteSingleCoil =>
      memory[Location(request.endpointId, CoilValues, request.startAddress) := request.coilValue]
    case WriteSingleHoldingRegister =>
      memory[Location(request.endpointId, HoldingValues, request.startAddress) := request.registerValue]
    case WriteMultipleCoils =>
      Store(memory, request.endpointId, CoilValues, request.startAddress,
            Payload(request.coilBuffer, request.quantity))
    case WriteMultipleHoldingRegisters =>
      Store(memory, request.endpointId, HoldingValues, request.startAddress,
            Payload(request.registerBuffer, request.quantity))
    case _ => memory
  }

  /** Polls are exactly the known operations that leave every register as it is whatever they carry. */
  lemma {:induction false} PollsOnlyRead(request: DownstreamRequest)
    requires !request.operation.UnknownOperation?
    ensures IsPollOperation(request.operation)
            <==> forall quantity: u16, buffer: Buffer, memory: Memory ::
                   Execute(memory, request.(quantity := quantity, coilBuffer := buffer, registerBuffer := buffer))
                   == memory
  {
    if !IsPollOperation(request.operation) {
      var values := [Bit(true)];
      var carried := request.(quantity := 1, coilBuffer := Buffer.Buffer(0, values),
                              registerBuffer := Buffer.Buffer(0, values));
      assert Payload(carried.coilBuffer, 1) == values;
      StoreOne(map[], request.endpointId, CoilValues, request.startAddress, Bit(true));
      StoreOne(map[], request.endpointId, HoldingValues, request.startAddress, Bit(true));
      var kind := if IsCoilOperation(request.operation) then CoilValues else HoldingValues;
      assert Location(request.endpointId, kind, request.startAddress) in Execute(map[], carried);
    }
  }

  function ExecuteAll(memory: Memory, plan: seq<PlannedWrite>): Memory
    decreases |plan|
  {
    if plan == [] then memory
    else ExecuteAll(Execute(memory, DownstreamRequestFor(plan[0], NULL_HANDLE)), plan[1..])
  }

  /** Where one upstream address lives downstream. */
  ghost function Translate(view: RouteTableView, kind: ValueKind, address: int): Location
    requires Routed(view, TableOf(kind), address)
  {
    var route := view.routes[RouteOf(view, TableOf(kind), address)];
    Location(route.endpointId, kind, route.Down(TableOf(kind)).start + (address - route.Up(TableOf(kind)).start))
  }

  /** The reference: each upstream address written through its own translation, in ascending order. */
  ghost function WriteEach(
    view: RouteTableView, kind: ValueKind, memory: Memory, address: int, values: seq<Value>): Memory
    decreases |values|
  {
    if values == [] || !Routed(view, TableOf(kind), address) then memory else
      WriteEach(view, kind, memory[Translate(view, kind, address) := values[0]], address + 1, values[1..])
  }

  lemma {:induction false} WriteEachConcat(
    view: RouteTableView, kind: ValueKind, memory: Memory, address: int, first: seq<Value>, second: seq<Value>)
    requires SpanRouted(view, TableOf(kind), address, |first|)
    ensures WriteEach(view, kind, memory, address, first + second)
            == WriteEach(view, kind, WriteEach(view, kind, memory, address, first), address + |first|, second)
    decreases |first|
  {
    if first == [] {
      assert first + second == second;
    } else {
      assert Routed(view, TableOf(kind), address);
      assert (first + second)[1..] == first[1..] + second;
      WriteEachConcat(view, kind, memory[Translate(view, kind, address) := first[0]], address + 1, first[1..], second);
    }
  }

  /** Inside one route, a device's consecutive store is the translated write of each address. */
  lemma {:induction false} StoreIsWriteEach(
    view: RouteTableView, kind: ValueKind, memory: Memory, address: int, values: seq<Value>, i: nat)
    requires Ordered(view, TableOf(kind)) && i < |view.routes|
    requires forall a | address <= a < address + |values| :: Covers(view, TableOf(kind), a, i)
    ensures var route, table := view.routes[i], TableOf(kind);
            Store(memory, route.endpointId, kind, route.Down(table).start + (address - route.Up(table).start), values)
            == WriteEach(view, kind, memory, address, values)
    decreases |values|
  {
    if values == [] {
    } else {
      RouteUnique(view, TableOf(kind), address, i);
      StoreIsWriteEach(view, kind, memory[Translate(view, kind, address) := values[0]], address + 1, values[1..], i);
    }
  }

  /** The values a cursor still has to send. */
  function Remaining(cursor: ForwardCursor): seq<Value>
    requires Readable(cursor)
  {
    if !cursor.active then []
    else if cursor.remaining == 0 then []
    else cursor.work.snapshot.data.values[cursor.sourceOffset..cursor.sourceOffset + cursor.remaining]
  }

  /** Whatever a request held before, once populated it travels as a valid wire request that stores
      exactly the first `quantity` values of its slice, whether by the single or the multiple
      operation; a single write carries its value with it and needs no buffer. */
  lemma {:induction false} PopulatedMeans(
    kind: ValueKind, values: Buffer, quantity: u16, request: PlannedWrite, context: Handle, memory: Memory)
    requires values.Buffer? && 1 <= quantity <= |values.values| && request.quantity == quantity
    ensures var wire := DownstreamRequestFor(Populated(kind, values, quantity, request), context);
            && ValidateDownstreamRequest(wire).ValidRequest?
            && Execute(memory, wire)
               == Store(memory, request.endpointId, kind, request.downstreamStart, values.values[..quantity])
            && (quantity == 1 ==>
                  Execute(memory, wire.(coilBuffer := Null, registerBuffer := Null)) == Execute(memory, wire))
  {
    if quantity == 1 {
      assert values.values[..1] == [values.values[0]];
      StoreOne(memory, request.endpointId, kind, request.downstreamStart, values.values[0]);
    }
  }

  lemma {:induction false} SliceOfSlice(values: seq<Value>, offset: nat, remaining: nat, q: nat)
    requires offset + remaining <= |values| && q <= remaining
    ensures values[offset..][..q] == values[offset..offset + remaining][..q] == values[offset..offset + q]
  {}

  /** One fragment writes its own addresses, each through its translation, and is a valid request. */
  lemma {:induction false} FragmentMeans(planner: ForwardPlanner, cursor: ForwardCursor, sequence: u32,
      context: Handle, memory: Memory)
    requires Plannable(planner, cursor)
    ensures var request := DownstreamRequestFor(FragmentAt(planner, cursor, sequence), context);
            && ValidateDownstreamRequest(request).ValidRequest?
            && Execute(memory, request)
               == WriteEach(planner.routes, cursor.work.kind, memory, cursor.nextAddress,
                            Remaining(cursor)[..QuantityAt(planner, cursor)])
  {
    var kind, table, q := cursor.work.kind, TableOf(cursor.work.kind), QuantityAt(planner, cursor);
    ValidIsOrdered(planner.routes, table);
    ChunkInRoute(planner.routes, table, planner.Limit(kind), cursor.nextAddress, cursor.remaining);
    var values, i := Remaining(cursor)[..q], RouteOf(planner.routes, table, cursor.nextAddress);
    forall a | cursor.nextAddress <= a < cursor.nextAddress + q
      ensures Covers(planner.routes, table, a, i)
    {
      assert RouteOf(planner.routes, table, a) == i;
    }
    StoreIsWriteEach(planner.routes, kind, memory, cursor.nextAddress, values, i);
    var payload, request := cursor.work.snapshot.data.Plus(cursor.sourceOffset), FragmentAt(planner, cursor, sequence);
    SliceOfSlice(cursor.work.snapshot.data.values, cursor.sourceOffset, cursor.remaining, q);
    assert payload.values[..q] == values;
    assert request == Populated(kind, payload, q, request);
    PopulatedMeans(kind, payload, q, request, context, memory);
  }

  lemma {:induction false} StoreOne(memory: Memory, endpointId: u8, kind: ValueKind, start: int, value: Value)
    ensures Store(memory, endpointId, kind, start, [value]) == memory[Location(endpointId, kind, start) := value]
  {
    assert [value][1..] == [];
  }

  lemma {:induction false} RemainingSplits(planner: ForwardPlanner, cursor: ForwardCursor)
    requires OnPlan(planner, cursor) && cursor.active
    ensures Readable(cursor) && Plannable(planner, cursor)
    ensures var next, q := CursorAfterFragment(planner, cursor), QuantityAt(planner, cursor);
            && Readable(next)
            && next.work == cursor.work
            && next.remaining < cursor.remaining
            && Position(cursor) == cursor.nextAddress
            && Position(next) == Position(cursor) + q
            && |Remaining(cursor)| == cursor.remaining
            && Remaining(cursor) == Remaining(cursor)[..q] + Remaining(next)
  {
    OnPlanStep(planner, cursor);
  }

  lemma {:induction false} ExecuteAllFirst(memory: Memory, first: PlannedWrite, rest: seq<PlannedWrite>)
    ensures ExecuteAll(memory, [first] + rest)
        == ExecuteAll(Execute(memory, DownstreamRequestFor(first, NULL_HANDLE)), rest)
  {
    assert ([first] + rest)[1..] == rest;
  }

  lemma {:induction false} PlanMeans(planner: ForwardPlanner, cursor: ForwardCursor, memory: Memory)
    requires OnPlan(planner, cursor)
    ensures Readable(cursor)
    ensures ExecuteAll(memory, Plan(planner, cursor))
            == WriteEach(planner.routes, cursor.work.kind, memory, Position(cursor), Remaining(cursor))
    decreases cursor.remaining
  {
    hide *;
    PlanUnfolds(planner, cursor);
    SpanAhead(planner, cursor);
    if cursor.active {
      RemainingSplits(planner, cursor);
      OnPlanStep(planner, cursor);
      var next, q, values := CursorAfterFragment(planner, cursor), QuantityAt(planner, cursor), Remaining(cursor);
      var after := Execute(memory, DownstreamRequestFor(FragmentAt(planner, cursor, 0), NULL_HANDLE));
      FragmentMeans(planner, cursor, 0, NULL_HANDLE, memory);
      PlanMeans(planner, next, after);
      ExecuteAllFirst(memory, FragmentAt(planner, cursor, 0), Plan(planner, next));
      WriteEachConcat(planner.routes, cursor.work.kind, memory, Position(cursor), values[..q], Remaining(next));
    } else {
      NothingRemains(planner, cursor, memory);
    }
  }

  lemma {:induction false} NothingRemains(planner: ForwardPlanner, cursor: ForwardCursor, memory: Memory)
    requires !cursor.active
    ensures Remaining(cursor) == [] && ExecuteAll(memory, []) == memory
    ensures WriteEach(planner.routes, cursor.work.kind, memory, Position(cursor), []) == memory
  {}

  lemma {:induction false} SpanAhead(planner: ForwardPlanner, cursor: ForwardCursor)
    requires OnPlan(planner, cursor)
    ensures SpanRouted(planner.routes, TableOf(cursor.work.kind), Position(cursor), cursor.remaining)
    ensures Readable(cursor)
  {}

  /** Splitting preserves meaning: whatever the limit and however the downstream ranges alias, the
      wire requests of a Ready plan, executed in order, leave the endpoints exactly as writing every
      upstream address of the work through its own translation, one at a time in ascending order. */
  lemma {:induction false} SplittingPreservesMeaning(planner: ForwardPlanner, work: IngressWork, memory: Memory)
    requires Usable(planner.routes) && BeginStatus(planner, work).Ready?
    ensures ExecuteAll(memory, Plan(planner, StartCursor(work)))
            == WriteEach(planner.routes, work.kind, memory, work.start, work.snapshot.data.values[..work.count])
  {
    PlanMeans(planner, StartCursor(work), memory);
  }
}
