/** Route and range translation for a flattened register image: table validation, the binary search
    for one address, the whole-span preflight and the segment cursor. */
module RouteTable {
  import opened Words

  datatype RegisterTable = Coils | DiscreteInputs | HoldingRegisters | InputRegisters

  const TABLES: seq<RegisterTable> := [Coils, DiscreteInputs, HoldingRegisters, InputRegisters]

  /** A half-open address range; a zero count means that there is no mapping. */
  datatype AddressRange = AddressRange(start: u16, count: u16) {
    function End(): nat {
      start + count
    }

    predicate Contains(address: int) {
      count != 0 && start <= address < End()
    }
  }

  datatype TableRanges =
    TableRanges(coils: AddressRange, discrete: AddressRange, holding: AddressRange, input: AddressRange)
  {
    function At(table: RegisterTable): AddressRange {
      match table
      case Coils => coils
      case DiscreteInputs => discrete
      case HoldingRegisters => holding
      case InputRegisters => input
    }
  }

  datatype EndpointRoute = EndpointRoute(endpointId: u8, upstream: TableRanges, downstream: TableRanges) {
    function Up(table: RegisterTable): AddressRange {
      upstream.At(table)
    }

    function Down(table: RegisterTable): AddressRange {
      downstream.At(table)
    }
  }

  /** `present` is false for a null storage pointer; the number of routes is a 16-bit count. */
  datatype RawRouteTable = RawRouteTable(present: bool, routes: seq<EndpointRoute>)

  type RouteTableView = v: RawRouteTable | |v.routes| < ADDRESS_SPACE witness RawRouteTable(false, [])

  /** `Locate` indexes routes with a signed 16-bit integer. */
  const MAX_ROUTES: nat := 0x7FFF

  datatype RouteTableStatus = Valid | NullStorage | RangeOverflow | CountMismatch | Unsorted | Overlap

  datatype RoutedSpanStatus = Complete | Empty | AddressOverflow | Gap

  datatype RouteSegment = RouteSegment(
    routeIndex: u16, endpointId: u8, upstreamStart: u16, downstreamStart: u16, count: u16, sourceOffset: u16)

  datatype RouteCursor = RouteCursor(table: RegisterTable, nextAddress: u16, remaining: u16, sourceOffset: u16)

  const NO_CURSOR := RouteCursor(Coils, 0, 0, 0)

  // ----- what a valid table is -----

  predicate SoundRange(route: EndpointRoute, table: RegisterTable) {
    && route.Up(table).count == route.Down(table).count
    && route.Up(table).End() <= ADDRESS_SPACE
    && route.Down(table).End() <= ADDRESS_SPACE
  }

  /** The first `n` routes are sound in `table`, and every range, empty or not, ends at or before
      the start of every later one. */
  ghost predicate OrderedUpTo(routes: seq<EndpointRoute>, table: RegisterTable, n: nat)
    requires n <= |routes|
  {
    && (forall i | 0 <= i < n :: SoundRange(routes[i], table))
    && (forall i, j | 0 <= i < j < n :: routes[i].Up(table).End() <= routes[j].Up(table).start)
  }

  ghost predicate Ordered(view: RouteTableView, table: RegisterTable) {
    OrderedUpTo(view.routes, table, |view.routes|)
  }

  ghost predicate Validated(view: RouteTableView) {
    && (view.routes != [] ==> view.present)
    && forall table :: Ordered(view, table)
  }

  /** Some earlier route starts after route `i` does. */
  ghost predicate StartsBack(routes: seq<EndpointRoute>, table: RegisterTable, i: nat)
    requires i < |routes|
  {
    exists j | 0 <= j < i :: routes[j].Up(table).start > routes[i].Up(table).start
  }

  /** Some earlier route reaches beyond the start of route `i`. */
  ghost predicate StartsInside(routes: seq<EndpointRoute>, table: RegisterTable, i: nat)
    requires i < |routes|
  {
    exists j | 0 <= j < i :: routes[j].Up(table).End() > routes[i].Up(table).start
  }

  /** Why route `i`, the first bad one of `table`, is refused. */
  ghost predicate DefectAt(routes: seq<EndpointRoute>, table: RegisterTable, i: nat, status: RouteTableStatus)
    requires i < |routes|
  {
    var up, down := routes[i].Up(table), routes[i].Down(table);
    var startsBack, startsInside := StartsBack(routes, table, i), StartsInside(routes, table, i);
    match status
    case CountMismatch => up.count != down.count
    case RangeOverflow => up.count == down.count && (up.End() > ADDRESS_SPACE || down.End() > ADDRESS_SPACE)
    case Unsorted => SoundRange(routes[i], table) && (startsBack || (up.count == 0 && startsInside))
    case Overlap => SoundRange(routes[i], table) && !startsBack && up.count != 0 && startsInside
    case _ => false
  }

  /** What the refusals of sound ranges mean: an overlap is an address that two routes share, anything
      else is out of place before or inside an earlier range. */
  lemma {:induction false} DefectMeans(
    routes: seq<EndpointRoute>, table: RegisterTable, i: nat, status: RouteTableStatus)
    requires i < |routes| && DefectAt(routes, table, i, status)
    ensures status.CountMismatch? <==> routes[i].Up(table).count != routes[i].Down(table).count
    ensures status.RangeOverflow? <==>
              && routes[i].Up(table).count == routes[i].Down(table).count
              && (routes[i].Up(table).End() > ADDRESS_SPACE || routes[i].Down(table).End() > ADDRESS_SPACE)
    ensures status.Overlap? ==>
              exists j | 0 <= j < i ::
                && routes[j].Up(table).start <= routes[i].Up(table).start
                && routes[j].Up(table).Contains(routes[i].Up(table).start)
                && routes[i].Up(table).Contains(routes[i].Up(table).start)
    ensures status.Unsorted? ==>
              exists j | 0 <= j < i ::
                || routes[j].Up(table).start > routes[i].Up(table).start
                || (routes[i].Up(table).count == 0 && routes[j].Up(table).Contains(routes[i].Up(table).start))
  {
    if status.Overlap? || (status.Unsorted? && !StartsBack(routes, table, i)) {
      var j :| 0 <= j < i && routes[j].Up(table).End() > routes[i].Up(table).start;
      assert routes[j].Up(table).start <= routes[i].Up(table).start;
    } else if status.Unsorted? {
      var j :| 0 <= j < i && routes[j].Up(table).start > routes[i].Up(table).start;
    }
  }

  /** `status` is the verdict on the first table with a bad route, about that table's first one. */
  ghost predicate FirstDefect(view: RouteTableView, t: nat, i: nat, status: RouteTableStatus) {
    && t < |TABLES|
    && i < |view.routes|
    && (forall k | 0 <= k < t :: Ordered(view, TABLES[k]))
    && OrderedUpTo(view.routes, TABLES[t], i)
    && DefectAt(view.routes, TABLES[t], i, status)
  }

  method Validate(view: RouteTableView) returns (status: RouteTableStatus)
    ensures status == Valid <==> Validated(view)
    ensures status == NullStorage <==> view.routes != [] && !view.present
    ensures status != Valid && status != NullStorage ==> exists t, i :: FirstDefect(view, t, i, status)
  {
    if |view.routes| != 0 && !view.present {
      return NullStorage;
    }
    for t := 0 to |TABLES|
      invariant forall k | 0 <= k < t :: Ordered(view, TABLES[k])
    {
      status := ValidateTable(view, t);
      if status != Valid {
        return;
      }
    }
    forall table: RegisterTable
      ensures Ordered(view, table)
    {
      var k :| 0 <= k < |TABLES| && TABLES[k] == table by { EveryTableListed(table); }
    }
    return Valid;
  }

  lemma {:induction false} EveryTableListed(table: RegisterTable)
    ensures exists k | 0 <= k < |TABLES| :: TABLES[k] == table
  {
    match table
    case Coils => assert TABLES[0] == table;
    case DiscreteInputs => assert TABLES[1] == table;
    case HoldingRegisters => assert TABLES[2] == table;
    case InputRegisters => assert TABLES[3] == table;
  }

  /** The inner loop of the validation: one pass that remembers only the previous start and the
      previous non-empty end. */
  method ValidateTable(view: RouteTableView, t: nat) returns (status: RouteTableStatus)
    requires t < |TABLES|
    requires forall k | 0 <= k < t :: Ordered(view, TABLES[k])
    ensures status != NullStorage
    ensures status == Valid <==> Ordered(view, TABLES[t])
    ensures status != Valid ==> exists i :: FirstDefect(view, t, i, status)
  {
    hide Remembers, OrderedUpTo, DefectAt;
    var table := TABLES[t];
    var routes := view.routes;
    var previousStart: u32, previousPopulatedEnd: u32 := 0, 0;
    var havePreviousRoute, havePreviousPopulated := false, false;
    NothingScanned(routes, table);
    for i := 0 to |routes|
      invariant OrderedUpTo(routes, table, i)
      invariant Remembers(routes, table, i, previousStart, previousPopulatedEnd, havePreviousRoute,
                          havePreviousPopulated)
    {
      var upstream, downstream := routes[i].Up(table), routes[i].Down(table);
      status := Valid;
      if upstream.count != downstream.count {
        status := CountMismatch;
      } else if upstream.End() > ADDRESS_SPACE || downstream.End() > ADDRESS_SPACE {
        status := RangeOverflow;
      } else if havePreviousRoute && upstream.start < previousStart {
        status := Unsorted;
      } else if havePreviousPopulated && upstream.start < previousPopulatedEnd {
        status := if upstream.count == 0 then Unsorted else Overlap;
      }
      RouteScanned(routes, table, i, previousStart, previousPopulatedEnd, havePreviousRoute, havePreviousPopulated,
                   status);
      if status != Valid {
        assert FirstDefect(view, t, i, status);
        DefectBreaksOrder(routes, table, i, status);
        return;
      }
      previousStart := upstream.start;
      havePreviousRoute := true;
      if upstream.count != 0 {
        previousPopulatedEnd := upstream.End();
        havePreviousPopulated := true;
      }
    }
    return Valid;
  }

  /** What the pass remembers of the first `n` routes. */
  ghost predicate Remembers(
    routes: seq<EndpointRoute>, table: RegisterTable, n: nat, previousStart: u32, previousPopulatedEnd: u32,
    havePreviousRoute: bool, havePreviousPopulated: bool)
    requires n <= |routes|
  {
    && (havePreviousRoute <==> n > 0)
    && (n > 0 ==> previousStart == routes[n - 1].Up(table).start)
    && (havePreviousPopulated ==>
          exists j | 0 <= j < n :: routes[j].Up(table).count != 0 && routes[j].Up(table).End() == previousPopulatedEnd)
    && forall j | 0 <= j < n ::
         && routes[j].Up(table).start <= previousStart
         && (routes[j].Up(table).count != 0 ==>
               havePreviousPopulated && routes[j].Up(table).End() <= previousPopulatedEnd)
  }

  lemma {:induction false} NothingScanned(routes: seq<EndpointRoute>, table: RegisterTable)
    ensures OrderedUpTo(routes, table, 0)
    ensures Remembers(routes, table, 0, 0, 0, false, false)
  {}

  /** One iteration: what is remembered decides the verdict on the next route against all before it. */
  lemma {:induction false} RouteScanned(
    routes: seq<EndpointRoute>, table: RegisterTable, i: nat, previousStart: u32, previousPopulatedEnd: u32,
    havePreviousRoute: bool, havePreviousPopulated: bool, status: RouteTableStatus)
    requires i < |routes| && OrderedUpTo(routes, table, i)
    requires Remembers(routes, table, i, previousStart, previousPopulatedEnd, havePreviousRoute, havePreviousPopulated)
    requires var up, down := routes[i].Up(table), routes[i].Down(table);
             status == if up.count != down.count then CountMismatch
                       else if up.End() > ADDRESS_SPACE || down.End() > ADDRESS_SPACE then RangeOverflow
                       else if havePreviousRoute && up.start < previousStart then Unsorted
                       else if havePreviousPopulated && up.start < previousPopulatedEnd then
                         (if up.count == 0 then Unsorted else Overlap)
                       else Valid
    ensures status != Valid ==> DefectAt(routes, table, i, status)
    ensures status == Valid ==>
              && OrderedUpTo(routes, table, i + 1)
              && var up := routes[i].Up(table);
                 Remembers(routes, table, i + 1, up.start, if up.count != 0 then up.End() else previousPopulatedEnd,
                           true, havePreviousPopulated || up.count != 0)
  {
    hide Remembers, OrderedUpTo, StartsBack, StartsInside;
    RememberedDecides(routes, table, i, previousStart, previousPopulatedEnd, havePreviousRoute, havePreviousPopulated);
    if status == Valid {
      OrderExtends(routes, table, i);
      RouteRemembered(routes, table, i, previousStart, previousPopulatedEnd, havePreviousRoute, havePreviousPopulated);
    }
  }

  lemma {:induction false} OrderExtends(routes: seq<EndpointRoute>, table: RegisterTable, i: nat)
    requires i < |routes| && OrderedUpTo(routes, table, i)
    requires SoundRange(routes[i], table) && !StartsInside(routes, table, i)
    ensures OrderedUpTo(routes, table, i + 1)
  {}

  lemma {:induction false} RememberedDecides(
    routes: seq<EndpointRoute>, table: RegisterTable, i: nat, previousStart: u32, previousPopulatedEnd: u32,
    havePreviousRoute: bool, havePreviousPopulated: bool)
    requires i < |routes|
    requires Remembers(routes, table, i, previousStart, previousPopulatedEnd, havePreviousRoute, havePreviousPopulated)
    ensures var start := routes[i].Up(table).start;
            && (StartsBack(routes, table, i) <==> havePreviousRoute && start < previousStart)
            && (!StartsBack(routes, table, i) ==>
                  (StartsInside(routes, table, i) <==> havePreviousPopulated && start < previousPopulatedEnd))
  {}

  lemma {:induction false} RouteRemembered(
    routes: seq<EndpointRoute>, table: RegisterTable, i: nat, previousStart: u32, previousPopulatedEnd: u32,
    havePreviousRoute: bool, havePreviousPopulated: bool)
    requires i < |routes|
    requires Remembers(routes, table, i, previousStart, previousPopulatedEnd, havePreviousRoute, havePreviousPopulated)
    requires !StartsBack(routes, table, i) && !StartsInside(routes, table, i)
    requires routes[i].Up(table).End() <= ADDRESS_SPACE
    ensures var up := routes[i].Up(table);
            Remembers(routes, table, i + 1, up.start, if up.count != 0 then up.End() else previousPopulatedEnd,
                      true, havePreviousPopulated || up.count != 0)
  {
    var up := routes[i].Up(table);
    if up.count != 0 {
      assert routes[i].Up(table).count != 0 && routes[i].Up(table).End() == up.End();
    }
  }

  /** A defect refutes the order of the whole table. */
  lemma {:induction false} DefectBreaksOrder(
    routes: seq<EndpointRoute>, table: RegisterTable, i: nat, status: RouteTableStatus)
    requires i < |routes| && DefectAt(routes, table, i, status)
    ensures !OrderedUpTo(routes, table, |routes|)
  {}

  // ----- one address -----

  /** What every lookup presupposes: a validated table that the signed index can reach. */
  ghost predicate Usable(view: RouteTableView) {
    Validated(view) && |view.routes| <= MAX_ROUTES
  }

  lemma {:induction false} ValidIsOrdered(view: RouteTableView, table: RegisterTable)
    requires Validated(view)
    ensures Ordered(view, table)
  {}

  ghost predicate Covers(view: RouteTableView, table: RegisterTable, address: int, i: int) {
    0 <= i < |view.routes| && view.routes[i].Up(table).Contains(address)
  }

  ghost predicate Routed(view: RouteTableView, table: RegisterTable, address: int) {
    exists i :: Covers(view, table, address, i)
  }

  ghost function RouteOf(view: RouteTableView, table: RegisterTable, address: int): (i: nat)
    requires Routed(view, table, address)
    ensures Covers(view, table, address, i)
  {
    var i :| Covers(view, table, address, i);
    i
  }

  /** In an ordered table an address has at most one route, so `RouteOf` has no choice. */
  lemma {:induction false} RouteUnique(view: RouteTableView, table: RegisterTable, address: int, i: int)
    requires Ordered(view, table) && Covers(view, table, address, i)
    ensures RouteOf(view, table, address) == i
  {
  }

  /** How a lookup ends; reading outside the table has no defined result. */
  datatype Located = Found(index: u16) | NotFound | ReadOutside

  /** A right answer: the route of the address, or that it has none. */
  ghost function RightAnswer(view: RouteTableView, table: RegisterTable, address: int): Located {
    if Routed(view, table, address) then Found(RouteOf(view, table, address)) else NotFound
  }

  /** How the lookup really ends, for every number of routes. */
  ghost function LocateOutcome(view: RouteTableView, table: RegisterTable, address: int): Located {
    var count := |view.routes|;
    if count > MAX_ROUTES + 1 then NotFound
    else if count == MAX_ROUTES + 1 && address >= view.routes[MAX_ROUTES].Up(table).End() then ReadOutside
    else RightAnswer(view, table, address)
  }

  /** The first `n` routes end at or before the address. */
  ghost predicate Below(view: RouteTableView, table: RegisterTable, address: int, n: int) {
    forall i | 0 <= i < n && i < |view.routes| :: view.routes[i].Up(table).End() <= address
  }

  /** Routes `n` and later start after the address. */
  ghost predicate Above(view: RouteTableView, table: RegisterTable, address: int, n: int) {
    forall i | 0 <= n <= i < |view.routes| :: address < view.routes[i].Up(table).start
  }

  /** In an ordered table one comparison with a route settles it for all on its far side. */
  lemma {:induction false} OneSide(view: RouteTableView, table: RegisterTable, address: int, i: nat)
    requires Ordered(view, table) && i < |view.routes|
    ensures address >= view.routes[i].Up(table).End() ==> Below(view, table, address, i + 1)
    ensures address < view.routes[i].Up(table).start ==> Above(view, table, address, i)
  {}

  /** Where the search stands: between two positions, or past the last of 32768 routes with the lower
      position wrapped round, or, with more routes than that, over before it began. */
  ghost predicate Searching(view: RouteTableView, table: RegisterTable, address: int, low: i16, high: i16) {
    if |view.routes| > MAX_ROUTES + 1 then low == 0 && high < 0
    else if low < 0 then
      && low == -0x8000 && high == MAX_ROUTES == |view.routes| - 1
      && Below(view, table, address, MAX_ROUTES + 1)
    else
      && low <= high + 1 <= |view.routes|
      && Below(view, table, address, low)
      && Above(view, table, address, high + 1)
  }

  lemma {:induction false} SearchBegins(view: RouteTableView, table: RegisterTable, address: int)
    ensures Searching(view, table, address, 0, WrapI16(WrapI16(|view.routes|) - 1))
  {}

  /** One probe: outside the storage only past the last of 32768 routes; otherwise either comparison
      halves what is left to search. */
  lemma {:induction false} SearchProbes(view: RouteTableView, table: RegisterTable, address: int, low: i16, high: i16)
    requires Ordered(view, table) && Searching(view, table, address, low, high) && low <= high
    ensures var middle := WrapI16(low + (high - low) / 2);
            if low < 0 then
              Wrap16(middle) >= |view.routes| && LocateOutcome(view, table, address) == ReadOutside
            else
              && Wrap16(middle) == middle < |view.routes|
              && low <= middle <= high
              && WrapI16(middle - 1) == middle - 1
              && (WrapI16(middle + 1) == middle + 1 || WrapI16(middle + 1) < 0)
              && var range := view.routes[middle].Up(table);
                 && (address < range.start ==> Searching(view, table, address, low, WrapI16(middle - 1)))
                 && (address >= range.End() ==> Searching(view, table, address, WrapI16(middle + 1), high))
  {
    var middle := low + (high - low) / 2;
    if low >= 0 {
      OneSide(view, table, address, middle);
      hide Below, Above, Ordered;
    }
  }

  lemma {:induction false} SearchFails(view: RouteTableView, table: RegisterTable, address: int, low: i16, high: i16)
    requires Searching(view, table, address, low, high) && low > high
    ensures LocateOutcome(view, table, address) == NotFound
  {}

  lemma {:induction false} NothingToFind(view: RouteTableView, table: RegisterTable, address: int)
    requires Validated(view) && !view.present
    ensures LocateOutcome(view, table, address) == NotFound
  {}

  lemma {:induction false} SearchFinds(view: RouteTableView, table: RegisterTable, address: int, i: nat)
    requires Ordered(view, table) && |view.routes| <= MAX_ROUTES + 1 && Covers(view, table, address, i)
    ensures LocateOutcome(view, table, address) == Found(i)
  {
    RouteUnique(view, table, address, i);
    assert view.routes[i].Up(table).End() <= view.routes[|view.routes| - 1].Up(table).End();
  }

  method Locate(view: RouteTableView, table: RegisterTable, address: u16) returns (located: Located)
    requires Validated(view)
    ensures located == LocateOutcome(view, table, address)
    ensures Usable(view) ==> located == RightAnswer(view, table, address)
    ensures located.Found? ==> Covers(view, table, address, located.index)
  {
    hide Validated, Ordered, Searching, WrapI16;
    ValidIsOrdered(view, table);
    if !view.present {
      NothingToFind(view, table, address);
      return NotFound;
    }
    var low: i16 := 0;
    var high: i16 := WrapI16(WrapI16(|view.routes|) - 1);
    SearchBegins(view, table, address);
    while low <= high
      invariant Searching(view, table, address, low, high)
      decreases if low < 0 then 0 else high - low + 1
    {
      var middle: i16 := WrapI16(low + (high - low) / 2);
      SearchProbes(view, table, address, low, high);
      if Wrap16(middle) >= |view.routes| {
        return ReadOutside;
      }
      var range := view.routes[Wrap16(middle)].Up(table);
      if address < range.start {
        high := WrapI16(middle - 1);
      } else if address >= range.End() {
        low := WrapI16(middle + 1);
      } else {
        // The source re-tests that the range is not empty; here it cannot be.
        SearchFinds(view, table, address, middle);
        return Found(Wrap16(middle));
      }
    }
    SearchFails(view, table, address, low, high);
    return NotFound;
  }

  /** Lookups answer rightly for every address if and only if the signed index can reach the whole
      table: up to 32767 routes; 32768, if the last one ends with the address space; and more only
      when the table maps nothing. */
  lemma {:induction false} LookupsExact(view: RouteTableView, table: RegisterTable)
    requires Validated(view)
    ensures (forall address: u16 :: LocateOutcome(view, table, address) == RightAnswer(view, table, address))
            <==> || |view.routes| <= MAX_ROUTES
                 || (|view.routes| == MAX_ROUTES + 1 && view.routes[MAX_ROUTES].Up(table).End() == ADDRESS_SPACE)
                 || (|view.routes| > MAX_ROUTES + 1
                     && forall i | 0 <= i < |view.routes| :: view.routes[i].Up(table).count == 0)
  {
    var count := |view.routes|;
    if count == MAX_ROUTES + 1 {
      var end := view.routes[MAX_ROUTES].Up(table).End();
      ValidIsOrdered(view, table);
      if end < ADDRESS_SPACE {
        var address: u16 := end;
        assert LocateOutcome(view, table, address) == ReadOutside;
      } else {
        forall address: u16
          ensures LocateOutcome(view, table, address) == RightAnswer(view, table, address)
        {}
      }
    } else if count > MAX_ROUTES + 1 {
      if i :| 0 <= i < count && view.routes[i].Up(table).count != 0 {
        var address: u16 := view.routes[i].Up(table).start;
        assert Covers(view, table, address, i);
        assert LocateOutcome(view, table, address) != RightAnswer(view, table, address);
      } else {
        forall address: u16
          ensures LocateOutcome(view, table, address) == RightAnswer(view, table, address)
        {}
      }
    }
  }

  /** One register for each of `n` routes, on one endpoint. */
  function LongTable(n: nat): RouteTableView
    requires n < ADDRESS_SPACE
  {
    RawRouteTable(true, seq(n, i requires 0 <= i < n => OneRegisterRoute(i)))
  }

  function OneRegisterRoute(address: u16): EndpointRoute {
    var range := AddressRange(address, 1);
    EndpointRoute(1, TableRanges(range, range, range, range), TableRanges(range, range, range, range))
  }

  /** Tables that validate, and in which the lookup fails: it misses every route of 32769 or more, and
      of 32768 it leaves the storage for every address after them. */
  lemma {:induction false} LongTablesFail(n: nat, table: RegisterTable, address: u16)
    requires MAX_ROUTES < n < ADDRESS_SPACE
    ensures Validated(LongTable(n))
    ensures address < n ==> Routed(LongTable(n), table, address)
    ensures LocateOutcome(LongTable(n), table, address)
            == if n > MAX_ROUTES + 1 then NotFound
               else if address < n then Found(address)
               else ReadOutside
  {
    var view := LongTable(n);
    if address < n {
      assert Covers(view, table, address, address);
    }
  }

  // ----- a whole span -----

  ghost predicate SpanRouted(view: RouteTableView, table: RegisterTable, start: int, count: int) {
    forall address | start <= address < start + count :: Routed(view, table, address)
  }

  ghost function SpanStatus(view: RouteTableView, table: RegisterTable, start: u16, count: u16): RoutedSpanStatus {
    if count == 0 then Empty
    else if start + count > ADDRESS_SPACE then AddressOverflow
    else if SpanRouted(view, table, start, count) then Complete
    else Gap
  }

  /** Each answer about a span, in terms of its addresses. */
  lemma {:induction false} SpanJudgedExactly(view: RouteTableView, table: RegisterTable, start: u16, count: u16)
    ensures var status, inSpace := SpanStatus(view, table, start, count), 0 < count <= 0x1_0000 - start;
            && (status.Empty? <==> count == 0)
            && (status.AddressOverflow? <==> count != 0 && !inSpace)
            && (status.Complete? <==>
                  inSpace && forall address | start <= address < start + count :: Routed(view, table, address))
            && (status.Gap? <==>
                  inSpace && exists address | start <= address < start + count :: !Routed(view, table, address))
  {
    hide Routed;
  }

  /** How far a request of `remaining` registers can run from `address` without leaving its route or
      exceeding `limit`. */
  ghost function Chunk(view: RouteTableView, table: RegisterTable, limit: nat, address: int, remaining: nat): (q: nat)
    requires Routed(view, table, address)
    ensures q <= remaining && q <= limit
    ensures remaining > 0 && limit > 0 ==> q > 0
  {
    Min(Min(remaining, view.routes[RouteOf(view, table, address)].Up(table).End() - address), limit)
  }

  /** A chunk lies in the one route that covers its first address. */
  lemma {:induction false} ChunkInRoute(view: RouteTableView, table: RegisterTable, limit: nat, address: int,
      remaining: nat)
    requires Ordered(view, table) && Routed(view, table, address)
    ensures forall a | address <= a < address + Chunk(view, table, limit, address, remaining) ::
              Routed(view, table, a) && RouteOf(view, table, a) == RouteOf(view, table, address)
  {
    var i := RouteOf(view, table, address);
    forall a | address <= a < address + Chunk(view, table, limit, address, remaining)
      ensures Routed(view, table, a) && RouteOf(view, table, a) == i
    {
      assert Covers(view, table, a, i);
      RouteUnique(view, table, a, i);
    }
  }

  method InspectSpan(view: RouteTableView, table: RegisterTable, start: u16, count: u16)
    returns (status: RoutedSpanStatus)
    requires Usable(view)
    ensures status == SpanStatus(view, table, start, count)
  {
    assert Ordered(view, table);
    if count == 0 {
      return Empty;
    }
    if start + count > ADDRESS_SPACE {
      return AddressOverflow;
    }
    var current: u16, remaining: u16 := start, count;
    while remaining != 0
      invariant remaining <= count
      invariant current == Wrap16(start + (count - remaining))
      invariant SpanRouted(view, table, start, count - remaining)
    {
      assert current == start + (count - remaining);
      var located := Locate(view, table, current);
      if !located.Found? {
        assert !Routed(view, table, current);
        return Gap;
      }
      var available := Wrap16(view.routes[located.index].Up(table).End() - current);
      var chunk := if remaining < available then remaining else available;
      assert chunk == Chunk(view, table, ADDRESS_SPACE, current, remaining);
      ChunkInRoute(view, table, ADDRESS_SPACE, current, remaining);
      current := Wrap16(current + chunk);
      remaining := Wrap16(remaining - chunk);
    }
    return Complete;
  }

  // ----- segment iteration -----

  method BeginSpan(view: RouteTableView, table: RegisterTable, start: u16, count: u16)
    returns (status: RoutedSpanStatus, cursor: RouteCursor)
    requires Usable(view)
    ensures status == SpanStatus(view, table, start, count)
    ensures cursor == if status.Complete? then RouteCursor(table, start, count, 0) else NO_CURSOR
  {
    status := InspectSpan(view, table, start, count);
    cursor := if status != Complete then NO_CURSOR else RouteCursor(table, start, count, 0);
  }

  /** The segment at a cursor with something left to cover. */
  ghost function SegmentAt(view: RouteTableView, cursor: RouteCursor): RouteSegment
    requires Usable(view) && Routed(view, cursor.table, cursor.nextAddress)
  {
    assert Ordered(view, cursor.table);
    var i := RouteOf(view, cursor.table, cursor.nextAddress);
    var route := view.routes[i];
    RouteSegment(i, route.endpointId, cursor.nextAddress,
                 route.Down(cursor.table).start + (cursor.nextAddress - route.Up(cursor.table).start),
                 Chunk(view, cursor.table, ADDRESS_SPACE, cursor.nextAddress, cursor.remaining),
                 cursor.sourceOffset)
  }

  ghost function CursorAfterSegment(cursor: RouteCursor, count: nat): RouteCursor {
    RouteCursor(cursor.table, Wrap16(cursor.nextAddress + count),
                Wrap16(cursor.remaining - count), Wrap16(cursor.sourceOffset + count))
  }

  method Next(view: RouteTableView, cursor: RouteCursor) returns (next: RouteCursor, segment: Option<RouteSegment>)
    requires Usable(view)
    ensures segment.Some? <==> cursor.remaining != 0 && Routed(view, cursor.table, cursor.nextAddress)
    ensures segment.Some? ==> segment.value == SegmentAt(view, cursor)
    ensures next == if segment.Some? then CursorAfterSegment(cursor, segment.value.count) else cursor.(remaining := 0)
  {
    assert Ordered(view, cursor.table);
    if cursor.remaining == 0 {
      return cursor, None;
    }
    var located := Locate(view, cursor.table, cursor.nextAddress);
    if !located.Found? {
      return cursor.(remaining := 0), None;
    }
    var route := view.routes[located.index];
    var upstream, downstream := route.Up(cursor.table), route.Down(cursor.table);
    var offset := Wrap16(cursor.nextAddress - upstream.start);
    var available := Wrap16(upstream.count - offset);
    var chunk := if cursor.remaining < available then cursor.remaining else available;
    segment := Some(RouteSegment(located.index, route.endpointId, cursor.nextAddress,
                                 Wrap16(downstream.start + offset), chunk, cursor.sourceOffset));
    next := cursor.(nextAddress := Wrap16(cursor.nextAddress + chunk),
                    remaining := Wrap16(cursor.remaining - chunk),
                    sourceOffset := Wrap16(cursor.sourceOffset + chunk));
  }
}
