/** The split of a fully routed span into pieces that stay inside one route and within a quantity
    limit: it tiles the span, and no legal split has fewer pieces. */
module RouteSplit {
  import opened Words
  import opened RouteTable

  datatype Piece = Piece(start: int, count: nat) {
    function End(): int {
      start + count
    }
  }

  ghost function Pieces(view: RouteTableView, table: RegisterTable, limit: nat, start: int, count: nat): seq<Piece>
    decreases count
  {
    if count == 0 || limit == 0 || !Routed(view, table, start) then [] else
      var q := Chunk(view, table, limit, start, count);
      [Piece(start, q)] + Pieces(view, table, limit, start + q, count - q)
  }

  // ----- tiling -----

  /** `pieces` cover [start, start + count) end to end, none of them empty. */
  ghost predicate Tiles(pieces: seq<Piece>, start: int, count: int)
    decreases |pieces|
  {
    if pieces == [] then count == 0
    else
      && pieces[0].start == start
      && 1 <= pieces[0].count <= count
      && Tiles(pieces[1..], start + pieces[0].count, count - pieces[0].count)
  }

  /** One request can carry this piece: one route covers all of it and it respects the limit. */
  ghost predicate Legal(view: RouteTableView, table: RegisterTable, limit: nat, piece: Piece) {
    && 1 <= piece.count <= limit
    && exists i :: Covers(view, table, piece.start, i) && Covers(view, table, piece.End() - 1, i)
  }

  /** The split tiles the span, and one request can carry each of its pieces. */
  lemma {:induction false} PiecesTile(view: RouteTableView, table: RegisterTable, limit: nat, start: int, count: nat)
    requires limit > 0 && Ordered(view, table) && SpanRouted(view, table, start, count)
    ensures Tiles(Pieces(view, table, limit, start, count), start, count)
    ensures forall piece | piece in Pieces(view, table, limit, start, count) :: Legal(view, table, limit, piece)
    decreases count
  {
    hide Ordered, Legal, Pieces;
    PiecesUnfold(view, table, limit, start, count);
    if count == 0 {
    } else {
      var q := Chunk(view, table, limit, start, count);
      ChunkIsLegal(view, table, limit, start, count);
      PiecesTile(view, table, limit, start + q, count - q);
    }
  }

  lemma {:induction false} PiecesUnfold(view: RouteTableView, table: RegisterTable, limit: nat, start: int, count: nat)
    requires limit > 0 && SpanRouted(view, table, start, count)
    ensures count == 0 ==> Pieces(view, table, limit, start, count) == []
    ensures count != 0 ==>
              && Routed(view, table, start)
              && var q := Chunk(view, table, limit, start, count);
                 Pieces(view, table, limit, start, count)
                 == [Piece(start, q)] + Pieces(view, table, limit, start + q, count - q)
  {
    assert count != 0 ==> Routed(view, table, start);
  }

  lemma {:induction false} ChunkIsLegal(view: RouteTableView, table: RegisterTable, limit: nat, start: int, count: nat)
    requires limit > 0 && count > 0 && Ordered(view, table) && Routed(view, table, start)
    ensures Legal(view, table, limit, Piece(start, Chunk(view, table, limit, start, count)))
  {
    var i, q := RouteOf(view, table, start), Chunk(view, table, limit, start, count);
    assert Covers(view, table, start, i) && Covers(view, table, Piece(start, q).End() - 1, i);
  }

  /** A tiling has no overlap and stays in the span. */
  lemma {:induction false} TilesDisjoint(pieces: seq<Piece>, start: int, count: int)
    requires Tiles(pieces, start, count)
    ensures forall i | 0 <= i < |pieces| :: start <= pieces[i].start && pieces[i].End() <= start + count
    ensures forall i, j | 0 <= i < j < |pieces| :: pieces[i].End() <= pieces[j].start
    decreases |pieces|
  {
    if pieces == [] {
    } else {
      TilesDisjoint(pieces[1..], start + pieces[0].count, count - pieces[0].count);
      forall i, j | 0 <= i < j < |pieces|
        ensures pieces[i].End() <= pieces[j].start
      {
        assert pieces[j] == pieces[1..][j - 1];
        if i > 0 {
          assert pieces[i] == pieces[1..][i - 1];
        }
      }
      forall i | 0 <= i < |pieces|
        ensures start <= pieces[i].start && pieces[i].End() <= start + count
      {
        if i > 0 {
          assert pieces[i] == pieces[1..][i - 1];
        }
      }
    }
  }

  /** A tiling has no gap. */
  lemma {:induction false} TilesCover(pieces: seq<Piece>, start: int, count: int, address: int)
    requires Tiles(pieces, start, count) && start <= address < start + count
    ensures exists i | 0 <= i < |pieces| :: pieces[i].start <= address < pieces[i].End()
    decreases |pieces|
  {
    if address < pieces[0].End() {
      assert pieces[0].start <= address < pieces[0].End();
    } else {
      TilesCover(pieces[1..], start + pieces[0].count, count - pieces[0].count, address);
      var i :| 0 <= i < |pieces[1..]| && pieces[1..][i].start <= address < pieces[1..][i].End();
      assert pieces[i + 1] == pieces[1..][i];
    }
  }

  // ----- minimality -----

  lemma {:induction false} NoPieces(view: RouteTableView, table: RegisterTable, limit: nat, at: int)
    requires limit > 0
    ensures Pieces(view, table, limit, at, 0) == []
  {}

  lemma {:induction false} OnePieceMore(view: RouteTableView, table: RegisterTable, limit: nat, start: int, end: int)
    requires limit > 0 && start < end && SpanRouted(view, table, start, end - start)
    ensures Routed(view, table, start)
    ensures var next := start + Chunk(view, table, limit, start, end - start);
            && start < next <= end
            && SpanRouted(view, table, next, end - next)
            && |Pieces(view, table, limit, start, end - start)| == 1 + |Pieces(view, table, limit, next, end - next)|
  {
    assert Routed(view, table, start);
    var q := Chunk(view, table, limit, start, end - start);
    assert end - start - q == end - (start + q);
  }

  /** From a later start, one chunk reaches at least as far. */
  lemma {:induction false} ChunksReachNoLess(
    view: RouteTableView, table: RegisterTable, limit: nat, start: int, later: int, end: int)
    requires limit > 0 && Ordered(view, table) && start <= later < end
    requires Routed(view, table, start) && later < start + Chunk(view, table, limit, start, end - start)
    ensures Routed(view, table, later)
    ensures start + Chunk(view, table, limit, start, end - start) <= later + Chunk(view, table, limit, later,
        end - later)
  {
    ChunkInRoute(view, table, limit, start, end - start);
  }

  /** Starting later in the same span never needs more pieces. */
  lemma {:induction false} LaterStartNeedsNoMore(
    view: RouteTableView, table: RegisterTable, limit: nat, start: int, later: int, end: int)
    requires limit > 0 && Ordered(view, table) && start <= later <= end
    requires SpanRouted(view, table, start, end - start)
    ensures SpanRouted(view, table, later, end - later)
    ensures |Pieces(view, table, limit, later, end - later)| <= |Pieces(view, table, limit, start, end - start)|
    decreases end - start
  {
    hide Pieces;
    assert SpanRouted(view, table, later, end - later);
    NoPieces(view, table, limit, end);
    if later == start || later == end {
    } else {
      OnePieceMore(view, table, limit, start, end);
      var next := start + Chunk(view, table, limit, start, end - start);
      if next <= later {
        LaterStartNeedsNoMore(view, table, limit, next, later, end);
      } else {
        ChunksReachNoLess(view, table, limit, start, later, end);
        OnePieceMore(view, table, limit, later, end);
        var laterNext := later + Chunk(view, table, limit, later, end - later);
        LaterStartNeedsNoMore(view, table, limit, next, laterNext, end);
      }
    }
  }

  /** A legal piece is no longer than the chunk taken from the same address. */
  lemma {:induction false} LegalIsShort(view: RouteTableView, table: RegisterTable, limit: nat, piece: Piece,
      remaining: nat)
    requires Ordered(view, table) && Legal(view, table, limit, piece) && piece.count <= remaining
    ensures Routed(view, table, piece.start)
    ensures piece.count <= Chunk(view, table, limit, piece.start, remaining)
  {
    var i :| Covers(view, table, piece.start, i) && Covers(view, table, piece.End() - 1, i);
    RouteUnique(view, table, piece.start, i);
  }

  /** Every way of cutting the span into legal pieces has at least as many of them. */
  lemma {:induction false} SplitIsMinimal(
    view: RouteTableView, table: RegisterTable, limit: nat, start: int, end: int, other: seq<Piece>)
    requires limit > 0 && Ordered(view, table) && start <= end && SpanRouted(view, table, start, end - start)
    requires Tiles(other, start, end - start) && forall piece | piece in other :: Legal(view, table, limit, piece)
    ensures |Pieces(view, table, limit, start, end - start)| <= |other|
    decreases end - start
  {
    hide Pieces;
    NoPieces(view, table, limit, end);
    if start == end {
    } else {
      var first := other[0];
      assert first in other;
      LegalIsShort(view, table, limit, first, end - start);
      assert end - start - first.count == end - first.End();
      OnePieceMore(view, table, limit, start, end);
      assert SpanRouted(view, table, first.End(), end - first.End());
      SplitIsMinimal(view, table, limit, first.End(), end, other[1..]);
      LaterStartNeedsNoMore(view, table, limit, first.End(), start + Chunk(view, table, limit, start, end - start),
          end);
    }
  }

  // ----- how many pieces -----

  function CeilDiv(x: nat, y: nat): nat
    requires y > 0
  {
    (x + y - 1) / y
  }

  function OverlapCount(range: AddressRange, from: int, to: int): nat {
    Max(0, Min(range.End(), to) - Max(range.start, from))
  }

  /** The sum, over routes `i` and later, of the requests each needs for its share of [from, to). */
  ghost function RequestsFrom(view: RouteTableView, table: RegisterTable, limit: nat, from: int, to: int, i: nat): nat
    requires limit > 0 && i <= |view.routes|
    decreases |view.routes| - i
  {
    if i == |view.routes| then 0 else
      CeilDiv(OverlapCount(view.routes[i].Up(table), from, to), limit)
      + RequestsFrom(view, table, limit, from, to, i + 1)
  }

  lemma {:induction false} CeilDivStep(x: nat, y: nat)
    requires y > 0
    ensures CeilDiv(x + y, y) == CeilDiv(x, y) + 1
    ensures 0 < x <= y ==> CeilDiv(x, y) == 1
    ensures x == 0 ==> CeilDiv(x, y) == 0
  {
    QuotientUnique(x + y - 1, y, (x + y - 1 + y) / y - 1);
    if 0 < x <= y {
      QuotientUnique(x + y - 1, y, 1);
    } else if x == 0 {
      QuotientUnique(y - 1, y, 0);
    }
  }

  lemma {:induction false} QuotientUnique(x: nat, y: nat, q: int)
    requires y > 0 && 0 <= x - q * y < y
    ensures x / y == q
  {
    var d := x / y - q;
    assert d * y == (x - q * y) - x % y;
    assert d >= 1 ==> d * y >= y;
    assert d <= -1 ==> d * y <= -1 * y;
  }

  /** Emitting one chunk lowers the need of its own route by one and of no other. */
  lemma {:induction false} ChunkLowersOneShare(
    view: RouteTableView, table: RegisterTable, limit: nat, from: int, to: int, i: nat)
    requires limit > 0 && i < |view.routes| && from < to
    requires Ordered(view, table) && Routed(view, table, from)
    ensures var next, range := from + Chunk(view, table, limit, from, to - from), view.routes[i].Up(table);
            CeilDiv(OverlapCount(range, from, to), limit)
            == CeilDiv(OverlapCount(range, next, to), limit) + (if i == RouteOf(view, table, from) then 1 else 0)
  {
    hide CeilDiv;
    var next, range := from + Chunk(view, table, limit, from, to - from), view.routes[i].Up(table);
    CeilDivStep(OverlapCount(range, next, to), limit);
    CeilDivStep(OverlapCount(range, from, to), limit);
  }

  /** Emitting one chunk lowers the total by one, whichever route it is in. */
  lemma {:induction false} ChunkLowersRequests(
    view: RouteTableView, table: RegisterTable, limit: nat, from: int, to: int, i: nat)
    requires limit > 0 && i <= |view.routes| && from < to
    requires Ordered(view, table) && Routed(view, table, from)
    ensures var q := Chunk(view, table, limit, from, to - from);
            RequestsFrom(view, table, limit, from, to, i)
            == RequestsFrom(view, table, limit, from + q, to, i)
               + (if i <= RouteOf(view, table, from) then 1 else 0)
    decreases |view.routes| - i
  {
    hide CeilDiv, OverlapCount, Chunk, Ordered;
    if i == |view.routes| {
    } else {
      ChunkLowersRequests(view, table, limit, from, to, i + 1);
      ChunkLowersOneShare(view, table, limit, from, to, i);
    }
  }

  lemma {:induction false} EmptySpanNeedsNone(view: RouteTableView, table: RegisterTable, limit: nat, at: int, i: nat)
    requires limit > 0 && i <= |view.routes|
    ensures RequestsFrom(view, table, limit, at, at, i) == 0
    decreases |view.routes| - i
  {
    if i == |view.routes| {
    } else {
      CeilDivStep(0, limit);
      EmptySpanNeedsNone(view, table, limit, at, i + 1);
    }
  }

  /** The number of pieces is the sum over crossed routes of their overlap divided by the limit,
      rounded up. */
  lemma {:induction false} PieceCount(view: RouteTableView, table: RegisterTable, limit: nat, start: int, end: int)
    requires limit > 0 && Ordered(view, table) && start <= end && SpanRouted(view, table, start, end - start)
    ensures |Pieces(view, table, limit, start, end - start)| == RequestsFrom(view, table, limit, start, end, 0)
    decreases end - start
  {
    hide Pieces, RequestsFrom;
    if start == end {
      NoPieces(view, table, limit, end);
      EmptySpanNeedsNone(view, table, limit, start, 0);
    } else {
      OnePieceMore(view, table, limit, start, end);
      ChunkLowersRequests(view, table, limit, start, end, 0);
      PieceCount(view, table, limit, start + Chunk(view, table, limit, start, end - start), end);
    }
  }

  // ----- segments -----

  /** The segments that iterating `Next` from a cursor returns. */
  ghost function Segments(view: RouteTableView, cursor: RouteCursor): seq<RouteSegment>
    requires Usable(view)
    decreases cursor.remaining
  {
    if cursor.remaining == 0 || !Routed(view, cursor.table, cursor.nextAddress) then [] else
      var segment := SegmentAt(view, cursor);
      [segment] + Segments(view, CursorAfterSegment(cursor, segment.count))
  }

  /** A segment is one piece of the split without a quantity limit, translated by its one route. */
  ghost predicate Translates(view: RouteTableView, table: RegisterTable, segment: RouteSegment, piece: Piece,
      offset: int) {
    && segment.upstreamStart == piece.start
    && segment.count == piece.count
    && segment.sourceOffset == offset
    && Covers(view, table, piece.start, segment.routeIndex)
    && Covers(view, table, piece.End() - 1, segment.routeIndex)
    && var route := view.routes[segment.routeIndex];
       && segment.endpointId == route.endpointId
       && segment.downstreamStart - route.Down(table).start == segment.upstreamStart - route.Up(table).start
  }

  /** From a complete span, the segments are exactly the pieces of the route split, in order, with
      source offsets counted from the start of the request. */
  lemma {:induction false} SegmentsArePieces(view: RouteTableView, cursor: RouteCursor)
    requires Usable(view) && cursor.nextAddress + cursor.remaining <= ADDRESS_SPACE
    requires cursor.sourceOffset + cursor.remaining < ADDRESS_SPACE
    requires SpanRouted(view, cursor.table, cursor.nextAddress, cursor.remaining)
    ensures var pieces := Pieces(view, cursor.table, ADDRESS_SPACE, cursor.nextAddress, cursor.remaining);
            && |Segments(view, cursor)| == |pieces|
            && forall k | 0 <= k < |pieces| ::
                 Translates(view, cursor.table, Segments(view, cursor)[k], pieces[k],
                            cursor.sourceOffset + (pieces[k].start - cursor.nextAddress))
    decreases cursor.remaining
  {
    hide Validated, Pieces, Ordered, Translates;
    PiecesUnfold(view, cursor.table, ADDRESS_SPACE, cursor.nextAddress, cursor.remaining);
    if cursor.remaining == 0 {
    } else {
      var segment := SegmentAt(view, cursor);
      FirstSegment(view, cursor);
      var next := CursorAfterSegment(cursor, segment.count);
      if next.remaining > 0 {
        SegmentsArePieces(view, next);
      } else {
        NoPieces(view, cursor.table, ADDRESS_SPACE, cursor.nextAddress + segment.count);
      }
    }
  }

  lemma {:induction false} FirstSegment(view: RouteTableView, cursor: RouteCursor)
    requires Usable(view) && cursor.remaining > 0 && Routed(view, cursor.table, cursor.nextAddress)
    ensures var segment := SegmentAt(view, cursor);
            Translates(view, cursor.table, segment, Piece(cursor.nextAddress, segment.count), cursor.sourceOffset)
  {
    ValidIsOrdered(view, cursor.table);
    ChunkIsLegal(view, cursor.table, ADDRESS_SPACE, cursor.nextAddress, cursor.remaining);
  }
}
