/** The applied images against the endpoints: which works an image can record at all, and when an image
    that agrees with the endpoints goes on agreeing with them. */
module ImageCoherence {
  import opened Words
  import opened IngressWork
  import opened RouteTable
  import opened ForwardPlan
  import opened ForwardMeaning
  import opened CacheImage
  import opened CompletionTransition
  import opened StoreForwardRuns
  import opened StoreForwardState
  import opened StoreForwardTheorems

  // ----- which works fit an image -----

  ghost predicate WorkFits(planner: ForwardPlanner, work: IngressWork, size: nat) {
    forall k | 0 <= k < |PlanOf(planner, work)| :: Fits(work.kind, PlanOf(planner, work)[k], size)
  }

  /** What each planned fragment needs of an image, and that the last one needs the whole range. */
  lemma {:induction false} PlannedFits(planner: ForwardPlanner, work: IngressWork, k: nat, size: nat)
    requires Usable(planner.routes) && BeginStatus(planner, work).Ready? && k < |PlanOf(planner, work)|
    ensures work.start + work.count <= size ==> Fits(work.kind, PlanOf(planner, work)[k], size)
    ensures k == |PlanOf(planner, work)| - 1 && Fits(work.kind, PlanOf(planner, work)[k], size) ==>
              work.start + work.count <= size
  {
    hide Plan, CursorAfter, BeginStatus, FragmentAt, Plannable;
    PlanAt(planner, work, k);
    var cursor, write := CursorAfter(planner, StartCursor(work), k), PlanOf(planner, work)[k];
    assert Unnumbered(write) == write by { NumberingIsAll(planner, cursor, 0); }
    FragmentPayload(planner, cursor, write);
  }

  /** An image records every fragment of a Ready work if and only if it covers the work's range. */
  lemma {:induction false} WorkFitsExactly(planner: ForwardPlanner, work: IngressWork, size: nat)
    requires Usable(planner.routes) && BeginStatus(planner, work).Ready?
    ensures WorkFits(planner, work, size) <==> work.start + work.count <= size
  {
    hide BeginStatus, Fits, PlanOf;
    PlanPosition(planner, work, 0);
    var last := |PlanOf(planner, work)| - 1;
    PlannedFits(planner, work, last, size);
    if work.start + work.count <= size {
      forall k | 0 <= k < |PlanOf(planner, work)|
        ensures Fits(work.kind, PlanOf(planner, work)[k], size)
      {
        PlannedFits(planner, work, k, size);
      }
    }
  }

  /** An image length is a 16-bit count, so some image records a whole Ready work if and only if the
      work does not reach the last register address. */
  lemma {:induction false} RecordableExactly(planner: ForwardPlanner, work: IngressWork)
    requires Usable(planner.routes) && BeginStatus(planner, work).Ready?
    ensures (exists size: u16 :: WorkFits(planner, work, size)) <==> work.start + work.count < ADDRESS_SPACE
  {
    hide BeginStatus, WorkFits;
    if size: u16 :| WorkFits(planner, work, size) {
      WorkFitsExactly(planner, work, size);
    }
    if work.start + work.count < ADDRESS_SPACE {
      var size: u16 := work.start + work.count;
      WorkFitsExactly(planner, work, size);
    }
  }

  /** A planner over one route that maps a range of registers to the same addresses of endpoint 1. */
  function OneRoute(range: AddressRange, limit: u16): ForwardPlanner {
    var ranges := TableRanges(range, range, range, range);
    ForwardPlanner(RawRouteTable(true, [EndpointRoute(1, ranges, ranges)]),
                   ForwardPlanOptions(limit, limit, PreflightAndSplit, PreflightAndSplit))
  }

  function HoldingWork(start: u16, values: seq<Value>): IngressWork
    requires |values| < ADDRESS_SPACE
  {
    IngressWork(HoldingValues, WorkIdentity(1, 1), start, |values|, Tracked,
                RawSnapshot(Buffer.Buffer(1, values), |values|))
  }

  /** One that does reach it: a Ready work whose only fragment no image can record. */
  lemma {:induction false} LastRegisterIsNeverRecorded(value: Value, sequence: u32)
    ensures var planner, work := OneRoute(AddressRange(0xFFFF, 1), 1), HoldingWork(0xFFFF, [value]);
            && Usable(planner.routes)
            && BeginStatus(planner, work).Ready?
            && Plannable(planner, StartCursor(work))
            && !exists size: u16 :: Fits(HoldingValues, FragmentAt(planner, StartCursor(work), sequence), size)
  {
    var planner, work := OneRoute(AddressRange(0xFFFF, 1), 1), HoldingWork(0xFFFF, [value]);
    assert Covers(planner.routes, HoldingRegisters, 0xFFFF, 0);
  }

  // ----- agreement with the endpoints -----

  ghost predicate AgreesAt(view: RouteTableView, images: Images, memory: Memory, kind: ValueKind, address: int) {
    0 <= address < |images.Of(kind)| && Routed(view, TableOf(kind), address) ==>
      var location := Translate(view, kind, address);
      location in memory && memory[location] == images.Of(kind)[address]
  }

  /** Every routed address inside an image holds what its endpoint holds. */
  ghost predicate Agrees(view: RouteTableView, images: Images, memory: Memory) {
    forall kind, address {:trigger AgreesAt(view, images, memory, kind, address)} ::
      AgreesAt(view, images, memory, kind, address)
  }

  /** Two upstream addresses of one table stand for the same downstream register. */
  ghost predicate SameRegister(view: RouteTableView, kind: ValueKind, a: int, b: int) {
    && Routed(view, TableOf(kind), a)
    && Routed(view, TableOf(kind), b)
    && Translate(view, kind, a) == Translate(view, kind, b)
  }

  ghost predicate OneToOne(view: RouteTableView, kind: ValueKind, start: int, count: int) {
    forall a, b | start <= a < start + count && start <= b < start + count && a != b :: !SameRegister(view, kind, a, b)
  }

  ghost predicate StandsFor(view: RouteTableView, kind: ValueKind, address: int, location: Location) {
    Routed(view, TableOf(kind), address) && Translate(view, kind, address) == location
  }

  /** The reference write leaves alone what none of its addresses stands for. */
  lemma {:induction false} WriteEachMisses(
    view: RouteTableView, kind: ValueKind, memory: Memory, address: int, values: seq<Value>, location: Location)
    requires SpanRouted(view, TableOf(kind), address, |values|)
    requires forall x | address <= x < address + |values| :: !StandsFor(view, kind, x, location)
    ensures var after := WriteEach(view, kind, memory, address, values);
            && (location in after <==> location in memory)
            && (location in after ==> after[location] == memory[location])
    decreases |values|
  {
    if values == [] {
      assert WriteEach(view, kind, memory, address, values) == memory;
    } else {
      assert Routed(view, TableOf(kind), address) && !StandsFor(view, kind, address, location);
      var written := memory[Translate(view, kind, address) := values[0]];
      hide Routed, SpanRouted;
      SpanRest(view, TableOf(kind), address, |values|);
      WriteEachMisses(view, kind, written, address + 1, values[1..], location);
    }
  }

  /** Where no two of its addresses share a register, each of them ends up with its own value. */
  lemma {:induction false} WriteEachHits(
    view: RouteTableView, kind: ValueKind, memory: Memory, address: int, values: seq<Value>, x: int)
    requires SpanRouted(view, TableOf(kind), address, |values|) && OneToOne(view, kind, address, |values|)
    requires address <= x < address + |values|
    ensures Routed(view, TableOf(kind), x)
    ensures var after, location := WriteEach(view, kind, memory, address, values), Translate(view, kind, x);
            location in after && after[location] == values[x - address]
    decreases |values|
  {
    assert Routed(view, TableOf(kind), address) && Routed(view, TableOf(kind), x);
    var written := memory[Translate(view, kind, address) := values[0]];
    hide Routed, SpanRouted;
    SpanRest(view, TableOf(kind), address, |values|);
    if x == address {
      var location := Translate(view, kind, address);
      forall y | address + 1 <= y < address + |values|
        ensures !StandsFor(view, kind, y, location)
      {
        assert !SameRegister(view, kind, address, y);
      }
      WriteEachMisses(view, kind, written, address + 1, values[1..], location);
    } else {
      WriteEachHits(view, kind, written, address + 1, values[1..], x);
    }
  }

  lemma {:induction false} SpanRest(view: RouteTableView, table: RegisterTable, start: int, count: int)
    requires SpanRouted(view, table, start, count)
    ensures SpanRouted(view, table, start + 1, count - 1)
  {}

  /** The write is a fragment of some Ready plan, sequence number aside. */
  ghost predicate IsFragmentAt(planner: ForwardPlanner, write: PlannedWrite, cursor: ForwardCursor) {
    && OnPlan(planner, cursor)
    && Plannable(planner, cursor)
    && Unnumbered(write) == FragmentAt(planner, cursor, 0)
  }

  ghost predicate IsFragment(planner: ForwardPlanner, write: PlannedWrite) {
    exists cursor :: IsFragmentAt(planner, write, cursor)
  }

  function KindOf(write: PlannedWrite): ValueKind {
    if write.table.Coils? then CoilValues else HoldingValues
  }

  function ValuesOf(write: PlannedWrite): seq<Value> {
    Payload(PayloadOf(KindOf(write), write), write.quantity)
  }

  lemma {:induction false} FragmentValues(planner: ForwardPlanner, write: PlannedWrite, cursor: ForwardCursor)
    requires IsFragmentAt(planner, write, cursor)
    ensures write.table == TableOf(cursor.work.kind) && KindOf(write) == cursor.work.kind
    ensures write.upstreamStart == cursor.nextAddress && write.quantity == QuantityAt(planner, cursor) > 0
    ensures |ValuesOf(write)| == write.quantity
    ensures ValuesOf(write) == Remaining(cursor)[..QuantityAt(planner, cursor)]
  {
    hide OnPlan, Plannable, FragmentAt, CursorAfterFragment, QuantityAt;
    ActiveIsPlannable(planner, cursor);
    OnPlanStep(planner, cursor);
    RemainingSplits(planner, cursor);
    FragmentPayload(planner, cursor, write);
    var q, offset, values := QuantityAt(planner, cursor), cursor.sourceOffset, cursor.work.snapshot.data.values;
    assert ValuesOf(write) == values[offset..][..q];
    SliceOfSlice(values, offset, cursor.remaining, q);
  }

  /** A fragment stays in one route, where the translation is a shift. */
  lemma {:induction false} FragmentRouted(planner: ForwardPlanner, cursor: ForwardCursor)
    requires Plannable(planner, cursor)
    ensures SpanRouted(planner.routes, TableOf(cursor.work.kind), cursor.nextAddress, QuantityAt(planner, cursor))
    ensures OneToOne(planner.routes, cursor.work.kind, cursor.nextAddress, QuantityAt(planner, cursor))
  {
    hide Validated, Ordered, Routed;
    ValidIsOrdered(planner.routes, TableOf(cursor.work.kind));
    ChunkInRoute(planner.routes, TableOf(cursor.work.kind), planner.Limit(cursor.work.kind), cursor.nextAddress,
                 cursor.remaining);
  }

  /** What a fragment does to the endpoints, read off its fields. */
  lemma {:induction false} FragmentWrites(planner: ForwardPlanner, write: PlannedWrite, memory: Memory)
    requires IsFragment(planner, write)
    ensures |ValuesOf(write)| == write.quantity > 0 && write.table == TableOf(KindOf(write))
    ensures SpanRouted(planner.routes, TableOf(KindOf(write)), write.upstreamStart, write.quantity)
    ensures OneToOne(planner.routes, KindOf(write), write.upstreamStart, write.quantity)
    ensures planner.Limit(KindOf(write)) > 0
    ensures Execute(memory, DownstreamRequestFor(write, NULL_HANDLE))
            == WriteEach(planner.routes, KindOf(write), memory, write.upstreamStart, ValuesOf(write))
  {
    var cursor :| IsFragmentAt(planner, write, cursor);
    hide OnPlan, Plannable, FragmentAt, QuantityAt, WriteEach, Execute, ValuesOf, Remaining, DownstreamRequestFor,
      Usable, SpanRouted, OneToOne;
    LimitIsPositive(planner, cursor);
    FragmentValues(planner, write, cursor);
    FragmentRouted(planner, cursor);
    FragmentMeans(planner, cursor, 0, NULL_HANDLE, memory);
    SequenceDoesNotMatter(memory, write);
  }

  lemma {:induction false} LimitIsPositive(planner: ForwardPlanner, cursor: ForwardCursor)
    requires Plannable(planner, cursor)
    ensures planner.Limit(cursor.work.kind) > 0
  {}

  lemma {:induction false} SequenceDoesNotMatter(memory: Memory, write: PlannedWrite)
    ensures Execute(memory, DownstreamRequestFor(write, NULL_HANDLE))
            == Execute(memory, DownstreamRequestFor(Unnumbered(write), NULL_HANDLE))
  {}

  /** Every address inside the image that stands for a register of the write has the written value
      there: it is an address of a write that fits the image, or the value was there before. */
  ghost predicate RecordsRightly(view: RouteTableView, images: Images, write: PlannedWrite) {
    forall a, x | write.upstreamStart <= x < write.upstreamStart + |ValuesOf(write)|
                  && SameRegister(view, KindOf(write), a, x) :: RightAt(images, write, a, x)
  }

  predicate RightAt(images: Images, write: PlannedWrite, a: int, x: int)
    requires write.upstreamStart <= x < write.upstreamStart + |ValuesOf(write)|
  {
    var image := images.Of(KindOf(write));
    0 <= a < |image| ==>
      || (a == x && write.upstreamStart + write.quantity <= |image|)
      || image[a] == ValuesOf(write)[x - write.upstreamStart]
  }

  lemma {:induction false} RecordOneAt(images: Images, write: PlannedWrite, kind: ValueKind, at: int)
    requires |ValuesOf(write)| == write.quantity > 0 && 0 <= at < |images.Of(kind)|
    requires write.table == TableOf(KindOf(write))
    ensures |RecordOne(images, write).Of(kind)| == |images.Of(kind)|
    ensures RecordOne(images, write).Of(kind)[at]
            == if kind == KindOf(write) && write.upstreamStart <= at < write.upstreamStart + write.quantity
                  && write.upstreamStart + write.quantity <= |images.Of(kind)|
               then ValuesOf(write)[at - write.upstreamStart]
               else images.Of(kind)[at]
  {
    hide Overwrite;
    var own, image := KindOf(write), images.Of(KindOf(write));
    if Fits(own, write, |image|) {
      RecordOneOverwrites(images, write, own);
      hide RecordOne, Fits;
    }
  }

  /** After one more applied write, image and endpoints still agree if and only if it was recorded
      rightly, whatever addresses share a register. */
  lemma {:induction false} WriteKeepsAgreement(
    planner: ForwardPlanner, images: Images, memory: Memory, write: PlannedWrite)
    requires IsFragment(planner, write) && Agrees(planner.routes, images, memory)
    ensures Agrees(planner.routes, RecordOne(images, write), Execute(memory, DownstreamRequestFor(write, NULL_HANDLE)))
            <==> RecordsRightly(planner.routes, images, write)
  {
    hide IsFragment, RecordOne, Execute, ValuesOf, Agrees, RecordsRightly, RightAt;
    var view := planner.routes;
    var after, recorded := Execute(memory, DownstreamRequestFor(write, NULL_HANDLE)), RecordOne(images, write);
    if RecordsRightly(view, images, write) {
      forall other, at
        ensures AgreesAt(view, recorded, after, other, at)
      {
        UntouchedOrWritten(planner, images, memory, write, other, at);
        RightlyAt(view, images, write);
      }
      AllAgree(view, recorded, after);
    } else {
      var at, x := NotRightlyAt(view, images, write);
      UntouchedOrWritten(planner, images, memory, write, KindOf(write), at);
      if Agrees(view, recorded, after) {
        AgreesOne(view, recorded, after, KindOf(write), at);
      }
    }
  }

  /** What the write does to the agreement at one address: nothing, if the address stands for none of
      its registers, and else it is right exactly if the recorded value is the written one. */
  lemma {:induction false} UntouchedOrWritten(
    planner: ForwardPlanner, images: Images, memory: Memory, write: PlannedWrite, other: ValueKind, at: int)
    requires IsFragment(planner, write) && Agrees(planner.routes, images, memory)
    ensures |ValuesOf(write)| == write.quantity
    ensures var view := planner.routes;
            var after, recorded := Execute(memory, DownstreamRequestFor(write, NULL_HANDLE)), RecordOne(images, write);
            var start := write.upstreamStart;
            && ((other != KindOf(write)
                 || forall x | start <= x < start + write.quantity :: !SameRegister(view, other, at, x))
                ==> AgreesAt(view, recorded, after, other, at))
            && forall x | start <= x < start + write.quantity && SameRegister(view, other, at, x) ::
                 other == KindOf(write) ==>
                   (AgreesAt(view, recorded, after, other, at) <==> RightAt(images, write, at, x))
  {
    hide IsFragment, RecordOne, WriteEach, Execute, ValuesOf, Agrees, Routed;
    var view, kind, start, values := planner.routes, KindOf(write), write.upstreamStart, ValuesOf(write);
    var after, recorded := Execute(memory, DownstreamRequestFor(write, NULL_HANDLE)), RecordOne(images, write);
    FragmentWrites(planner, write, memory);
    RecordKeepsSizes(images, write);
    AgreesOne(view, images, memory, other, at);
    if 0 <= at < |images.Of(other)| && Routed(view, TableOf(other), at) {
      RecordOneAt(images, write, other, at);
      var location := Translate(view, other, at);
      if other == kind && exists x :: start <= x < start + write.quantity && SameRegister(view, kind, at, x) {
        forall x | start <= x < start + write.quantity && SameRegister(view, kind, at, x)
          ensures AgreesAt(view, recorded, after, kind, at) <==> RightAt(images, write, at, x)
        {
          WriteEachHits(view, kind, memory, start, values, x);
        }
      } else {
        assert forall x | start <= x < start + write.quantity :: !StandsFor(view, kind, x, location) by {
          forall x | start <= x < start + write.quantity
            ensures !StandsFor(view, kind, x, location)
          {
            assert other == kind ==> !SameRegister(view, kind, at, x);
          }
        }
        WriteEachMisses(view, kind, memory, start, values, location);
        assert SameRegister(view, other, at, at);
      }
    }
  }

  lemma {:induction false} RightlyAt(view: RouteTableView, images: Images, write: PlannedWrite)
    requires RecordsRightly(view, images, write)
    ensures forall a, x | write.upstreamStart <= x < write.upstreamStart + |ValuesOf(write)|
                          && SameRegister(view, KindOf(write), a, x) :: RightAt(images, write, a, x)
  {}

  lemma {:induction false} NotRightlyAt(view: RouteTableView, images: Images, write: PlannedWrite)
    returns (a: int, x: int)
    requires !RecordsRightly(view, images, write)
    ensures write.upstreamStart <= x < write.upstreamStart + |ValuesOf(write)|
    ensures SameRegister(view, KindOf(write), a, x) && !RightAt(images, write, a, x)
  {
    a, x :| write.upstreamStart <= x < write.upstreamStart + |ValuesOf(write)|
            && SameRegister(view, KindOf(write), a, x) && !RightAt(images, write, a, x);
  }

  lemma {:induction false} AgreesOne(
    view: RouteTableView, images: Images, memory: Memory, kind: ValueKind, address: int)
    requires Agrees(view, images, memory)
    ensures AgreesAt(view, images, memory, kind, address)
  {}

  lemma {:induction false} AllAgree(view: RouteTableView, images: Images, memory: Memory)
    requires forall kind, address :: AgreesAt(view, images, memory, kind, address)
    ensures Agrees(view, images, memory)
  {}
  // ----- over every run -----

  /** No request can straddle the end of an image: either requests of this kind carry one register, or
      the end of the image cuts through no route. */
  ghost predicate NoRouteCut(planner: ForwardPlanner, kind: ValueKind, size: nat) {
    planner.Limit(kind) <= 1 || forall i | 0 <= i < |planner.routes.routes| :: !CutAt(planner, kind, size, i)
  }

  ghost predicate CutAt(planner: ForwardPlanner, kind: ValueKind, size: nat, i: nat)
    requires i < |planner.routes.routes|
  {
    var range := planner.routes.routes[i].Up(TableOf(kind));
    range.start < size < range.End()
  }

  lemma {:induction false} UncutIsInOrOut(planner: ForwardPlanner, size: nat, write: PlannedWrite)
    requires IsFragment(planner, write) && NoRouteCut(planner, KindOf(write), size)
    ensures write.upstreamStart + write.quantity <= size || size <= write.upstreamStart
  {
    var cursor :| IsFragmentAt(planner, write, cursor);
    hide OnPlan, Validated;
    var kind := cursor.work.kind;
    FragmentPayload(planner, cursor, write);
    var i := RouteOf(planner.routes, TableOf(kind), cursor.nextAddress);
    assert Covers(planner.routes, TableOf(kind), cursor.nextAddress, i);
    OnPlanStep(planner, cursor);
    if planner.Limit(kind) > 1 {
      assert !CutAt(planner, kind, size, i);
    }
  }

  /** No other routed address shares the register of a routed address inside an image of this size. */
  ghost predicate NoAliasInto(view: RouteTableView, kind: ValueKind, size: nat) {
    forall a, b | 0 <= a < size && a != b :: !SameRegister(view, kind, a, b)
  }

  /** What a configuration needs for its images of this kind: nothing if it sends no such writes, and
      else that requests neither straddle the end of the image nor reach into it under another
      address. */
  ghost predicate Separated(planner: ForwardPlanner, kind: ValueKind, size: nat) {
    planner.Limit(kind) == 0 || (NoAliasInto(planner.routes, kind, size) && NoRouteCut(planner, kind, size))
  }

  lemma {:induction false} SeparatedIsRight(planner: ForwardPlanner, images: Images, write: PlannedWrite)
    requires IsFragment(planner, write) && Separated(planner, KindOf(write), |images.Of(KindOf(write))|)
    ensures RecordsRightly(planner.routes, images, write)
  {
    hide IsFragment, NoRouteCut, SameRegister, ValuesOf;
    FragmentWrites(planner, write, map[]);
    UncutIsInOrOut(planner, |images.Of(KindOf(write))|, write);
  }

  ghost predicate AllFragments(planner: ForwardPlanner, writes: seq<PlannedWrite>) {
    forall k | 0 <= k < |writes| :: IsFragment(planner, writes[k])
  }

  lemma {:induction false} ExecuteAllPush(memory: Memory, plan: seq<PlannedWrite>, last: PlannedWrite)
    ensures ExecuteAll(memory, plan + [last])
            == Execute(ExecuteAll(memory, plan), DownstreamRequestFor(last, NULL_HANDLE))
    decreases |plan|
  {
    hide Execute;
    if plan == [] {
      assert plan + [last] == [last];
      assert [last][1..] == [];
    } else {
      assert (plan + [last])[1..] == plan[1..] + [last];
      ExecuteAllPush(Execute(memory, DownstreamRequestFor(plan[0], NULL_HANDLE)), plan[1..], last);
    }
  }

  lemma {:induction false} AppliedAgree(
    planner: ForwardPlanner, initial: Images, memory: Memory, writes: seq<PlannedWrite>)
    requires AllFragments(planner, writes) && Agrees(planner.routes, initial, memory)
    requires forall kind :: Separated(planner, kind, |initial.Of(kind)|)
    ensures Agrees(planner.routes, RecordAll(initial, writes), ExecuteAll(memory, writes))
    ensures forall kind :: |RecordAll(initial, writes).Of(kind)| == |initial.Of(kind)|
    decreases |writes|
  {
    hide Agrees, Separated, RecordsRightly, IsFragment, RecordOne, ExecuteAll;
    if writes == [] {
      assert ExecuteAll(memory, []) == memory by { NothingToExecute(memory); }
    } else {
      var before, last := writes[..|writes| - 1], writes[|writes| - 1];
      var images, held := RecordAll(initial, before), ExecuteAll(memory, before);
      assert forall k | 0 <= k < |before| :: before[k] == writes[k];
      AppliedAgree(planner, initial, memory, before);
      assert IsFragment(planner, last);
      assert Separated(planner, KindOf(last), |images.Of(KindOf(last))|);
      SeparatedIsRight(planner, images, last);
      WriteKeepsAgreement(planner, images, held, last);
      RecordKeepsSizes(images, last);
      assert before + [last] == writes;
      ExecuteAllPush(memory, before, last);
    }
  }

  lemma {:induction false} NothingToExecute(memory: Memory)
    ensures ExecuteAll(memory, []) == memory
  {}

  /** Whatever a run has applied is a fragment of a Ready plan. */
  lemma {:induction false} AppliedAreFragments(cfg: Config, initial: Images, inputs: seq<Input>)
    requires Usable(cfg.planner.routes)
    ensures AllFragments(cfg.planner, RunOf(cfg, initial, inputs).applied)
  {
    hide RunOf, Invariant, Lives, FrontHolds, LifeOk, IsFragment;
    var run := RunOf(cfg, initial, inputs);
    ReachableRuns(cfg, initial, inputs);
    forall k | 0 <= k < |run.applied|
      ensures IsFragment(cfg.planner, run.applied[k])
    {
      var i := InConcat(AppliedParts(run.lives), run.applied[k]);
      EveryLifeOk(cfg, initial, inputs, i);
      AppliedWasIssued(run.lives[i].issued, run.lives[i].outcomes, run.applied[k]);
      IssuedAreFragments(cfg.planner, run.lives[i]);
    }
  }

  lemma {:induction false} InConcat<T>(parts: seq<seq<T>>, element: T) returns (i: nat)
    requires element in Concat(parts)
    ensures i < |parts| && element in parts[i]
    decreases |parts|
  {
    i := |parts| - 1;
    if element in parts[i] {
    } else {
      i := InConcat(parts[..i], element);
    }
  }

  lemma {:induction false} AppliedWasIssued(
    issued: seq<PlannedWrite>, outcomes: seq<DownstreamOutcome>, write: PlannedWrite)
    requires write in AppliedWrites(issued, outcomes)
    ensures write in issued
    decreases |outcomes|
  {
    var last := |outcomes| - 1;
    if outcomes[last] == Applied && write == issued[last] {
    } else {
      AppliedWasIssued(issued, outcomes[..last], write);
    }
  }

  lemma {:induction false} IssuedAreFragments(planner: ForwardPlanner, life: WorkLife)
    requires LifeOk(planner, life)
    ensures forall k | 0 <= k < |life.issued| :: IsFragment(planner, life.issued[k])
  {
    hide Plan, CursorAfter, BeginStatus, FragmentAt, Plannable, OnPlan, NoticesOwed;
    forall k | 0 <= k < |life.issued|
      ensures IsFragment(planner, life.issued[k])
    {
      PlanAt(planner, life.work, k);
      assert Unnumbered(life.issued[k]) == PlanOf(planner, life.work)[k];
      assert IsFragmentAt(planner, life.issued[k], CursorAfter(planner, StartCursor(life.work), k));
    }
  }

  /** Image and endpoints after a run in which exactly the writes reported as applied took effect. */
  ghost predicate RunAgrees(cfg: Config, initial: Images, memory: Memory, inputs: seq<Input>) {
    var run := RunOf(cfg, initial, inputs);
    Agrees(cfg.planner.routes, run.images, ExecuteAll(memory, run.applied))
  }

  lemma {:induction false} EveryRunAgrees(cfg: Config, initial: Images, memory: Memory, inputs: seq<Input>)
    requires Usable(cfg.planner.routes) && Agrees(cfg.planner.routes, initial, memory)
    requires forall kind :: Separated(cfg.planner, kind, |initial.Of(kind)|)
    ensures RunAgrees(cfg, initial, memory, inputs)
  {
    hide RunOf, Invariant, Lives, FrontHolds, Agrees, Separated, AllFragments;
    ReachableRuns(cfg, initial, inputs);
    AppliedAreFragments(cfg, initial, inputs);
    AppliedAgree(cfg.planner, initial, memory, RunOf(cfg, initial, inputs).applied);
  }
}
