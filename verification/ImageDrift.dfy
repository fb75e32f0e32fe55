/** Runs in which the applied image drifts away from the endpoints, and exactly which configurations
    have one. */
module ImageDrift {
  import opened Words
  import opened IngressWork
  import opened RouteTable
  import opened ForwardPlan
  import opened ForwardMeaning
  import opened CompletionTransition
  import opened CompletionLedger
  import opened PollPlanner
  import opened StoreForwardState
  import opened StoreForwardRuns
  import opened StoreForwardTheorems
  import opened ImageCoherence

  // ----- a run that applies one fragment -----

  const NO_POLLS: PollSet := RawPollSet(true, [])

  ghost predicate CanRun(cfg: Config) {
    Usable(cfg.planner.routes) && cfg.storage && cfg.queueCapacity > 0 && cfg.ledgerCapacity > 0
  }

  /** Admit the work, admit what is previewed for it, report that as applied. */
  ghost function OneWorkInputs(cfg: Config, images: Images, work: IngressWork, session: SessionState): seq<Input> {
    var admit := AdmitWorkCall(work, session, NULL_HANDLE);
    var action := Preview(cfg, RunOf(cfg, images, [admit]).state, session, 0, NO_POLLS, NULL_HANDLE).action;
    [admit, AdmitActionCall(action, session, NO_POLLS), CompleteCall(action, Applied, session)]
  }

  lemma {:induction false} FirstRuns(cfg: Config, images: Images, inputs: seq<Input>)
    requires |inputs| == 3
    ensures RunOf(cfg, images, [inputs[0]]) == Step(cfg, InitialRun(images), inputs[0])
    ensures RunOf(cfg, images, inputs)
            == Step(cfg, Step(cfg, Step(cfg, InitialRun(images), inputs[0]), inputs[1]), inputs[2])
  {
    hide Step;
    assert [inputs[0]][..0] == [];
    assert inputs[..2][..1] == [inputs[0]];
    assert RunOf(cfg, images, []) == InitialRun(images);
    assert RunOf(cfg, images, inputs[..2]) == Step(cfg, RunOf(cfg, images, inputs[..2][..1]), inputs[1]);
  }

  lemma {:induction false} OneWorkAdmitted(cfg: Config, images: Images, work: IngressWork, session: SessionState)
    requires CanRun(cfg) && WorkCurrent(work.identity, session) && BeginStatus(cfg.planner, work).Ready?
    ensures var run := RunAdmitWork(cfg, InitialRun(images), work, session, NULL_HANDLE);
            && run.applied == [] && run.state.inFlight.None? && run.state.requestSequence == 0
            && |run.state.queue| == 1 && AsCursor(run.state.queue[0]) == StartCursor(work)
            && run.state.queue[0].workIdentity == work.identity
            && run.state.poll == INITIAL_POLL_STATE
  {
    hide SpanRouted, Validated;
  }

  lemma {:induction false} OneWorkProposed(cfg: Config, s: BridgeState, work: IngressWork, session: SessionState)
    requires CanRun(cfg) && WorkCurrent(work.identity, session) && Plannable(cfg.planner, StartCursor(work))
    requires s.inFlight.None? && s.requestSequence == 0
    requires |s.queue| == 1 && AsCursor(s.queue[0]) == StartCursor(work) && s.queue[0].workIdentity == work.identity
    ensures var proposal := Preview(cfg, s, session, 0, NO_POLLS, NULL_HANDLE);
            && proposal.status.ActionReady?
            && proposal.action.kind.ForwardWrite?
            && proposal.action.requiresCompletion
            && proposal.action.write == FragmentAt(cfg.planner, StartCursor(work), 1)
            && proposal.action.write.identity.work == work.identity
            && IsCurrentProposal(cfg, s, proposal.action, session, NO_POLLS)
  {
    hide Plannable, Usable, WorkCurrent;
  }

  lemma {:induction false} OneWorkApplied(cfg: Config, images: Images, work: IngressWork, session: SessionState)
    requires CanRun(cfg) && WorkCurrent(work.identity, session) && BeginStatus(cfg.planner, work).Ready?
    ensures Plannable(cfg.planner, StartCursor(work))
    ensures RunOf(cfg, images, OneWorkInputs(cfg, images, work, session)).applied
            == [FragmentAt(cfg.planner, StartCursor(work), 1)]
  {
    hide RunOf, Preview, BeginStatus, RunAdmitWork, RunAdmitAction, RunComplete, WorkCurrent, FragmentAt, Plannable,
      OnPlan, Plan, IsCurrentProposal;
    var inputs := OneWorkInputs(cfg, images, work, session);
    FirstRuns(cfg, images, inputs);
    StartIsOnPlan(cfg.planner, work);
    PlanUnfolds(cfg.planner, StartCursor(work));
    OneWorkAdmitted(cfg, images, work, session);
    var admitted := RunOf(cfg, images, [inputs[0]]);
    OneWorkProposed(cfg, admitted.state, work, session);
    var action := inputs[1].action;
    WriteAdmitted(cfg, admitted, action, session);
    WriteCompleted(RunAdmitAction(cfg, admitted, action, session, NO_POLLS), action, work, session);
  }

  lemma {:induction false} WriteAdmitted(cfg: Config, run: Run, action: StoreForwardAction, session: SessionState)
    requires run.state.inFlight.None? && action.kind.ForwardWrite? && action.requiresCompletion
    requires IsCurrentProposal(cfg, run.state, action, session, NO_POLLS)
    ensures RunAdmitAction(cfg, run, action, session, NO_POLLS).state.inFlight == Some(action)
    ensures RunAdmitAction(cfg, run, action, session, NO_POLLS).applied == run.applied
  {
    hide Preview, PollAfter;
  }

  lemma {:induction false} WriteCompleted(
    run: Run, action: StoreForwardAction, work: IngressWork, session: SessionState)
    requires run.state.inFlight == Some(action) && action.kind.ForwardWrite?
    requires action.write.identity.work == work.identity && WorkCurrent(work.identity, session)
    ensures RunComplete(run, action, Applied, session).applied == run.applied + [action.write]
  {
    hide AfterComplete, Transition, WorkCurrent, SlotAfterCompletion, DecisionFor, Summarize;
  }

  /** Some works can be admitted: there is room for one, and one delivery has a known span policy. */
  ghost predicate AdmitsWorks(cfg: Config) {
    && cfg.storage && cfg.queueCapacity > 0 && cfg.ledgerCapacity > 0
    && exists delivery :: IsAccepted(delivery) && !cfg.planner.Policy(delivery).UnknownPolicy?
  }

  // ----- two ways to drift -----

  function Different(kind: ValueKind, value: Value): Value {
    match kind
    case CoilValues => if value == Bit(true) then Bit(false) else Bit(true)
    case HoldingValues => if value == Register(1) then Register(0) else Register(1)
  }

  function SmallWork(kind: ValueKind, start: u16, count: nat, value: Value, delivery: IngressDelivery): IngressWork
    requires count < ADDRESS_SPACE
  {
    var values := seq(count, i => value);
    IngressWork(kind, WorkIdentity(1, 1), start, count, delivery, RawSnapshot(Buffer.Buffer(1, values), count))
  }

  /** A short work inside one route is Ready, and one request carries all of it. */
  lemma {:induction false} SmallWorkIsReady(
    planner: ForwardPlanner, kind: ValueKind, start: u16, count: nat, value: Value, delivery: IngressDelivery, i: nat)
    requires Usable(planner.routes) && i < |planner.routes.routes| && 0 < count <= planner.Limit(kind)
    requires var range := planner.routes.routes[i].Up(TableOf(kind));
             range.start <= start && start + count <= range.End()
    requires IsAccepted(delivery) && !planner.Policy(delivery).UnknownPolicy?
    ensures var work := SmallWork(kind, start, count, value, delivery);
            && BeginStatus(planner, work).Ready?
            && Plannable(planner, StartCursor(work))
            && QuantityAt(planner, StartCursor(work)) == count
  {
    var table := TableOf(kind);
    ValidIsOrdered(planner.routes, table);
    forall a | start <= a < start + count
      ensures Routed(planner.routes, table, a) && RouteOf(planner.routes, table, a) == i
    {
      assert Covers(planner.routes, table, a, i);
      RouteUnique(planner.routes, table, a, i);
    }
    hide Validated, Ordered;
    assert Covers(planner.routes, table, start, i);
    assert InsideOneRoute(planner.routes, table, start, count);
  }

  /** A work whose one request would not be recorded rightly makes a run that breaks the agreement. */
  lemma {:induction false} WrongRecordDrifts(
    cfg: Config, initial: Images, memory: Memory, work: IngressWork, session: SessionState)
    requires CanRun(cfg) && Agrees(cfg.planner.routes, initial, memory)
    requires WorkCurrent(work.identity, session) && BeginStatus(cfg.planner, work).Ready?
    requires Plannable(cfg.planner, StartCursor(work))
    requires !RecordsRightly(cfg.planner.routes, initial, FragmentAt(cfg.planner, StartCursor(work), 1))
    ensures exists inputs :: !RunAgrees(cfg, initial, memory, inputs)
  {
    hide BeginStatus, Plannable, Agrees, RunOf, ExecuteAll, OneWorkInputs, RunInvariant, OnPlan, Usable, WorkCurrent,
      RecordsRightly, FragmentAt;
    var planner := cfg.planner;
    OneWorkApplied(cfg, initial, work, session);
    var inputs, write := OneWorkInputs(cfg, initial, work, session), FragmentAt(planner, StartCursor(work), 1);
    StartIsOnPlan(planner, work);
    NumberingIsAll(planner, StartCursor(work), 1);
    assert IsFragmentAt(planner, write, StartCursor(work));
    WriteKeepsAgreement(planner, initial, memory, write);
    AppliedImage(cfg, initial, inputs);
    assert [] + [write] == [write];
    RecordAllPush(initial, [], write);
    ExecuteAllPush(memory, [], write);
    NothingToExecute(memory);
    assert !RunAgrees(cfg, initial, memory, inputs);
  }

  lemma {:induction false} AppliedImage(cfg: Config, initial: Images, inputs: seq<Input>)
    requires Usable(cfg.planner.routes)
    ensures RunOf(cfg, initial, inputs).images == RecordAll(initial, RunOf(cfg, initial, inputs).applied)
  {
    hide RunOf, Invariant, Lives, FrontHolds, Concat, HandedBack;
    ReachableRuns(cfg, initial, inputs);
  }

  /** The request of a short work, and the value it carries. */
  lemma {:induction false} SmallWorkWrites(
    planner: ForwardPlanner, kind: ValueKind, start: u16, count: nat, value: Value, delivery: IngressDelivery)
    requires count < ADDRESS_SPACE && Plannable(planner, StartCursor(SmallWork(kind, start, count, value, delivery)))
    requires QuantityAt(planner, StartCursor(SmallWork(kind, start, count, value, delivery))) == count
    ensures var write := FragmentAt(planner, StartCursor(SmallWork(kind, start, count, value, delivery)), 1);
            && KindOf(write) == kind && write.upstreamStart == start && write.quantity == count
            && |ValuesOf(write)| == count
            && forall k | 0 <= k < count :: ValuesOf(write)[k] == value
  {
    hide Plannable;
  }

  lemma {:induction false} CutDrifts(
    cfg: Config, initial: Images, memory: Memory, kind: ValueKind, delivery: IngressDelivery, i: nat)
    requires CanRun(cfg) && Agrees(cfg.planner.routes, initial, memory) && cfg.planner.Limit(kind) > 1
    requires IsAccepted(delivery) && !cfg.planner.Policy(delivery).UnknownPolicy?
    requires i < |cfg.planner.routes.routes| && CutAt(cfg.planner, kind, |initial.Of(kind)|, i)
    ensures exists inputs :: !RunAgrees(cfg, initial, memory, inputs)
  {
    hide BeginStatus, Plannable, Agrees, FragmentAt, Validated, ValuesOf, SmallWork, QuantityAt;
    var planner, size := cfg.planner, |initial.Of(kind)|;
    ValidIsOrdered(planner.routes, TableOf(kind));
    var start, value := size - 1, Different(kind, initial.Of(kind)[size - 1]);
    SmallWorkIsReady(planner, kind, start, 2, value, delivery, i);
    SmallWorkWrites(planner, kind, start, 2, value, delivery);
    var work := SmallWork(kind, start, 2, value, delivery);
    var write := FragmentAt(planner, StartCursor(work), 1);
    assert Covers(planner.routes, TableOf(kind), start, i);
    assert SameRegister(planner.routes, kind, start, start) && !RightAt(initial, write, start, start);
    NotRight(planner.routes, initial, write, start, start);
    SmallWorkIsCurrent(kind, start, 2, value, delivery);
    WrongRecordDrifts(cfg, initial, memory, work, READY_SESSION);
  }

  lemma {:induction false} AliasDrifts(
    cfg: Config, initial: Images, memory: Memory, kind: ValueKind, delivery: IngressDelivery, a: int, b: int)
    requires CanRun(cfg) && Agrees(cfg.planner.routes, initial, memory) && cfg.planner.Limit(kind) > 0
    requires IsAccepted(delivery) && !cfg.planner.Policy(delivery).UnknownPolicy?
    requires 0 <= a < |initial.Of(kind)| && a != b && SameRegister(cfg.planner.routes, kind, a, b)
    ensures exists inputs :: !RunAgrees(cfg, initial, memory, inputs)
  {
    hide BeginStatus, Plannable, Agrees, FragmentAt, Validated, ValuesOf, SmallWork, QuantityAt;
    var planner := cfg.planner;
    ValidIsOrdered(planner.routes, TableOf(kind));
    var i, value := RouteOf(planner.routes, TableOf(kind), b), Different(kind, initial.Of(kind)[a]);
    SmallWorkIsReady(planner, kind, b, 1, value, delivery, i);
    SmallWorkWrites(planner, kind, b, 1, value, delivery);
    var work := SmallWork(kind, b, 1, value, delivery);
    var write := FragmentAt(planner, StartCursor(work), 1);
    assert !RightAt(initial, write, a, b);
    NotRight(planner.routes, initial, write, a, b);
    SmallWorkIsCurrent(kind, b, 1, value, delivery);
    WrongRecordDrifts(cfg, initial, memory, work, READY_SESSION);
  }

  const READY_SESSION := SessionState(true, 1, 1, SessionReady)

  lemma {:induction false} SmallWorkIsCurrent(
    kind: ValueKind, start: u16, count: nat, value: Value, delivery: IngressDelivery)
    requires count < ADDRESS_SPACE
    ensures WorkCurrent(SmallWork(kind, start, count, value, delivery).identity, READY_SESSION)
  {}

  lemma {:induction false} NotRight(view: RouteTableView, images: Images, write: PlannedWrite, a: int, x: int)
    requires write.upstreamStart <= x < write.upstreamStart + |ValuesOf(write)|
    requires SameRegister(view, KindOf(write), a, x) && !RightAt(images, write, a, x)
    ensures !RecordsRightly(view, images, write)
  {}

  // ----- nothing to drift -----

  lemma {:induction false} NeverAdmits(cfg: Config, s: BridgeState, work: IngressWork, session: SessionState)
    requires Invariant(cfg, s) && !AdmitsWorks(cfg) && s.queue == []
    ensures !AdmitWorkResult(cfg, s, work, session).status.WorkAdmitted?
  {
    hide Entries, SpanRouted, Usable;
  }

  lemma {:induction false} StepAdmitsOnly(cfg: Config, run: Run, input: Input)
    requires run.lives == []
    requires input.AdmitWorkCall? ==>
               !AdmitWorkResult(cfg, run.state, input.work, input.session).status.WorkAdmitted?
    ensures Step(cfg, run, input).lives == []
  {
    hide AdmitWorkResult, AdmitActionStatusOf, RePreview, AfterAdmitAction, CompleteResult, AfterComplete,
      DiscardStatus, RetirementOf, AfterRetire, Transition, AfterReset;
  }

  lemma {:induction false} NothingEverAdmitted(cfg: Config, initial: Images, inputs: seq<Input>)
    requires Usable(cfg.planner.routes) && !AdmitsWorks(cfg)
    ensures RunOf(cfg, initial, inputs).lives == []
    decreases |inputs|
  {
    hide Step, RunInvariant, Invariant, AdmitsWorks, AdmitWorkResult, Usable;
    if inputs == [] {
    } else {
      var before, last := inputs[..|inputs| - 1], inputs[|inputs| - 1];
      NothingEverAdmitted(cfg, initial, before);
      ReachableStates(cfg, initial, before);
      ReachableRuns(cfg, initial, before);
      NoLivesNoQueue(cfg, initial, RunOf(cfg, initial, before));
      if last.AdmitWorkCall? {
        NeverAdmits(cfg, RunOf(cfg, initial, before).state, last.work, last.session);
      }
      StepAdmitsOnly(cfg, RunOf(cfg, initial, before), last);
    }
  }

  lemma {:induction false} NoLivesNoQueue(cfg: Config, initial: Images, run: Run)
    requires RunInvariant(cfg, initial, run) && run.lives == []
    ensures run.state.queue == [] && run.applied == [] && run.images == initial
  {
    hide Invariant, FrontHolds, HandedBack;
    LivesCount(cfg.planner, run);
    assert AppliedParts(run.lives) == [];
  }

  lemma {:induction false} IdleAgrees(cfg: Config, initial: Images, memory: Memory, inputs: seq<Input>)
    requires Usable(cfg.planner.routes) && !AdmitsWorks(cfg) && Agrees(cfg.planner.routes, initial, memory)
    ensures RunAgrees(cfg, initial, memory, inputs)
  {
    hide RunOf, RunInvariant, Agrees, AdmitsWorks, Usable;
    NothingEverAdmitted(cfg, initial, inputs);
    ReachableRuns(cfg, initial, inputs);
    NoLivesNoQueue(cfg, initial, RunOf(cfg, initial, inputs));
    NothingToExecute(memory);
  }

  // ----- exactly when -----

  lemma {:induction false} UnseparatedDrifts(cfg: Config, initial: Images, memory: Memory, kind: ValueKind)
    requires Usable(cfg.planner.routes) && AdmitsWorks(cfg) && Agrees(cfg.planner.routes, initial, memory)
    requires !Separated(cfg.planner, kind, |initial.Of(kind)|)
    ensures exists inputs :: !RunAgrees(cfg, initial, memory, inputs)
  {
    hide Usable, Agrees, RunAgrees, CutAt, SameRegister;
    var size, planner := |initial.Of(kind)|, cfg.planner;
    var delivery :| IsAccepted(delivery) && !planner.Policy(delivery).UnknownPolicy?;
    if !NoAliasInto(planner.routes, kind, size) {
      var a, b :| 0 <= a < size && a != b && SameRegister(planner.routes, kind, a, b);
      AliasDrifts(cfg, initial, memory, kind, delivery, a, b);
    } else {
      var i :| 0 <= i < |planner.routes.routes| && CutAt(planner, kind, size, i);
      CutDrifts(cfg, initial, memory, kind, delivery, i);
    }
  }

  /** Which configurations keep applied image and endpoints in agreement over every run: exactly those
      that admit no work at all, or in which for each kind of write that is sent at all, no other
      address shares the register of an address inside the image, and no request can straddle the end
      of the image. Agreement is about every routed address inside its image; it starts out true, and
      exactly the writes reported as applied took effect. */
  lemma {:induction false} AgreementExact(cfg: Config, initial: Images, memory: Memory)
    requires Usable(cfg.planner.routes) && Agrees(cfg.planner.routes, initial, memory)
    ensures (forall inputs :: RunAgrees(cfg, initial, memory, inputs))
            <==> !AdmitsWorks(cfg) || forall kind :: Separated(cfg.planner, kind, |initial.Of(kind)|)
  {
    hide RunAgrees, Agrees, Separated, AdmitsWorks, Usable;
    if !AdmitsWorks(cfg) {
      forall inputs
        ensures RunAgrees(cfg, initial, memory, inputs)
      {
        IdleAgrees(cfg, initial, memory, inputs);
      }
    } else if forall kind :: Separated(cfg.planner, kind, |initial.Of(kind)|) {
      forall inputs
        ensures RunAgrees(cfg, initial, memory, inputs)
      {
        EveryRunAgrees(cfg, initial, memory, inputs);
      }
    } else {
      var kind :| !Separated(cfg.planner, kind, |initial.Of(kind)|);
      UnseparatedDrifts(cfg, initial, memory, kind);
    }
  }

  // ----- a table that validates and drifts -----

  /** Maps one upstream register, in every table, to register 0 of endpoint 1. */
  function RouteToZero(address: u16): EndpointRoute {
    var up, down := AddressRange(address, 1), AddressRange(0, 1);
    EndpointRoute(1, TableRanges(up, up, up, up), TableRanges(down, down, down, down))
  }

  /** Upstream registers 0 and 1 share register 0 of endpoint 1. */
  function SharedRegister(): ForwardPlanner {
    ForwardPlanner(RawRouteTable(true, [RouteToZero(0), RouteToZero(1)]),
                   ForwardPlanOptions(1, 1, PreflightAndSplit, PreflightAndSplit))
  }

  lemma {:induction false} RouteToZeroRanges(address: u16, table: RegisterTable)
    ensures RouteToZero(address).Up(table) == AddressRange(address, 1)
    ensures RouteToZero(address).Down(table) == AddressRange(0, 1)
    ensures RouteToZero(address).endpointId == 1
  {}

  lemma {:induction false} SharedRegisterUsable()
    ensures Usable(SharedRegister().routes)
  {
    hide RouteToZero;
    forall table
      ensures Ordered(SharedRegister().routes, table)
    {
      RouteToZeroRanges(0, table);
      RouteToZeroRanges(1, table);
    }
  }

  lemma {:induction false} SharedRegisterRoutes()
    ensures var view := SharedRegister().routes;
            && Usable(view)
            && (forall address | Routed(view, HoldingRegisters, address) :: address == 0 || address == 1)
            && SameRegister(view, HoldingValues, 0, 1)
            && Translate(view, HoldingValues, 0) == Location(1, HoldingValues, 0)
  {
    hide RouteToZero, Validated, Ordered;
    var view := SharedRegister().routes;
    SharedRegisterUsable();
    RouteToZeroRanges(0, HoldingRegisters);
    RouteToZeroRanges(1, HoldingRegisters);
    assert Covers(view, HoldingRegisters, 0, 0) && Covers(view, HoldingRegisters, 1, 1);
    ValidIsOrdered(view, HoldingRegisters);
    RouteUnique(view, HoldingRegisters, 0, 0);
    RouteUnique(view, HoldingRegisters, 1, 1);
  }

  /** With single-register requests and images that cut no route: image and endpoint start out equal,
      and some run makes them differ. */
  lemma {:induction false} SharedRegisterDrifts()
    ensures var cfg := Config(SharedRegister(), PollPlannerOptions(1), 1, 1, true);
            var zero := Register(0);
            var initial, memory := Images([], [zero, zero]), map[Location(1, HoldingValues, 0) := zero];
            && Usable(cfg.planner.routes)
            && (forall kind :: NoRouteCut(cfg.planner, kind, |initial.Of(kind)|))
            && Agrees(cfg.planner.routes, initial, memory)
            && exists inputs :: !RunAgrees(cfg, initial, memory, inputs)
  {
    hide Usable, RunAgrees, Routed, Translate;
    var cfg := Config(SharedRegister(), PollPlannerOptions(1), 1, 1, true);
    var zero, view := Register(0), cfg.planner.routes;
    var initial, memory := Images([], [zero, zero]), map[Location(1, HoldingValues, 0) := zero];
    SharedRegisterRoutes();
    forall kind, address
      ensures AgreesAt(view, initial, memory, kind, address)
    {
      assert Routed(view, HoldingRegisters, address) ==> address == 0 || address == 1;
    }
    assert IsAccepted(Tracked);
    AliasDrifts(cfg, initial, memory, HoldingValues, Tracked, 0, 1);
  }
}
