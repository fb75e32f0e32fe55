/** What holds of every run of the engine. */
module StoreForwardTheorems {
  import opened Words
  import opened IngressWork
  import opened RouteTable
  import opened ForwardPlan
  import opened ForwardMeaning
  import opened CacheImage
  import opened CompletionTransition
  import opened CompletionLedger
  import opened PollPlanner
  import opened StoreForwardState
  import opened StoreForwardRuns

  // ----- positions in a plan -----

  /** Before fragment `k` the cursor stands where the next step of the plan is exactly fragment `k`,
      and that fragment is marked final if and only if it is the last. */
  lemma {:induction false} PlanAt(planner: ForwardPlanner, work: IngressWork, k: nat)
    requires Usable(planner.routes) && BeginStatus(planner, work).Ready? && k < |PlanOf(planner, work)|
    ensures var cursor, plan := CursorAfter(planner, StartCursor(work), k), PlanOf(planner, work);
            && OnPlan(planner, cursor)
            && cursor.work == work
            && cursor.active
            && Plannable(planner, cursor)
            && FragmentAt(planner, cursor, 0) == plan[k]
            && CursorAfter(planner, StartCursor(work), k + 1) == CursorAfterFragment(planner, cursor)
            && (plan[k].finalFragment <==> k + 1 == |plan|)
            && (plan[k].finalFragment <==> QuantityAt(planner, cursor) == cursor.remaining)
  {
    StartIsOnPlan(planner, work);
    var start := StartCursor(work);
    hide OnPlan, Plannable, Plan, CursorAfter, BeginStatus;
    PlanAfter(planner, start, k);
    var cursor := CursorAfter(planner, start, k);
    PlanUnfolds(planner, cursor);
    CursorAfterOneMore(planner, start, k);
    PlanAfter(planner, start, k + 1);
    assert Plan(planner, start)[k..][0] == Plan(planner, start)[k];
  }

  lemma {:induction false} PlanPosition(planner: ForwardPlanner, work: IngressWork, k: nat)
    requires Usable(planner.routes) && BeginStatus(planner, work).Ready? && k <= |PlanOf(planner, work)|
    ensures CursorAfter(planner, StartCursor(work), k).active <==> k < |PlanOf(planner, work)|
    ensures CursorAfter(planner, StartCursor(work), k).work == work
    ensures |PlanOf(planner, work)| > 0
  {
    StartIsOnPlan(planner, work);
    PlanAfter(planner, StartCursor(work), k);
    PlanAfter(planner, StartCursor(work), 0);
  }

  lemma {:induction false} NumberingIsAll(planner: ForwardPlanner, cursor: ForwardCursor, sequence: u32)
    requires Plannable(planner, cursor)
    ensures Unnumbered(FragmentAt(planner, cursor, sequence)) == FragmentAt(planner, cursor, 0)
    ensures FragmentAt(planner, cursor, sequence).finalFragment == FragmentAt(planner, cursor, 0).finalFragment
  {}

  // ----- one life goes on -----

  lemma {:induction false} NewLife(planner: ForwardPlanner, work: IngressWork, context: Handle)
    requires Usable(planner.routes) && BeginStatus(planner, work).Ready? && work.snapshot.data.Buffer?
    requires work.snapshot.count == work.count
    ensures var life := WorkLife(work, context, [], [], [], StillQueued);
            && LifeOk(planner, life)
            && Continues(planner, life, PackWork(work, StartCursor(work), context), true, None)
            && Continues(planner, life, PackWork(work, StartCursor(work), context), false, None)
  {
    PlanPosition(planner, work, 0);
    hide BeginStatus, Plan, OnPlan;
  }

  lemma {:induction false} IssueLife(planner: ForwardPlanner, life: WorkLife, slot: WorkSlot, sequence: u32)
    requires LifeOk(planner, life) && Continues(planner, life, slot, false, None)
    requires Plannable(planner, AsCursor(slot))
    ensures var cursor := AsCursor(slot);
            var write := FragmentAt(planner, cursor, sequence);
            var after := life.(issued := life.issued + [write]);
            && LifeOk(planner, after)
            && Continues(planner, after, UpdateFrom(slot, CursorAfterFragment(planner, cursor)), false, Some(write))
  {
    hide Plan, Plannable, CursorAfter, BeginStatus, FragmentAt, Usable;
    var k, cursor := |life.issued|, AsCursor(slot);
    PlanPosition(planner, life.work, k);
    ActiveIsPlannable(planner, cursor);
    PlanAt(planner, life.work, k);
    NumberingIsAll(planner, cursor, sequence);
    assert AsCursor(UpdateFrom(slot, CursorAfterFragment(planner, cursor))) == CursorAfterFragment(planner, cursor);
  }

  lemma {:induction false} ActiveIsPlannable(planner: ForwardPlanner, cursor: ForwardCursor)
    requires Plannable(planner, cursor)
    ensures cursor.active
  {}

  lemma {:induction false} SucceededExtends(outcomes: seq<DownstreamOutcome>, outcome: DownstreamOutcome)
    requires AllSucceeded(outcomes)
    ensures AllSucceeded(outcomes + [outcome]) <==> outcome == Applied
    ensures (outcomes + [outcome])[..|outcomes|] == outcomes
  {
    assert (outcomes + [outcome])[|outcomes|] == outcome;
  }

  /** The fragment in flight ends: the work's life goes on, or ends as completed, with the notice that
      is owed by then. */
  lemma {:induction false} ResolveLife(
    planner: ForwardPlanner, life: WorkLife, slot: WorkSlot, record: LedgerSlot, write: PlannedWrite,
    outcome: DownstreamOutcome, result: StoreForwardCompletion)
    requires LifeOk(planner, life) && Continues(planner, life, slot, false, Some(write))
    requires EntryAgrees(planner, slot, record, false, Some(write)) && IsKnownOutcome(outcome)
    requires result.decision == DecisionFor(record.aggregate, write, outcome)
    requires result.workRetired <==> outcome != Applied || write.finalFragment
    ensures var after := LifeAfterResult(life, outcome, result);
            && LifeOk(planner, after)
            && (!result.workRetired ==> Continues(planner, after, slot, false, None))
            && (result.workRetired <==> !after.ending.StillQueued?)
  {
    var k, after := |life.outcomes|, LifeAfterResult(life, outcome, result);
    NothingAnnounced(planner, slot, record, write);
    hide Plan, Plannable, CursorAfter, BeginStatus, FragmentAt, Usable, OnPlan, EntryAgrees;
    PlanPosition(planner, life.work, k);
    PlanAt(planner, life.work, k);
    assert Unnumbered(life.issued[k]) == PlanOf(planner, life.work)[k];
    SucceededExtends(life.outcomes, outcome);
    hide AllSucceeded;
    assert FollowsPlan(planner, after);
    assert after.notices == NoticesOwed(planner, after);
  }

  lemma {:induction false} NothingAnnounced(planner: ForwardPlanner, slot: WorkSlot, record: LedgerSlot,
      write: PlannedWrite)
    requires EntryAgrees(planner, slot, record, false, Some(write))
    ensures !record.aggregate.noticeEmitted && !record.aggregate.failed
    ensures record.aggregate.delivery == slot.workDelivery
  {}

  /** A live work that is dropped before its plan is through ends without any notice. */
  lemma {:induction false} DropLife(planner: ForwardPlanner, life: WorkLife, slot: WorkSlot, ending: Ending,
      inFlight: Option<PlannedWrite>, waiting: bool)
    requires LifeOk(planner, life) && Continues(planner, life, slot, waiting, inFlight)
    requires (ending.EndedStale? && inFlight.Some?) || ((ending.EndedRetired? || ending.EndedReset?) && inFlight.None?)
    ensures LifeOk(planner, life.(ending := ending))
    ensures life.work.delivery.Tracked? ==> life.notices == []
  {
    hide Plan, Plannable, CursorAfter, BeginStatus, Usable, AllSucceeded;
    assert FollowsPlan(planner, life.(ending := ending));
  }

  // ----- all lives go on -----

  lemma {:induction false} FrontLifeContinues(planner: ForwardPlanner, run: Run)
    requires Lives(planner, run) && run.state.queue != []
    ensures run.finished < |run.lives|
    ensures FrontLife(run) == run.lives[run.finished] && LifeOk(planner, FrontLife(run))
    ensures Continues(planner, FrontLife(run), run.state.queue[0], false, WriteInFlight(run.state))
  {
    assert LifeAt(planner, run, run.finished);
  }

  lemma {:induction false} FrontReplaced(planner: ForwardPlanner, run: Run, after: Run, life: WorkLife, slot: WorkSlot)
    requires Lives(planner, run) && run.state.queue != []
    requires after.lives == WithFrontLife(run, life) && after.finished == run.finished
    requires after.state.queue == run.state.queue[0 := slot]
    requires LifeOk(planner, life) && Continues(planner, life, slot, false, WriteInFlight(after.state))
    ensures Lives(planner, after)
  {
    hide LifeOk, Continues;
    forall i
      ensures LifeAt(planner, after, i)
    {
      assert LifeAt(planner, run, i);
    }
  }

  lemma {:induction false} FrontFinished(planner: ForwardPlanner, run: Run, after: Run, life: WorkLife)
    requires Lives(planner, run) && run.state.queue != []
    requires after.lives == WithFrontLife(run, life) && after.finished == run.finished + 1
    requires after.state.queue == run.state.queue[1..] && WriteInFlight(after.state).None?
    requires LifeOk(planner, life) && !life.ending.StillQueued?
    ensures Lives(planner, after)
  {
    hide LifeOk;
    forall i
      ensures LifeAt(planner, after, i)
    {
      assert LifeAt(planner, run, i);
    }
  }

  lemma {:induction false} SameLives(planner: ForwardPlanner, run: Run, after: Run)
    requires Lives(planner, run) && after.lives == run.lives && after.finished == run.finished
    requires after.state.queue == run.state.queue && WriteInFlight(after.state) == WriteInFlight(run.state)
    ensures Lives(planner, after)
  {
    hide LifeOk, Continues;
    forall i
      ensures LifeAt(planner, after, i)
    {
      assert LifeAt(planner, run, i);
    }
  }

  // ----- traces go on -----

  lemma {:induction false} WaitingIsBlank(planner: ForwardPlanner, run: Run)
    requires Lives(planner, run)
    ensures forall i | run.finished < i < |run.lives| :: Blank(run.lives[i])
  {
    hide PlanOf, AllSucceeded, BeginStatus, FollowsPlan;
    forall i | run.finished < i < |run.lives|
      ensures Blank(run.lives[i])
    {
      assert LifeAt(planner, run, i);
      NothingOwedYet(planner, run.lives[i]);
    }
  }

  predicate Blank(life: WorkLife) {
    life.issued == [] && life.outcomes == [] && life.notices == []
  }

  /** A work that is still queued has announced nothing. */
  lemma {:induction false} NothingOwedYet(planner: ForwardPlanner, life: WorkLife)
    requires LifeOk(planner, life) && life.ending.StillQueued?
    ensures life.notices == []
  {
    hide BeginStatus, FollowsPlan, Plan;
  }

  /** A front life that issues one more write extends the trace of writes by it. */
  lemma {:induction false} IssueTrace(planner: ForwardPlanner, run: Run, life: WorkLife, write: PlannedWrite)
    requires Lives(planner, run) && run.state.queue != []
        && life == FrontLife(run).(issued := FrontLife(run).issued + [write])
    ensures var lives := WithFrontLife(run, life);
            && Concat(IssuedParts(lives)) == Concat(IssuedParts(run.lives)) + [write]
            && Concat(AppliedParts(lives)) == Concat(AppliedParts(run.lives))
            && Concat(NoticeParts(lives)) == Concat(NoticeParts(run.lives))
            && HandedBack(lives, run.finished) == HandedBack(run.lives, run.finished)
  {
    var lives := WithFrontLife(run, life);
    FrontLifeContinues(planner, run);
    WaitingIsBlank(planner, run);
    ConcatGrows(IssuedParts(run.lives), run.finished, [write]);
    assert IssuedParts(lives) == IssuedParts(run.lives)[run.finished := FrontLife(run).issued + [write]];
    AppliedIgnoresUnresolved(FrontLife(run).issued, [write], FrontLife(run).outcomes);
    assert AppliedParts(lives) == AppliedParts(run.lives);
    NoticesUnchanged(run, life);
    HandedBackSame(run.lives, lives, run.finished);
  }

  lemma {:induction false} NoticesUnchanged(run: Run, life: WorkLife)
    requires life.work == FrontLife(run).work && life.notices == FrontLife(run).notices
    ensures NoticeParts(WithFrontLife(run, life)) == NoticeParts(run.lives)
  {}

  /** A front life whose work gets one more notice extends what has been announced by it. */
  lemma {:induction false} NoticeTrace(planner: ForwardPlanner, run: Run, life: WorkLife, notice: CompletionNotice)
    requires Lives(planner, run) && run.state.queue != []
    requires life.work == FrontLife(run).work && life.notices == Announced(FrontLife(run).notices, notice)
    ensures Concat(NoticeParts(WithFrontLife(run, life)))
            == Concat(NoticeParts(run.lives))
               + (if notice == NoNotice then [] else [Announcement(life.work.identity, notice)])
  {
    var lives, parts := WithFrontLife(run, life), NoticeParts(run.lives);
    var more := if notice == NoNotice then [] else [Announcement(life.work.identity, notice)];
    FrontLifeContinues(planner, run);
    WaitingIsBlank(planner, run);
    assert NoticesOf(life) == parts[run.finished] + more;
    ConcatGrows(parts, run.finished, more);
    assert NoticeParts(lives) == parts[run.finished := parts[run.finished] + more];
  }

  /** A front life whose write in flight ends extends the trace of applied writes, if it applied. */
  lemma {:induction false} ResolveTrace(
    planner: ForwardPlanner, run: Run, life: WorkLife, write: PlannedWrite, outcome: DownstreamOutcome)
    requires Lives(planner, run) && run.state.queue != [] && WriteInFlight(run.state) == Some(write)
    requires life.issued == FrontLife(run).issued && life.outcomes == FrontLife(run).outcomes + [outcome]
    ensures var lives := WithFrontLife(run, life);
            && Concat(IssuedParts(lives)) == Concat(IssuedParts(run.lives))
            && Concat(AppliedParts(lives)) == Concat(AppliedParts(run.lives))
                                             + (if outcome == Applied then [write] else [])
            && HandedBack(lives, run.finished) == HandedBack(run.lives, run.finished)
  {
    var lives, front := WithFrontLife(run, life), FrontLife(run);
    var more := if outcome == Applied then [write] else [];
    FrontLifeContinues(planner, run);
    WaitingIsBlank(planner, run);
    assert IssuedParts(lives) == IssuedParts(run.lives);
    AppliedGrows(front.issued, front.outcomes, outcome);
    ConcatGrows(AppliedParts(run.lives), run.finished, more);
    assert AppliedParts(lives) == AppliedParts(run.lives)[run.finished := AppliedParts(run.lives)[run.finished] + more];
    HandedBackSame(run.lives, lives, run.finished);
  }

  /** Changing only how a life ends leaves the traces alone. */
  lemma {:induction false} EndingTrace(run: Run, life: WorkLife)
    requires run.finished < |run.lives|
    requires life == FrontLife(run).(ending := life.ending)
    ensures var lives := WithFrontLife(run, life);
            && Concat(IssuedParts(lives)) == Concat(IssuedParts(run.lives))
            && Concat(AppliedParts(lives)) == Concat(AppliedParts(run.lives))
            && Concat(NoticeParts(lives)) == Concat(NoticeParts(run.lives))
            && HandedBack(lives, run.finished) == HandedBack(run.lives, run.finished)
  {
    var lives := WithFrontLife(run, life);
    assert IssuedParts(lives) == IssuedParts(run.lives);
    assert AppliedParts(lives) == AppliedParts(run.lives);
    NoticesUnchanged(run, life);
    HandedBackSame(run.lives, lives, run.finished);
  }

  /** Finishing the front life hands back its identity and context, unless a reset dropped it. */
  lemma {:induction false} HandBackOne(lives: seq<WorkLife>, finished: nat)
    requires finished < |lives| && !lives[finished].ending.EndedReset?
    ensures HandedBack(lives, finished + 1)
            == HandedBack(lives, finished) + [Returned(lives[finished].work.identity, lives[finished].context)]
  {}

  // ----- the applied image goes on -----

  lemma {:induction false} NothingResolvedHolds(planner: ForwardPlanner, run: Run)
    requires run.finished < |run.lives| ==> run.lives[run.finished].outcomes == []
    ensures FrontHolds(planner, run)
  {
    if run.finished < |run.lives| {
      var work, image := run.lives[run.finished].work, run.images.Of(run.lives[run.finished].work.kind);
      assert ResolvedCount(planner, run.lives[run.finished]) == 0;
      if work.start + work.count <= |image| {
        assert image[work.start..work.start] == [];
      }
    }
  }

  /** What a fragment carries, seen from the work it belongs to. */
  lemma {:induction false} FragmentPayload(planner: ForwardPlanner, cursor: ForwardCursor, write: PlannedWrite)
    requires OnPlan(planner, cursor) && Plannable(planner, cursor)
        && Unnumbered(write) == FragmentAt(planner, cursor, 0)
    ensures var work, q, next := cursor.work, QuantityAt(planner, cursor), CursorAfterFragment(planner, cursor);
            && write.table == TableOf(work.kind)
            && write.upstreamStart == work.start + cursor.sourceOffset
            && write.quantity == q
            && next.sourceOffset == cursor.sourceOffset + q <= work.count
            && work.snapshot.data.Buffer? && work.count <= |work.snapshot.data.values|
            && PayloadOf(work.kind, write).Buffer?
            && PayloadOf(work.kind, write).values == work.snapshot.data.values[cursor.sourceOffset..]
  {
    OnPlanStep(planner, cursor);
  }

  lemma {:induction false} OverwriteExtends(image: seq<Value>, at: nat, offset: nat, values: seq<Value>, q: nat)
    requires offset + q <= |values| && at + offset + q <= |image| && image[at..at + offset] == values[..offset]
    ensures Overwrite(image, at + offset, values[offset..][..q])[at..at + offset + q] == values[..offset + q]
  {
    var part := Overwrite(image, at + offset, values[offset..][..q])[at..at + offset + q];
    assert part[..offset] == image[at..at + offset];
    assert part == part[..offset] + values[offset..][..q];
    assert values[..offset + q] == values[..offset] + values[offset..][..q];
  }

  /** Recording the next fragment of a work extends the part of the image that holds its snapshot. */
  lemma {:induction false} FragmentExtendsImage(planner: ForwardPlanner, cursor: ForwardCursor, write: PlannedWrite,
      images: Images)
    requires OnPlan(planner, cursor) && Plannable(planner, cursor)
        && Unnumbered(write) == FragmentAt(planner, cursor, 0)
    requires Holds(images, cursor.work, cursor.sourceOffset)
    ensures Holds(RecordOne(images, write), cursor.work, CursorAfterFragment(planner, cursor).sourceOffset)
  {
    hide OnPlan, Plannable, FragmentAt, CursorAfterFragment, QuantityAt, Holds, RecordOne, PayloadOf;
    FragmentPayload(planner, cursor, write);
    WriteExtendsImage(cursor.work, cursor.sourceOffset, QuantityAt(planner, cursor), write, images);
  }

  lemma {:induction false} WriteExtendsImage(work: IngressWork, offset: nat, q: nat, write: PlannedWrite,
      images: Images)
    requires work.snapshot.data.Buffer? && offset + q <= work.count <= |work.snapshot.data.values|
    requires write.table == TableOf(work.kind) && write.upstreamStart == work.start + offset && write.quantity == q > 0
    requires PayloadOf(work.kind, write).Buffer?
    requires PayloadOf(work.kind, write).values == work.snapshot.data.values[offset..]
    requires Holds(images, work, offset)
    ensures Holds(RecordOne(images, write), work, offset + q)
  {
    hide RecordOne, Overwrite;
    RecordKeepsSizes(images, write);
    var image := images.Of(work.kind);
    if work.start + work.count <= |image| {
      OverwriteExtends(image, work.start, offset, work.snapshot.data.values, q);
      RecordOneOverwrites(images, write, work.kind);
    }
  }

  lemma {:induction false} RecordOneOverwrites(images: Images, write: PlannedWrite, kind: ValueKind)
    requires write.table == TableOf(kind) && Fits(kind, write, |images.Of(kind)|)
    ensures RecordOne(images, write).Of(kind)
            == Overwrite(images.Of(kind), write.upstreamStart, PayloadOf(kind, write).values[..write.quantity])
  {}

  lemma {:induction false} RecordKeepsSizes(images: Images, write: PlannedWrite)
    ensures forall kind :: |RecordOne(images, write).Of(kind)| == |images.Of(kind)|
  {}

  /** Passing on the decision about a known outcome records the write if and only if it applied. */
  lemma {:induction false} DecisionRecords(images: Images, aggregate: CompletionAggregate, write: PlannedWrite,
      outcome: DownstreamOutcome, kind: ValueKind)
    requires write.table == TableOf(kind)
    ensures Transition(images, write, DecisionFor(aggregate, write, outcome))
            == if outcome == Applied then RecordOne(images, write) else images
  {}

  lemma {:induction false} RejectionRecordsNothing(images: Images, write: PlannedWrite,
      status: CompletionDecisionStatus)
    requires status != Current
    ensures Transition(images, write, RejectedDecision(status)) == images
  {}

  /** A front life's next applied fragment keeps the image in step with it. */
  lemma {:induction false} FrontImageStep(planner: ForwardPlanner, life: WorkLife, images: Images)
    requires LifeOk(planner, life) && AllSucceeded(life.outcomes) && |life.issued| == |life.outcomes| + 1
    requires Holds(images, life.work, ResolvedCount(planner, life))
    ensures var k := |life.outcomes|;
            && life.issued[k].table == TableOf(life.work.kind)
            && ResolvedCount(planner, life.(outcomes := life.outcomes + [Applied])) <= life.work.count
            && Holds(RecordOne(images, life.issued[k]), life.work,
                     ResolvedCount(planner, life.(outcomes := life.outcomes + [Applied])))
            && (life.issued[k].finalFragment ==>
                  ResolvedCount(planner, life.(outcomes := life.outcomes + [Applied])) == life.work.count)
  {
    var k := |life.outcomes|;
    hide Plan, CursorAfter, BeginStatus, FragmentAt, CursorAfterFragment, Usable, Holds, RecordOne;
    PlanAt(planner, life.work, k);
    var cursor := CursorAfter(planner, StartCursor(life.work), k);
    assert Unnumbered(life.issued[k]) == PlanOf(planner, life.work)[k];
    hide LifeOk;
    FragmentPayload(planner, cursor, life.issued[k]);
    FragmentExtendsImage(planner, cursor, life.issued[k], images);
  }

  // ----- every step keeps the run invariant -----

  /** A newly admitted life extends no trace. */
  lemma {:induction false} PushTrace(lives: seq<WorkLife>, life: WorkLife, finished: nat)
    requires Blank(life) && finished <= |lives|
    ensures Concat(IssuedParts(lives + [life])) == Concat(IssuedParts(lives))
    ensures Concat(AppliedParts(lives + [life])) == Concat(AppliedParts(lives))
    ensures Concat(NoticeParts(lives + [life])) == Concat(NoticeParts(lives))
    ensures HandedBack(lives + [life], finished) == HandedBack(lives, finished)
  {
    hide Concat, HandedBack, IssuedParts, AppliedParts, NoticeParts;
    PushedParts(lives, life);
    ConcatPush(IssuedParts(lives));
    ConcatPush(AppliedParts(lives));
    ConcatPush(NoticeParts(lives));
    assert (lives + [life])[..finished] == lives[..finished];
    HandedBackSame(lives, lives + [life], finished);
  }

  lemma {:induction false} PushedParts(lives: seq<WorkLife>, life: WorkLife)
    requires Blank(life)
    ensures IssuedParts(lives + [life]) == IssuedParts(lives) + [[]]
    ensures AppliedParts(lives + [life]) == AppliedParts(lives) + [[]]
    ensures NoticeParts(lives + [life]) == NoticeParts(lives) + [[]]
  {
    hide IssuedParts, AppliedParts, NoticeParts;
    assert AppliedWrites(life.issued, life.outcomes) == [];
    hide AppliedWrites;
    assert NoticesOf(life) == [];
  }

  lemma {:induction false} LifePushed(planner: ForwardPlanner, run: Run, after: Run, life: WorkLife, slot: WorkSlot)
    requires Lives(planner, run) && after.lives == run.lives + [life] && after.finished == run.finished
    requires after.state.queue == run.state.queue + [slot] && WriteInFlight(after.state) == WriteInFlight(run.state)
    requires WriteInFlight(run.state).Some? ==> run.state.queue != []
    requires LifeOk(planner, life) && Continues(planner, life, slot, true, None)
        && Continues(planner, life, slot, false, None)
    ensures Lives(planner, after)
  {
    hide LifeOk, Continues;
    forall i
      ensures LifeAt(planner, after, i)
    {
      assert LifeAt(planner, run, i);
    }
  }

  lemma {:induction false} AdmitWorkStep(
    cfg: Config, initial: Images, run: Run, work: IngressWork, session: SessionState, context: Handle)
    requires RunInvariant(cfg, initial, run)
    ensures RunInvariant(cfg, initial, RunAdmitWork(cfg, run, work, session, context))
  {
    hide Invariant, Lives, Concat, RecordAll, HandedBack, ResolvedCount, Holds, LifeOk, Continues, BeginStatus,
        Usable, NewSlot;
    if AdmitWorkResult(cfg, run.state, work, session).status.WorkAdmitted? {
      var after := RunAdmitWork(cfg, run, work, session, context);
      var life := WorkLife(work, context, [], [], [], StillQueued);
      AdmitWorkKeeps(cfg, run.state, work, session, context);
      AdmissionFacts(cfg, run.state, work, session);
      NewLife(cfg.planner, work, context);
      LifePushed(cfg.planner, run, after, life, PackWork(work, StartCursor(work), context));
      LivesCount(cfg.planner, run);
      PushTrace(run.lives, life, run.finished);
      if run.finished == |run.lives| {
        NothingResolvedHolds(cfg.planner, after);
      }
    }
  }

  lemma {:induction false} LivesCount(planner: ForwardPlanner, run: Run)
    requires Lives(planner, run)
    ensures |run.lives| == run.finished + |run.state.queue|
  {}

  lemma {:induction false} AdmitActionStep(
    cfg: Config, initial: Images, run: Run, action: StoreForwardAction, session: SessionState, polls: PollSet)
    requires RunInvariant(cfg, initial, run)
    ensures RunInvariant(cfg, initial, RunAdmitAction(cfg, run, action, session, polls))
  {
    hide Invariant, Lives, Concat, RecordAll, HandedBack, ResolvedCount, Holds, LifeOk, Continues, Preview,
        PollAfter, Plannable,
      FragmentAt, CursorAfterFragment, EntryAgrees;
    var s, after := run.state, RunAdmitAction(cfg, run, action, session, polls);
    if s.inFlight.None? && IsCurrentProposal(cfg, s, action, session, polls) && !action.kind.NoAction? {
      AdmitActionKeeps(cfg, s, action, session, polls);
      PreviewIsSound(cfg, s, session, action.selectedAt, polls, action.downstream.consistencyContext);
      if action.kind.ForwardWrite? {
        var front, life := s.queue[0], FrontLife(run).(issued := FrontLife(run).issued + [action.write]);
        FrontIsPlannable(cfg, s);
        IssueKeepsEntry(cfg.planner, front, s.ledger[front.workIdentity], action.sequence);
        FrontLifeContinues(cfg.planner, run);
        IssueLife(cfg.planner, FrontLife(run), front, action.sequence);
        FrontReplaced(cfg.planner, run, after, life, UpdateFrom(front, CursorAfterFragment(cfg.planner,
            AsCursor(front))));
        IssueTrace(cfg.planner, run, life, action.write);
        SameResolved(cfg.planner, FrontLife(run), life);
      } else {
        SameLives(cfg.planner, run, after);
      }
    }
  }

  lemma {:induction false} SameResolved(planner: ForwardPlanner, life: WorkLife, other: WorkLife)
    requires life.work == other.work && life.outcomes == other.outcomes
    ensures ResolvedCount(planner, life) == ResolvedCount(planner, other)
  {}

  /** After the front work has left, nothing of the next one has been resolved yet. */
  lemma {:induction false} NextFrontHolds(planner: ForwardPlanner, run: Run, after: Run, life: WorkLife)
    requires Lives(planner, run) && run.state.queue != []
    requires after.lives == WithFrontLife(run, life) && after.finished == run.finished + 1
    ensures FrontHolds(planner, after)
  {
    WaitingIsBlank(planner, run);
    NothingResolvedHolds(planner, after);
  }

  lemma {:induction false} CompleteStep(
    cfg: Config, initial: Images, run: Run, action: StoreForwardAction, outcome: DownstreamOutcome,
        session: SessionState)
    requires RunInvariant(cfg, initial, run)
    ensures RunInvariant(cfg, initial, RunComplete(run, action, outcome, session))
  {
    hide Invariant, Lives, Concat, RecordAll, HandedBack, FrontHolds, Transition;
    var s, status := run.state, CompleteStatusOf(run.state, action, outcome, session);
    CompleteKeeps(cfg, s, action, outcome, session);
    if status.Completed? && action.kind.ForwardWrite? {
      ResolveStep(cfg, initial, run, action, outcome, session);
    } else if status.CompleteStaleSession? {
      StaleStep(cfg, initial, run, action, outcome, session);
    } else {
      hide WorkCurrent, SlotAfterCompletion, Summarize, DecisionFor;
      var after := RunComplete(run, action, outcome, session);
      if status.Completed? {
        PollResult(cfg, s, action, outcome, session);
        SameLives(cfg.planner, run, after);
        SameFrontHolds(cfg.planner, run, after);
      } else {
        assert after == run;
      }
    }
  }

  lemma {:induction false} SameFrontHolds(planner: ForwardPlanner, run: Run, after: Run)
    requires FrontHolds(planner, run) && after.lives == run.lives && after.finished == run.finished
        && after.images == run.images
    ensures FrontHolds(planner, after)
  {}

  lemma {:induction false} PollResult(
    cfg: Config, s: BridgeState, action: StoreForwardAction, outcome: DownstreamOutcome, session: SessionState)
    requires Invariant(cfg, s) && CompleteStatusOf(s, action, outcome, session).Completed? && !action.kind.ForwardWrite?
    ensures var result, after := CompleteResult(s, action, outcome, session), AfterComplete(s, action, outcome,
        session);
            && !result.workRetired && !result.kind.ForwardWrite? && AnnouncementOf(result) == []
            && after.queue == s.queue && WriteInFlight(after) == WriteInFlight(s) == None
  {}

  /** The write in flight reaches a known outcome in a current session. */
  lemma {:induction false} ResolveStep(
    cfg: Config, initial: Images, run: Run, action: StoreForwardAction, outcome: DownstreamOutcome,
        session: SessionState)
    requires RunInvariant(cfg, initial, run)
    requires CompleteStatusOf(run.state, action, outcome, session).Completed? && action.kind.ForwardWrite?
    ensures RunInvariant(cfg, initial, RunComplete(run, action, outcome, session))
  {
    hide Invariant, Lives, Concat, RecordAll, RecordOne, HandedBack, Transition, LifeOk, Continues, Holds,
        ResolvedCount,
      CompleteResult, AfterComplete, WorkCurrent, DecisionFor, Summarize, SlotAfterCompletion, AfterResolve,
          EntryAgrees;
    var s, life, planner := run.state, FrontLife(run), cfg.planner;
    var after, result := RunComplete(run, action, outcome, session), CompleteResult(s, action, outcome, session);
    CompleteWriteShape(cfg, s, action, outcome, session);
    FrontInFlight(cfg, s);
    CurrentIfCompleted(s, action, outcome, session);
    FrontLifeContinues(planner, run);
    var front, record, next := s.queue[0], s.ledger[s.queue[0].workIdentity], LifeAfterResult(life, outcome, result);
    ResolveLife(planner, life, front, record, action.write, outcome, result);
    ResolveTrace(planner, run, next, action.write, outcome);
    NoticeTrace(planner, run, next, result.decision.notice);
    RecordOfEntry(planner, front, record, action.write);
    SummaryNamesWork(record, outcome);
    LiveFacts(planner, life, front, action.write);
    FrontImageStep(planner, life, run.images);
    DecisionRecords(run.images, record.aggregate, action.write, outcome, life.work.kind);
    RecordAllPush(initial, run.applied, action.write);
    if result.workRetired {
      FrontFinished(planner, run, after, next);
      HandBackOne(after.lives, run.finished);
      NextFrontHolds(planner, run, after, next);
    } else {
      assert s.queue == s.queue[0 := front];
      FrontReplaced(planner, run, after, next, front);
      SameResolved(planner, next, life.(outcomes := life.outcomes + [Applied]));
    }
  }

  lemma {:induction false} CurrentIfCompleted(
    s: BridgeState, action: StoreForwardAction, outcome: DownstreamOutcome, session: SessionState)
    requires CompleteStatusOf(s, action, outcome, session).Completed? && action.kind.ForwardWrite?
    ensures WorkCurrent(action.write.identity.work, session)
    ensures s.inFlight == Some(action) && IsKnownOutcome(outcome)
  {}

  lemma {:induction false} LiveFacts(planner: ForwardPlanner, life: WorkLife, slot: WorkSlot, write: PlannedWrite)
    requires LifeOk(planner, life) && Continues(planner, life, slot, false, Some(write))
    ensures AllSucceeded(life.outcomes) && |life.issued| == |life.outcomes| + 1 && life.issued[|life.outcomes|] == write
    ensures life.work.identity == slot.workIdentity && life.context == slot.userContext
  {
    hide Plan, BeginStatus, Usable, CursorAfter;
  }

  lemma {:induction false} SummaryNamesWork(record: LedgerSlot, outcome: DownstreamOutcome)
    ensures Summarize(record).work == record.aggregate.work
    ensures Summarize(SlotAfterCompletion(record, outcome)).work == record.aggregate.work
  {}

  /** The write in flight is refused because its session is over. */
  lemma {:induction false} StaleStep(
    cfg: Config, initial: Images, run: Run, action: StoreForwardAction, outcome: DownstreamOutcome,
        session: SessionState)
    requires RunInvariant(cfg, initial, run)
    requires CompleteStatusOf(run.state, action, outcome, session).CompleteStaleSession?
    ensures RunInvariant(cfg, initial, RunComplete(run, action, outcome, session))
  {
    hide Invariant, Lives, Concat, RecordAll, HandedBack, Transition, LifeOk, Continues, FrontHolds, CompleteResult,
      AfterComplete, WorkCurrent, DecisionFor, Summarize, SlotAfterCompletion, AfterResolve, EntryAgrees, IssuedParts,
      AppliedParts, NoticeParts, NextNonZeroSequence32;
    var s, life, planner := run.state, FrontLife(run), cfg.planner;
    var after := RunComplete(run, action, outcome, session);
    var ended := life.(ending := EndedStale);
    CompleteWriteShape(cfg, s, action, outcome, session);
    FrontInFlight(cfg, s);
    FrontLifeContinues(planner, run);
    DropLife(planner, life, s.queue[0], EndedStale, WriteInFlight(s), false);
    LiveFacts(planner, life, s.queue[0], action.write);
    RejectionRecordsNothing(run.images, action.write, StaleCompletion);
    SummaryNamesWork(s.ledger[s.queue[0].workIdentity], outcome);
    RecordOfEntry(planner, s.queue[0], s.ledger[s.queue[0].workIdentity], action.write);
    EndingTrace(run, ended);
    FrontFinished(planner, run, after, ended);
    HandBackOne(after.lives, run.finished);
    NextFrontHolds(planner, run, after, ended);
  }

  lemma {:induction false} RecordOfEntry(planner: ForwardPlanner, slot: WorkSlot, record: LedgerSlot,
      write: PlannedWrite)
    requires EntryAgrees(planner, slot, record, false, Some(write))
    ensures record.aggregate.work == slot.workIdentity
  {}

  lemma {:induction false} RetireStepKeeps(cfg: Config, initial: Images, run: Run, status: RetireStatus)
    requires RunInvariant(cfg, initial, run)
    requires status.Retired? && run.state.inFlight.None? && run.state.queue != []
    ensures RunInvariant(cfg, initial, RunRetire(run, status))
  {
    hide Invariant, Lives, Concat, RecordAll, HandedBack, LifeOk, Continues, FrontHolds, AfterRetire, RetirementOf,
      RetirementBack;
    var s, life, planner, after := run.state, FrontLife(run), cfg.planner, RunRetire(run, status);
    var ended := life.(ending := EndedRetired);
    RetiredFront(s, status);
    RetireKeeps(cfg, s, status);
    FrontLifeContinues(planner, run);
    DropLife(planner, life, s.queue[0], EndedRetired, None, false);
    IdleFacts(planner, life, s.queue[0]);
    EndingTrace(run, ended);
    FrontFinished(planner, run, after, ended);
    HandBackOne(after.lives, run.finished);
    NextFrontHolds(planner, run, after, ended);
  }

  lemma {:induction false} RetiredFront(s: BridgeState, status: RetireStatus)
    requires status.Retired? && s.queue != []
    ensures AfterRetire(s, status).queue == s.queue[1..] && AfterRetire(s, status).inFlight == s.inFlight
    ensures RetirementBack(status, RetirementOf(s, status))
            == [Returned(s.queue[0].workIdentity, s.queue[0].userContext)]
  {}

  lemma {:induction false} IdleFacts(planner: ForwardPlanner, life: WorkLife, slot: WorkSlot)
    requires Continues(planner, life, slot, false, None)
    ensures life.work.identity == slot.workIdentity && life.context == slot.userContext
  {}

  lemma {:induction false} DroppedParts(lives: seq<WorkLife>, finished: nat)
    ensures IssuedParts(Dropped(lives, finished)) == IssuedParts(lives)
    ensures AppliedParts(Dropped(lives, finished)) == AppliedParts(lives)
    ensures NoticeParts(Dropped(lives, finished)) == NoticeParts(lives)
  {
    hide Dropped, AppliedWrites, NoticesOf;
    assert forall i | 0 <= i < |lives| :: NoticesOf(Dropped(lives, finished)[i]) == NoticesOf(lives[i]) by {
      forall i | 0 <= i < |lives|
        ensures NoticesOf(Dropped(lives, finished)[i]) == NoticesOf(lives[i])
      {
        SameNotices(lives[i], Dropped(lives, finished)[i]);
      }
    }
  }

  lemma {:induction false} SameNotices(life: WorkLife, other: WorkLife)
    requires life.work == other.work && life.notices == other.notices
    ensures NoticesOf(life) == NoticesOf(other)
  {}

  /** Works dropped by a reset are not handed back. */
  lemma {:induction false} DroppedNotHandedBack(lives: seq<WorkLife>, finished: nat, upTo: nat)
    requires finished <= upTo <= |lives|
    ensures HandedBack(Dropped(lives, finished), upTo) == HandedBack(lives, finished)
    decreases upTo
  {
    hide Dropped;
    if upTo > finished {
      DroppedNotHandedBack(lives, finished, upTo - 1);
    } else {
      assert Dropped(lives, finished)[..finished] == lives[..finished];
      HandedBackSame(lives, Dropped(lives, finished), finished);
    }
  }

  lemma {:induction false} ResetStep(cfg: Config, initial: Images, run: Run)
    requires RunInvariant(cfg, initial, run)
    ensures RunInvariant(cfg, initial, RunReset(run))
  {
    if run.state.inFlight.None? {
      hide Invariant, Lives, Concat, RecordAll, HandedBack, LifeOk, Continues, Holds, ResolvedCount, Dropped;
      var after, planner := RunReset(run), cfg.planner;
      ResetKeeps(cfg, run.state);
      LivesCount(planner, run);
      DroppedParts(run.lives, run.finished);
      DroppedNotHandedBack(run.lives, run.finished, |run.lives|);
      LivesDropped(planner, run, after);
    }
  }

  lemma {:induction false} LivesDropped(planner: ForwardPlanner, run: Run, after: Run)
    requires Lives(planner, run) && run.state.inFlight.None?
    requires after.lives == Dropped(run.lives, run.finished) && after.finished == |run.lives| && after.state.queue == []
    ensures Lives(planner, after)
  {
    hide LifeOk, Continues, Dropped;
    forall i
      ensures LifeAt(planner, after, i)
    {
      assert LifeAt(planner, run, i);
      if run.finished <= i < |run.lives| {
        DropLife(planner, run.lives[i], run.state.queue[i - run.finished], EndedReset, None, i > run.finished);
      }
    }
  }

  lemma {:induction false} StepKeeps(cfg: Config, initial: Images, run: Run, input: Input)
    requires RunInvariant(cfg, initial, run)
    ensures RunInvariant(cfg, initial, Step(cfg, run, input))
  {
    hide RunInvariant, RunAdmitWork, RunAdmitAction, RunComplete, RunRetire, RunReset;
    match input
    case AdmitWorkCall(work, session, context) => AdmitWorkStep(cfg, initial, run, work, session, context);
    case AdmitActionCall(action, session, polls) => AdmitActionStep(cfg, initial, run, action, session, polls);
    case CompleteCall(action, outcome, session) => CompleteStep(cfg, initial, run, action, outcome, session);
    case DiscardCall(session) => RetireCallKeeps(cfg, initial, run, DiscardStatus(run.state, session));
    case AbandonCall => RetireCallKeeps(cfg, initial, run, AbandonStatus(run.state));
    case ResetCall => ResetStep(cfg, initial, run);
  }

  lemma {:induction false} RetireCallKeeps(cfg: Config, initial: Images, run: Run, status: RetireStatus)
    requires RunInvariant(cfg, initial, run)
    requires status.Retired? ==> run.state.inFlight.None? && run.state.queue != []
    ensures RunInvariant(cfg, initial, RunRetire(run, status))
  {
    if status.Retired? {
      RetireStepKeeps(cfg, initial, run, status);
    }
  }

  lemma {:induction false} ReachableRuns(cfg: Config, initial: Images, inputs: seq<Input>)
    requires Usable(cfg.planner.routes)
    ensures RunInvariant(cfg, initial, RunOf(cfg, initial, inputs))
    decreases |inputs|
  {
    if inputs == [] {
      InitialInvariant(cfg);
    } else {
      ReachableRuns(cfg, initial, inputs[..|inputs| - 1]);
      hide RunInvariant, Step;
      StepKeeps(cfg, initial, RunOf(cfg, initial, inputs[..|inputs| - 1]), inputs[|inputs| - 1]);
    }
  }

  // ----- what every run guarantees -----

  /** In every reachable state queue, ledger and action in flight satisfy the engine's invariant. */
  lemma {:induction false} ReachableStates(cfg: Config, initial: Images, inputs: seq<Input>)
    requires Usable(cfg.planner.routes)
    ensures Invariant(cfg, RunOf(cfg, initial, inputs).state)
  {
    hide Invariant;
    ReachableRuns(cfg, initial, inputs);
  }

  lemma {:induction false} EveryLifeOk(cfg: Config, initial: Images, inputs: seq<Input>, i: nat)
    requires Usable(cfg.planner.routes) && i < |RunOf(cfg, initial, inputs).lives|
    ensures LifeOk(cfg.planner, RunOf(cfg, initial, inputs).lives[i])
    ensures i < RunOf(cfg, initial, inputs).finished <==> !RunOf(cfg, initial, inputs).lives[i].ending.StillQueued?
  {
    ReachableRuns(cfg, initial, inputs);
    assert LifeAt(cfg.planner, RunOf(cfg, initial, inputs), i);
    hide LifeOk, Invariant, Concat, RecordAll, HandedBack, FrontHolds;
  }

  /** The writes admitted in a run are, in admission order of the works and sequence numbers aside, a
      prefix of each work's uninterrupted plan, one work after the other; a work that completed with
      nothing but applied fragments issued its whole plan. */
  lemma {:induction false} WritesFollowPlans(cfg: Config, initial: Images, inputs: seq<Input>)
    requires Usable(cfg.planner.routes)
    ensures var run := RunOf(cfg, initial, inputs);
            && run.writes == Concat(IssuedParts(run.lives))
            && (forall i | 0 <= i < |run.lives| :: FollowsPlan(cfg.planner, run.lives[i]))
            && (forall i | 0 <= i < |run.lives| && run.lives[i].ending.EndedCompleted?
                && AllSucceeded(run.lives[i].outcomes) ::
                  |run.lives[i].issued| == |PlanOf(cfg.planner, run.lives[i].work)|)
  {
    hide RunOf, Invariant, Lives, PlanOf, NoticesOwed, Concat, RecordAll, HandedBack, FrontHolds, BeginStatus, Usable,
      FollowsPlan, AllSucceeded;
    var run := RunOf(cfg, initial, inputs);
    ReachableRuns(cfg, initial, inputs);
    forall i | 0 <= i < |run.lives|
      ensures LifeOk(cfg.planner, run.lives[i])
    {
      EveryLifeOk(cfg, initial, inputs, i);
    }
  }

  /** The applied images are always the initial ones with exactly the applied writes recorded over
      them, in order. */
  lemma {:induction false} AppliedImageExact(cfg: Config, initial: Images, inputs: seq<Input>)
    requires Usable(cfg.planner.routes)
    ensures var run := RunOf(cfg, initial, inputs);
            run.images == RecordAll(initial, Concat(AppliedParts(run.lives)))
  {
    ReachableRuns(cfg, initial, inputs);
    hide RunOf, Invariant, Lives, FrontHolds;
  }

  /** When a completion retires a work on an applied fragment, the image holds the work's whole
      snapshot over its whole range, provided that the range fits the image. */
  lemma {:induction false} AppliedWorkIsWhole(
    cfg: Config, initial: Images, inputs: seq<Input>, action: StoreForwardAction, session: SessionState)
    requires Usable(cfg.planner.routes)
    requires var run := RunOf(cfg, initial, inputs);
             var result := CompleteResult(run.state, action, Applied, session);
             result.status.Completed? && result.workRetired
    ensures var run := RunOf(cfg, initial, inputs);
            && run.finished < |run.lives|
            && Holds(RunComplete(run, action, Applied, session).images, run.lives[run.finished].work,
                     run.lives[run.finished].work.count)
  {
    hide RunOf, Invariant, Lives, Concat, RecordAll, RecordOne, HandedBack, Transition, LifeOk, Continues, Holds,
      ResolvedCount, AfterComplete, WorkCurrent, DecisionFor, Summarize, SlotAfterCompletion, AfterResolve, EntryAgrees;
    var run := RunOf(cfg, initial, inputs);
    ReachableRuns(cfg, initial, inputs);
    var s, life, planner := run.state, FrontLife(run), cfg.planner;
    CurrentIfCompleted(s, action, Applied, session);
    CompleteWriteShape(cfg, s, action, Applied, session);
    FrontInFlight(cfg, s);
    FrontLifeContinues(planner, run);
    LiveFacts(planner, life, s.queue[0], action.write);
    FrontImageStep(planner, life, run.images);
    DecisionRecords(run.images, s.ledger[s.queue[0].workIdentity].aggregate, action.write, Applied, life.work.kind);
  }

  /** Exactly one notice for every completed tracked work, reporting success if and only if every
      planned fragment applied; none for any other work, and none before completion. */
  lemma {:induction false} NoticesExact(cfg: Config, initial: Images, inputs: seq<Input>, i: nat)
    requires Usable(cfg.planner.routes) && i < |RunOf(cfg, initial, inputs).lives|
    ensures var life := RunOf(cfg, initial, inputs).lives[i];
            var planned := |PlanOf(cfg.planner, life.work)|;
            if life.work.delivery.Tracked? && life.ending.EndedCompleted? then
              life.notices == [if |life.outcomes| == planned
                  && AllSucceeded(life.outcomes) then WorkSucceeded else WorkFailed]
            else life.notices == []
  {
    EveryLifeOk(cfg, initial, inputs, i);
    hide RunOf, BeginStatus, FollowsPlan;
  }

  /** The notices a caller receives over a run are those of the works, in admission order. */
  lemma {:induction false} AnnouncedInOrder(cfg: Config, initial: Images, inputs: seq<Input>)
    requires Usable(cfg.planner.routes)
    ensures var run := RunOf(cfg, initial, inputs);
            run.announced == Concat(NoticeParts(run.lives))
  {
    ReachableRuns(cfg, initial, inputs);
    hide RunOf, Invariant, Lives, FrontHolds;
  }

  /** The summary of the slot whose write in flight has just ended. */
  lemma {:induction false} SummaryReports(
    planner: ForwardPlanner, slot: WorkSlot, record: LedgerSlot, write: PlannedWrite, outcome: DownstreamOutcome)
    requires EntryAgrees(planner, slot, record, false, Some(write)) && IsKnownOutcome(outcome)
    ensures var summary, retired := Summarize(SlotAfterCompletion(record, outcome)),
                outcome != Applied || write.finalFragment;
            && summary.work == slot.workIdentity
            && summary.outstandingRequests == 0
            && summary.settled == summary.drained == retired
            && summary.outcome == if retired then WorkOutcomeFor(outcome) else Pending
  {
    hide OnPlan;
  }

  /** What a write completion reports about its work, against that work's life after it. */
  ghost predicate ReportsLife(
    planner: ForwardPlanner, result: StoreForwardCompletion, outcome: DownstreamOutcome, life: WorkLife)
  {
    && ReportsSummary(planner, result, life)
    && ReportsDecision(result.decision, outcome, life)
    && result.kind.ForwardWrite?
    && result.outcome == outcome
    && result.workContext == life.context
  }

  /** The summary names how the work's fragments ended, once nothing more of it will be sent. */
  ghost predicate ReportsSummary(planner: ForwardPlanner, result: StoreForwardCompletion, life: WorkLife) {
    && result.work.work == life.work.identity
    && result.work.outstandingRequests == 0
    && result.workRetired == result.work.settled == result.work.drained == life.ending.EndedCompleted?
    && (result.work.outcome.Pending? <==> !result.workRetired)
    && (result.work.outcome.WorkTerminal? <==> FailedAfterSend in life.outcomes)
    && (result.work.outcome.WorkUncertain? <==> SendUncertain in life.outcomes)
    && (result.work.outcome.WorkNotSent? <==> DefinitelyNotSent in life.outcomes)
    && (result.work.outcome.WorkApplied?
        <==> |life.outcomes| == |PlanOf(planner, life.work)| && AllSucceeded(life.outcomes))
  }

  /** The decision is about the fragment that ended: it is to be recorded if it applied, and leaves the
      visible image to the caller's policy if it failed. */
  predicate ReportsDecision(decision: CompletionDecision, outcome: DownstreamOutcome, life: WorkLife) {
    && 0 < |life.outcomes| <= |life.issued|
    && decision.status.Current?
    && decision.identity == life.issued[|life.outcomes| - 1].identity
    && (decision.appliedAction.MarkAppliedRange? <==> outcome.Applied?)
    && (decision.desiredDisposition.CallerPolicyRequired? <==> !outcome.Applied?)
  }

  lemma {:induction false} ResultReports(
    cfg: Config, initial: Images, run: Run, action: StoreForwardAction, outcome: DownstreamOutcome,
    session: SessionState)
    requires RunInvariant(cfg, initial, run)
    requires CompleteStatusOf(run.state, action, outcome, session).Completed? && action.kind.ForwardWrite?
    ensures var result, after := CompleteResult(run.state, action, outcome, session), RunComplete(run, action, outcome,
        session);
            && run.finished < |after.lives|
            && result.status.Completed?
            && ReportsLife(cfg.planner, result, outcome, after.lives[run.finished])
  {
    hide Invariant, Lives, Concat, RecordAll, HandedBack, Transition, LifeOk, Continues, Holds, ResolvedCount,
      CompleteResult, AfterComplete, WorkCurrent, DecisionFor, Summarize, SlotAfterCompletion, AfterResolve,
      EntryAgrees, ReportsSummary, ReportsDecision, WorkOutcomeFor;
    var s, life, planner := run.state, FrontLife(run), cfg.planner;
    var result := CompleteResult(s, action, outcome, session);
    CompleteWriteShape(cfg, s, action, outcome, session);
    FrontInFlight(cfg, s);
    CurrentIfCompleted(s, action, outcome, session);
    FrontLifeContinues(planner, run);
    var front, record := s.queue[0], s.ledger[s.queue[0].workIdentity];
    ResolveLife(planner, life, front, record, action.write, outcome, result);
    SummaryReports(planner, front, record, action.write, outcome);
    LiveFacts(planner, life, front, action.write);
    LifeReported(planner, life, outcome, result);
    DecisionReported(record.aggregate, action.write, outcome, LifeAfterResult(life, outcome, result));
  }

  lemma {:induction false} LifeReported(
    planner: ForwardPlanner, life: WorkLife, outcome: DownstreamOutcome, result: StoreForwardCompletion)
    requires AllSucceeded(life.outcomes) && LifeOk(planner, LifeAfterResult(life, outcome, result))
    requires IsKnownOutcome(outcome)
    requires result.work.work == life.work.identity && result.work.outstandingRequests == 0
    requires result.work.settled == result.work.drained == result.workRetired
    requires result.work.outcome == (if result.workRetired then WorkOutcomeFor(outcome) else Pending)
    requires outcome != Applied ==> result.workRetired
    ensures ReportsSummary(planner, result, LifeAfterResult(life, outcome, result))
  {
    hide Plan, BeginStatus, Usable, NoticesOwed, FollowsPlan;
    SucceededExtends(life.outcomes, outcome);
    assert forall other | other in life.outcomes :: other == Applied;
  }

  lemma {:induction false} DecisionReported(
    aggregate: CompletionAggregate, write: PlannedWrite, outcome: DownstreamOutcome, life: WorkLife)
    requires life.issued != [] && |life.outcomes| == |life.issued| && life.issued[|life.issued| - 1] == write
    ensures ReportsDecision(DecisionFor(aggregate, write, outcome), outcome, life)
  {}

  /** What a write completion returns, over every run. While the work goes on its summary says nothing
      yet. A retired work is reported as settled and drained: as applied if and only if every fragment
      of its plan applied, and else by the one way in which a fragment of it failed. */
  lemma {:induction false} ReportedOutcome(
    cfg: Config, initial: Images, inputs: seq<Input>, action: StoreForwardAction, outcome: DownstreamOutcome,
    session: SessionState)
    requires Usable(cfg.planner.routes) && action.kind.ForwardWrite?
    requires CompleteStatusOf(RunOf(cfg, initial, inputs).state, action, outcome, session).Completed?
    ensures var run := RunOf(cfg, initial, inputs);
            var result, after := CompleteResult(run.state, action, outcome, session), RunComplete(run, action, outcome,
                session);
            && run.finished < |after.lives|
            && ReportsLife(cfg.planner, result, outcome, after.lives[run.finished])
  {
    hide *;
    ReachableRuns(cfg, initial, inputs);
    ResultReports(cfg, initial, RunOf(cfg, initial, inputs), action, outcome, session);
  }

  /** A work that completed with nothing but applied fragments has changed the endpoints exactly as
      writing each of its upstream addresses through its own translation would. */
  lemma {:induction false} AppliedWorkMeans(cfg: Config, initial: Images, inputs: seq<Input>, i: nat, memory: Memory)
    requires Usable(cfg.planner.routes) && i < |RunOf(cfg, initial, inputs).lives|
    requires var life := RunOf(cfg, initial, inputs).lives[i];
             life.ending.EndedCompleted? && AllSucceeded(life.outcomes)
    ensures var life := RunOf(cfg, initial, inputs).lives[i];
            && BeginStatus(cfg.planner, life.work).Ready?
            && life.work.snapshot.data.Buffer?
            && life.work.count <= |life.work.snapshot.data.values|
            && ExecuteAll(memory, life.issued)
               == WriteEach(cfg.planner.routes, life.work.kind, memory, life.work.start,
                            life.work.snapshot.data.values[..life.work.count])
  {
    EveryLifeOk(cfg, initial, inputs, i);
    var life := RunOf(cfg, initial, inputs).lives[i];
    hide RunOf, NoticesOwed, ExecuteAll, WriteEach;
    SplittingPreservesMeaning(cfg.planner, life.work, memory);
    NumbersDoNotMatter(memory, life.issued, PlanOf(cfg.planner, life.work));
  }

  lemma {:induction false} NumbersDoNotMatter(memory: Memory, issued: seq<PlannedWrite>, plan: seq<PlannedWrite>)
    requires |issued| == |plan| && forall k | 0 <= k < |issued| :: Unnumbered(issued[k]) == plan[k]
    ensures ExecuteAll(memory, issued) == ExecuteAll(memory, plan)
    decreases |issued|
  {
    if issued == [] {
    } else {
      var first := DownstreamRequestFor(plan[0], NULL_HANDLE);
      assert Unnumbered(issued[0]) == plan[0];
      assert DownstreamRequestFor(issued[0], NULL_HANDLE).(sequence := 0) == first;
      assert Execute(memory, DownstreamRequestFor(issued[0], NULL_HANDLE)) == Execute(memory, first);
      forall k | 0 <= k < |issued| - 1
        ensures Unnumbered(issued[1..][k]) == plan[1..][k]
      {
        assert Unnumbered(issued[k + 1]) == plan[k + 1];
      }
      NumbersDoNotMatter(Execute(memory, first), issued[1..], plan[1..]);
    }
  }

  // ----- ownership -----

  predicate NeverResets(inputs: seq<Input>) {
    forall i | 0 <= i < |inputs| :: !inputs[i].ResetCall?
  }

  predicate NoneDropped(lives: seq<WorkLife>) {
    forall i | 0 <= i < |lives| :: !lives[i].ending.EndedReset?
  }

  lemma {:induction false} NoResetNoneDropped(cfg: Config, initial: Images, inputs: seq<Input>)
    requires NeverResets(inputs)
    ensures NoneDropped(RunOf(cfg, initial, inputs).lives)
    decreases |inputs|
  {
    if inputs == [] {
    } else {
      var before, last := inputs[..|inputs| - 1], inputs[|inputs| - 1];
      NoResetNoneDropped(cfg, initial, before);
      hide Step, NoneDropped;
      StepDropsNone(cfg, RunOf(cfg, initial, before), last);
    }
  }

  lemma {:induction false} StepDropsNone(cfg: Config, run: Run, input: Input)
    requires NoneDropped(run.lives) && !input.ResetCall?
    ensures NoneDropped(Step(cfg, run, input).lives)
  {
    hide AdmitWorkResult, AfterAdmitWork, AdmitActionStatusOf, AfterAdmitAction, RePreview, CompleteResult,
        AfterComplete,
      AfterRetire, DiscardStatus, RetirementOf, Transition, RunReset;
  }

  lemma {:induction false} HandedBackInOrder(lives: seq<WorkLife>, finished: nat)
    requires finished <= |lives| && NoneDropped(lives)
    ensures |HandedBack(lives, finished)| == finished
    ensures forall i | 0 <= i < finished ::
              HandedBack(lives, finished)[i] == Returned(lives[i].work.identity, lives[i].context)
    decreases finished
  {
    if finished == 0 {
    } else {
      HandedBackInOrder(lives, finished - 1);
    }
  }

  /** Ownership is conserved. Without a reset, what has been handed back is exactly the first works in
      admission order, each once, with its own identity and context; the rest are the queue, in the
      same order. */
  lemma {:induction false} OwnershipConserved(cfg: Config, initial: Images, inputs: seq<Input>)
    requires Usable(cfg.planner.routes) && NeverResets(inputs)
    ensures var run := RunOf(cfg, initial, inputs);
            && |run.lives| == |run.returned| + |run.state.queue|
            && (forall i | 0 <= i < |run.returned| ::
                  run.returned[i] == Returned(run.lives[i].work.identity, run.lives[i].context))
            && (forall i | |run.returned| <= i < |run.lives| ::
                  && run.state.queue[i - |run.returned|].workIdentity == run.lives[i].work.identity
                  && run.state.queue[i - |run.returned|].userContext == run.lives[i].context)
  {
    hide RunOf, RunInvariant, Lives, HandedBack, NoneDropped, NeverResets;
    var run := RunOf(cfg, initial, inputs);
    ReachableRuns(cfg, initial, inputs);
    NoResetNoneDropped(cfg, initial, inputs);
    ReturnedIsHandedBack(cfg, initial, run);
    LivesCount(cfg.planner, run);
    HandedBackInOrder(run.lives, run.finished);
    QueueIsLiveWorks(cfg.planner, run);
  }

  lemma {:induction false} ReturnedIsHandedBack(cfg: Config, initial: Images, run: Run)
    requires RunInvariant(cfg, initial, run)
    ensures Lives(cfg.planner, run) && run.finished <= |run.lives|
    ensures run.returned == HandedBack(run.lives, run.finished)
  {
    hide Invariant, Concat, RecordAll, FrontHolds, HandedBack;
  }

  lemma {:induction false} QueueIsLiveWorks(planner: ForwardPlanner, run: Run)
    requires Lives(planner, run)
    ensures forall i | run.finished <= i < |run.lives| ::
              && run.state.queue[i - run.finished].workIdentity == run.lives[i].work.identity
              && run.state.queue[i - run.finished].userContext == run.lives[i].context
  {
    hide LifeOk;
    forall i | run.finished <= i < |run.lives|
      ensures run.state.queue[i - run.finished].workIdentity == run.lives[i].work.identity
      ensures run.state.queue[i - run.finished].userContext == run.lives[i].context
    {
      assert LifeAt(planner, run, i);
    }
  }

  /** Any write previewed in a reachable state belongs to the oldest work that is still queued, never
      to one that was handed back. */
  lemma {:induction false} PreviewsOldestLive(
    cfg: Config, initial: Images, inputs: seq<Input>, session: SessionState, now: u32, polls: PollSet,
        writeContext: Handle)
    requires Usable(cfg.planner.routes)
    requires var proposal := Preview(cfg, RunOf(cfg, initial, inputs).state, session, now, polls, writeContext);
             proposal.status.ActionReady? && proposal.action.kind.ForwardWrite?
    ensures var run := RunOf(cfg, initial, inputs);
            var action := Preview(cfg, run.state, session, now, polls, writeContext).action;
            && run.finished < |run.lives|
            && run.lives[run.finished].ending.StillQueued?
            && action.write.identity.work == run.lives[run.finished].work.identity
            && action.workContext == run.lives[run.finished].context
            && var plan, next := PlanOf(cfg.planner, run.lives[run.finished].work), |run.lives[run.finished].issued|;
               next < |plan| && Unnumbered(action.write) == plan[next]
  {
    hide RunOf, Preview, Invariant, Lives, Concat, RecordAll, HandedBack, FrontHolds, Plannable, LifeOk, FragmentAt,
      EntryAgrees;
    var run := RunOf(cfg, initial, inputs);
    ReachableRuns(cfg, initial, inputs);
    PreviewIsSound(cfg, run.state, session, now, polls, writeContext);
    var action := Preview(cfg, run.state, session, now, polls, writeContext).action;
    FrontIsPlannable(cfg, run.state);
    var front := run.state.queue[0];
    IssueKeepsEntry(cfg.planner, front, run.state.ledger[front.workIdentity], action.sequence);
    FrontLifeContinues(cfg.planner, run);
    NextOfPlan(cfg.planner, FrontLife(run), front, action.sequence);
  }

  lemma {:induction false} NextOfPlan(planner: ForwardPlanner, life: WorkLife, slot: WorkSlot, sequence: u32)
    requires LifeOk(planner, life) && Continues(planner, life, slot, false, None) && Plannable(planner, AsCursor(slot))
    ensures |life.issued| < |PlanOf(planner, life.work)|
    ensures Unnumbered(FragmentAt(planner, AsCursor(slot), sequence)) == PlanOf(planner, life.work)[|life.issued|]
    ensures life.work.identity == slot.workIdentity && life.context == slot.userContext && life.ending.StillQueued?
  {
    hide Plan, Plannable, CursorAfter, BeginStatus, FragmentAt, Usable;
    PlanPosition(planner, life.work, |life.issued|);
    ActiveIsPlannable(planner, AsCursor(slot));
    PlanAt(planner, life.work, |life.issued|);
    NumberingIsAll(planner, AsCursor(slot), sequence);
  }
}
