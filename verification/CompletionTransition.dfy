/** The per-work completion aggregate, its decisions, and the one cache mutation they allow. */
module CompletionTransition {
  import opened Words
  import opened IngressWork
  import opened ForwardPlan
  import opened CacheImage

  datatype DownstreamOutcome =
    Applied | DefinitelyNotSent | SendUncertain | FailedAfterSend | UnknownOutcome(code: u8)

  predicate IsKnownOutcome(outcome: DownstreamOutcome) {
    !outcome.UnknownOutcome?
  }

  datatype AppliedImageAction = NoImageAction | MarkAppliedRange

  datatype DesiredImageDisposition = Unchanged | CallerPolicyRequired

  datatype CompletionNotice = NoNotice | WorkSucceeded | WorkFailed

  datatype CompletionDecisionStatus =
    Current | IdentityMismatch | StaleCompletion | AggregateMismatch | OutOfOrder | AlreadyTerminal | InvalidOutcome

  datatype CompletionRecord = CompletionRecord(identity: RequestIdentity, outcome: DownstreamOutcome)

  datatype CompletionAggregate = CompletionAggregate(
    work: WorkIdentity,
    delivery: IngressDelivery,
    nextFragmentIndex: u16,
    failed: bool,
    complete: bool,
    noticeEmitted: bool)
  {
    predicate Valid() {
      work.Valid() && IsAccepted(delivery)
    }
  }

  const NO_AGGREGATE := CompletionAggregate(NO_WORK, Rejected, 0, false, false, false)

  function NewAggregate(work: WorkIdentity, delivery: IngressDelivery): CompletionAggregate {
    CompletionAggregate(work, delivery, 0, false, false, false)
  }

  datatype CompletionDecision = CompletionDecision(
    status: CompletionDecisionStatus,
    identity: RequestIdentity,
    appliedAction: AppliedImageAction,
    desiredDisposition: DesiredImageDisposition,
    notice: CompletionNotice)

  function RejectedDecision(status: CompletionDecisionStatus): CompletionDecision {
    CompletionDecision(status, NO_IDENTITY, NoImageAction, Unchanged, NoNotice)
  }

  const NO_DECISION := RejectedDecision(AggregateMismatch)

  // ----- resolving one terminal result -----

  /** Whether a result is accepted (`Current`), else the first reason against it. */
  function Verdict(
    expected: PlannedWrite, observed: CompletionRecord, session: SessionState, aggregate: CompletionAggregate)
    : CompletionDecisionStatus
  {
    if !aggregate.Valid() || !expected.identity.Valid() || expected.identity.work != aggregate.work
       || expected.delivery != aggregate.delivery then AggregateMismatch
    else if aggregate.complete then AlreadyTerminal
    else if !IsKnownOutcome(observed.outcome) then InvalidOutcome
    else if expected.identity != observed.identity then IdentityMismatch
    else if !WorkCurrent(expected.identity.work, session) then StaleCompletion
    else if expected.identity.fragmentIndex != aggregate.nextFragmentIndex then OutOfOrder
    else if !expected.finalFragment && aggregate.nextFragmentIndex == 0xFFFF then AggregateMismatch
    else Current
  }

  /** A success is announced only when the final fragment applies after no failure, a failure at the
      first one, and never more than one notice. */
  function NoticeFor(aggregate: CompletionAggregate, final: bool, outcome: DownstreamOutcome): CompletionNotice {
    if !TracksPublicCompletion(aggregate.delivery) || aggregate.noticeEmitted then NoNotice
    else if outcome != Applied then WorkFailed
    else if final && !aggregate.failed then WorkSucceeded
    else NoNotice
  }

  function Accepted(aggregate: CompletionAggregate, final: bool, outcome: DownstreamOutcome): CompletionAggregate {
    aggregate.(
      nextFragmentIndex := if final then aggregate.nextFragmentIndex else Wrap16(aggregate.nextFragmentIndex + 1),
      failed := aggregate.failed || outcome != Applied,
      complete := final,
      noticeEmitted := aggregate.noticeEmitted || NoticeFor(aggregate, final, outcome) != NoNotice)
  }

  function DecisionFor(aggregate: CompletionAggregate, expected: PlannedWrite, outcome: DownstreamOutcome)
    : CompletionDecision
  {
    CompletionDecision(
      Current,
      expected.identity,
      if outcome == Applied then MarkAppliedRange else NoImageAction,
      if outcome == Applied then Unchanged else CallerPolicyRequired,
      NoticeFor(aggregate, expected.finalFragment, outcome))
  }

  method ResolveCompletion(
    expected: PlannedWrite, observed: CompletionRecord, session: SessionState, aggregate: CompletionAggregate)
    returns (decision: CompletionDecision, updated: CompletionAggregate)
    ensures decision.status == Verdict(expected, observed, session, aggregate)
    ensures decision.status != Current ==> decision == RejectedDecision(decision.status) && updated == aggregate
    ensures decision.status == Current ==>
              && decision == DecisionFor(aggregate, expected, observed.outcome)
              && updated == Accepted(aggregate, expected.finalFragment, observed.outcome)
  {
    updated := aggregate;
    if !aggregate.Valid() || !expected.identity.Valid() || expected.identity.work != aggregate.work
       || expected.delivery != aggregate.delivery {
      return RejectedDecision(AggregateMismatch), updated;
    }
    if aggregate.complete {
      return RejectedDecision(AlreadyTerminal), updated;
    }
    if !IsKnownOutcome(observed.outcome) {
      return RejectedDecision(InvalidOutcome), updated;
    }
    if expected.identity != observed.identity {
      return RejectedDecision(IdentityMismatch), updated;
    }
    if !WorkCurrent(expected.identity.work, session) {
      return RejectedDecision(StaleCompletion), updated;
    }
    if expected.identity.fragmentIndex != aggregate.nextFragmentIndex {
      return RejectedDecision(OutOfOrder), updated;
    }
    var notice := NoNotice;
    if observed.outcome == Applied {
      if expected.finalFragment {
        updated := updated.(complete := true);
        if !updated.failed && TracksPublicCompletion(expected.delivery) && !updated.noticeEmitted {
          notice := WorkSucceeded;
          updated := updated.(noticeEmitted := true);
        }
      } else {
        if aggregate.nextFragmentIndex == 0xFFFF {
          return RejectedDecision(AggregateMismatch), updated;
        }
        updated := updated.(nextFragmentIndex := updated.nextFragmentIndex + 1);
      }
      return CompletionDecision(Current, expected.identity, MarkAppliedRange, Unchanged, notice), updated;
    }
    if !expected.finalFragment && aggregate.nextFragmentIndex == 0xFFFF {
      return RejectedDecision(AggregateMismatch), updated;
    }
    if TracksPublicCompletion(expected.delivery) && !updated.noticeEmitted {
      notice := WorkFailed;
    }
    updated := updated.(failed := true);
    updated := updated.(complete := expected.finalFragment);
    if notice != NoNotice {
      updated := updated.(noticeEmitted := true);
    }
    if !expected.finalFragment {
      updated := updated.(nextFragmentIndex := updated.nextFragmentIndex + 1);
    }
    return CompletionDecision(Current, expected.identity, NoImageAction, CallerPolicyRequired, notice), updated;
  }

  /** How far a result gets before something is held against it: to the right work, while that is still
      open, with a known outcome, for the very request, in a current session, in order, and with room
      for the next index. */
  lemma {:induction false} JudgedExactly(
    expected: PlannedWrite, observed: CompletionRecord, session: SessionState, aggregate: CompletionAggregate)
    ensures var status, work := Verdict(expected, observed, session, aggregate), expected.identity.work;
            var accepted := aggregate.delivery.Tracked? || aggregate.delivery.SilentOrdered?
                            || aggregate.delivery.LatestState?;
            var ours := && work == aggregate.work && work.sourceToken != 0 && work.sessionGeneration != 0
                        && expected.identity.requestSequence != 0
                        && expected.delivery == aggregate.delivery && accepted;
            var open := ours && !aggregate.complete;
            var known := open && !observed.outcome.UnknownOutcome?;
            var same := known && observed.identity == expected.identity;
            var current := same && WorkCurrent(work, session);
            var next := current && expected.identity.fragmentIndex == aggregate.nextFragmentIndex;
            var counted := next && (expected.finalFragment || aggregate.nextFragmentIndex < 0xFFFF);
            && (status.AlreadyTerminal? <==> ours && !open)
            && (status.InvalidOutcome? <==> open && !known)
            && (status.IdentityMismatch? <==> known && !same)
            && (status.StaleCompletion? <==> same && !current)
            && (status.OutOfOrder? <==> current && !next)
            && (status.Current? <==> counted)
            && (status.AggregateMismatch? <==> !ours || (next && !counted))
  {
    hide WorkCurrent;
  }

  // ----- a whole life of an aggregate -----

  /** One attempt to resolve, valid or not. */
  datatype Attempt = Attempt(expected: PlannedWrite, observed: CompletionRecord, session: SessionState)

  predicate IsAccepting(aggregate: CompletionAggregate, attempt: Attempt) {
    Verdict(attempt.expected, attempt.observed, attempt.session, aggregate) == Current
  }

  function AfterAttempt(aggregate: CompletionAggregate, attempt: Attempt): CompletionAggregate {
    if IsAccepting(aggregate, attempt) then
      Accepted(aggregate, attempt.expected.finalFragment, attempt.observed.outcome)
    else aggregate
  }

  /** The aggregate after the attempts, the accepted ones among them, and the notices they produced. */
  datatype Life = Life(aggregate: CompletionAggregate, resolved: seq<Attempt>, notices: seq<CompletionNotice>)

  function Live(aggregate: CompletionAggregate, attempts: seq<Attempt>): Life
    decreases |attempts|
  {
    if attempts == [] then Life(aggregate, [], []) else
      var last := attempts[|attempts| - 1];
      var life := Live(aggregate, attempts[..|attempts| - 1]);
      if IsAccepting(life.aggregate, last) then Extended(life, last) else life
  }

  function Extended(life: Life, attempt: Attempt): Life {
    var notice := NoticeFor(life.aggregate, attempt.expected.finalFragment, attempt.observed.outcome);
    Life(AfterAttempt(life.aggregate, attempt),
         life.resolved + [attempt],
         if notice == NoNotice then life.notices else life.notices + [notice])
  }

  predicate AllApplied(resolved: seq<Attempt>) {
    forall i | 0 <= i < |resolved| :: resolved[i].observed.outcome == Applied
  }

  predicate Finished(life: Life) {
    life.resolved != [] && life.resolved[|life.resolved| - 1].expected.finalFragment
  }

  ghost predicate LifeInvariant(work: WorkIdentity, delivery: IngressDelivery, life: Life) {
    && life.aggregate.work == work
    && life.aggregate.delivery == delivery
    && life.aggregate.nextFragmentIndex == |life.resolved| - (if Finished(life) then 1 else 0)
    && (forall i | 0 <= i < |life.resolved| :: life.resolved[i].expected.identity.fragmentIndex == i)
    && (forall i | 0 <= i < |life.resolved| - 1 :: !life.resolved[i].expected.finalFragment)
    && life.aggregate.failed == !AllApplied(life.resolved)
    && life.aggregate.complete == Finished(life)
    && (life.aggregate.noticeEmitted <==> life.notices != [])
    && life.notices == if !delivery.Tracked? then []
                       else if !AllApplied(life.resolved) then [WorkFailed]
                       else if Finished(life) then [WorkSucceeded]
                       else []
  }

  /** Whatever is thrown at an aggregate, it accepts fragments 0, 1, 2, … in order up to one final
      one; a tracked work gets exactly one notice once it failed or finished and none before, and
      that notice reports success if and only if every fragment through the final one applied;
      other works get none. */
  lemma {:induction false} OneNoticePerLife(work: WorkIdentity, delivery: IngressDelivery, attempts: seq<Attempt>)
    ensures LifeInvariant(work, delivery, Live(NewAggregate(work, delivery), attempts))
    decreases |attempts|
  {
    if attempts == [] {
    } else {
      hide LifeInvariant;
      OneNoticePerLife(work, delivery, attempts[..|attempts| - 1]);
      var life := Live(NewAggregate(work, delivery), attempts[..|attempts| - 1]);
      var last := attempts[|attempts| - 1];
      if IsAccepting(life.aggregate, last) {
        LifeExtends(work, delivery, life, last);
      }
    }
  }

  lemma {:induction false} LifeExtends(work: WorkIdentity, delivery: IngressDelivery, life: Life, attempt: Attempt)
    requires LifeInvariant(work, delivery, life) && IsAccepting(life.aggregate, attempt)
    ensures LifeInvariant(work, delivery, Extended(life, attempt))
  {
    AllAppliedExtends(life.resolved, attempt);
    hide AllApplied;
  }

  lemma {:induction false} AllAppliedExtends(resolved: seq<Attempt>, attempt: Attempt)
    ensures AllApplied(resolved + [attempt]) <==> AllApplied(resolved) && attempt.observed.outcome == Applied
  {
    assert (resolved + [attempt])[|resolved|] == attempt;
    if AllApplied(resolved + [attempt]) {
      assert forall i | 0 <= i < |resolved| :: resolved[i] == (resolved + [attempt])[i];
    }
  }

  // ----- the applied image -----

  function PayloadOf(kind: ValueKind, request: PlannedWrite): Buffer {
    if kind.CoilValues? then request.coilValues else request.holdingValues
  }

  /** The decision tells the caller to record this request in an image of this kind. */
  predicate Records(kind: ValueKind, request: PlannedWrite, decision: CompletionDecision) {
    && decision.status == Current
    && decision.identity == request.identity
    && decision.appliedAction == MarkAppliedRange
    && request.table == TableOf(kind)
  }

  /** The range lies inside an image of this size and its payload can be read. */
  predicate Fits(kind: ValueKind, request: PlannedWrite, size: nat) {
    var payload := PayloadOf(kind, request);
    payload.Buffer? && 0 < request.quantity <= |payload.values| && request.upstreamStart + request.quantity <= size
  }

  /** The applied image with one request written over its upstream range, if it fits. */
  function Marked(kind: ValueKind, image: seq<Value>, request: PlannedWrite): seq<Value> {
    if !Fits(kind, request, |image|) then image else
      Overwrite(image, request.upstreamStart, PayloadOf(kind, request).values[..request.quantity])
  }

  method ApplyAppliedImageTransition(
    cache: DesiredAppliedCache, kind: ValueKind, request: PlannedWrite, decision: CompletionDecision)
    returns (ok: bool)
    requires cache.Valid()
    requires PayloadOf(kind, request).Buffer? ==> request.quantity <= |PayloadOf(kind, request).values|
    modifies cache.applied.values
    ensures cache.visible.values[..] == old(cache.visible.values[..])
    ensures cache.applied.values[..]
            == if Records(kind, request, decision) && cache.applied.present
               then Marked(kind, old(cache.applied.values[..]), request)
               else old(cache.applied.values[..])
    ensures decision.status != Current || decision.identity != request.identity
            || decision.appliedAction == NoImageAction || request.table != TableOf(kind)
            ==> cache.applied.values[..] == old(cache.applied.values[..])
    ensures ok <==>
            && decision.status == Current
            && decision.identity == request.identity
            && (decision.appliedAction == NoImageAction
                || (request.table == TableOf(kind) && cache.applied.present
                    && Fits(kind, request, cache.applied.values.Length)))
  {
    if decision.status != Current || decision.identity != request.identity {
      return false;
    }
    if decision.appliedAction == NoImageAction {
      return true;
    }
    if request.table != TableOf(kind) {
      return false;
    }
    ok := cache.MarkApplied(request.upstreamStart, PayloadOf(kind, request), request.quantity);
  }

  /** The image length is a 16-bit count, so no image is long enough for a request that reaches the
      last register address: such a request is never recorded. Every other range fits some image. */
  lemma {:induction false} LastAddressNeverFits(kind: ValueKind, request: PlannedWrite)
    ensures (exists size: u16 :: Fits(kind, request, size))
            <==> Fits(kind, request, ADDRESS_SPACE) && request.upstreamStart + request.quantity < ADDRESS_SPACE
  {
    if Fits(kind, request, ADDRESS_SPACE) && request.upstreamStart + request.quantity < ADDRESS_SPACE {
      var size: u16 := request.upstreamStart + request.quantity;
      assert Fits(kind, request, size);
    }
  }
}
