/** How long a proposal stays good: until the next call that changes the engine, and then not again
    before its 32-bit revision has come all the way round. */
module StoreForwardFreshness {
  import opened Words
  import opened IngressWork
  import opened RouteTable
  import opened ForwardPlan
  import opened PollPlanner
  import opened StoreForwardState
  import opened StoreForwardRuns
  import opened StoreForwardTheorems

  /** The non-zero values of the 32-bit counter. */
  const COUNTER_CYCLE: nat := 0xFFFF_FFFF

  /** The counter `steps` steps after `value`. */
  function CounterAfter(value: u32, steps: nat): u32
    decreases steps
  {
    if steps == 0 then value else NextNonZeroSequence32(CounterAfter(value, steps - 1))
  }

  lemma {:induction false} NextResidue(x: nat)
    ensures (x + 1) % COUNTER_CYCLE == if x % COUNTER_CYCLE == COUNTER_CYCLE - 1 then 0 else x % COUNTER_CYCLE + 1
  {
    var quotient, residue := x / COUNTER_CYCLE, x % COUNTER_CYCLE;
    assert x + 1 == quotient * COUNTER_CYCLE + residue + 1;
  }

  lemma {:induction false} CounterStep(value: u32)
    ensures NextNonZeroSequence32(value) == if value == COUNTER_CYCLE then 1 else value + 1
  {}

  lemma {:induction false} CounterClosedForm(value: u32, steps: nat)
    requires value != 0
    ensures CounterAfter(value, steps) == 1 + (value - 1 + steps) % COUNTER_CYCLE
    decreases steps
  {
    hide NextNonZeroSequence32;
    if steps == 0 {
      assert CounterAfter(value, steps) == value;
    } else {
      CounterClosedForm(value, steps - 1);
      NextResidue(value - 1 + (steps - 1));
      CounterStep(CounterAfter(value, steps - 1));
    }
  }

  /** The counter is back where it was exactly after whole cycles. */
  lemma {:induction false} CounterReturns(value: u32, steps: nat)
    requires value != 0
    ensures CounterAfter(value, steps) == value <==> steps % COUNTER_CYCLE == 0
  {
    hide CounterAfter;
    CounterClosedForm(value, steps);
  }

  // ----- revisions along a run -----

  /** A call either leaves the whole state as it is or advances the revision. */
  lemma {:induction false} StepRevises(cfg: Config, run: Run, input: Input)
    ensures var after := Step(cfg, run, input).state;
            after == run.state || after.revision == NextNonZeroSequence32(run.state.revision)
  {
    hide AdmitWorkResult, AdmitActionStatusOf, RePreview, PollAfter, CompleteStatusOf, CompleteResult, DiscardStatus,
      RetirementOf, NextNonZeroSequence32;
  }

  /** How many of the calls from position `from` on changed the state. */
  ghost function Changes(cfg: Config, images: Images, inputs: seq<Input>, from: nat): nat
    decreases |inputs|
  {
    if |inputs| <= from then 0 else
      var before := inputs[..|inputs| - 1];
      Changes(cfg, images, before, from)
      + (if RunOf(cfg, images, before).state == RunOf(cfg, images, inputs).state then 0 else 1)
  }

  lemma {:induction false} RevisionsCountChanges(cfg: Config, images: Images, inputs: seq<Input>, from: nat)
    requires from <= |inputs|
    ensures var was, now := RunOf(cfg, images, inputs[..from]).state, RunOf(cfg, images, inputs).state;
            && was.revision != 0
            && now.revision == CounterAfter(was.revision, Changes(cfg, images, inputs, from))
            && (Changes(cfg, images, inputs, from) == 0 ==> now == was)
            && Changes(cfg, images, inputs, from) <= |inputs| - from
    decreases |inputs|
  {
    hide Step;
    if from == |inputs| {
      assert inputs[..from] == inputs;
      RevisionNonZero(cfg, images, inputs);
    } else {
      var before := inputs[..|inputs| - 1];
      assert before[..from] == inputs[..from];
      RevisionsCountChanges(cfg, images, before, from);
      StepRevises(cfg, RunOf(cfg, images, before), inputs[|inputs| - 1]);
    }
  }

  lemma {:induction false} RevisionNonZero(cfg: Config, images: Images, inputs: seq<Input>)
    ensures RunOf(cfg, images, inputs).state.revision != 0
    decreases |inputs|
  {
    hide Step;
    if inputs == [] {
      assert RunOf(cfg, images, inputs).state == INITIAL_STATE;
    } else {
      RevisionNonZero(cfg, images, inputs[..|inputs| - 1]);
      StepRevises(cfg, RunOf(cfg, images, inputs[..|inputs| - 1]), inputs[|inputs| - 1]);
    }
  }

  // ----- proposals along a run -----

  predicate IsAccepting(status: ActionAdmitStatus) {
    status.ActionAdmitted? || status.Consumed?
  }

  lemma {:induction false} ProposalNamesRevision(
    cfg: Config, s: BridgeState, session: SessionState, now: u32, polls: PollSet, writeContext: Handle,
    action: StoreForwardAction)
    requires Proposes(cfg, s, session, now, polls, writeContext, action)
    ensures action.proposalRevision == s.revision
  {
    hide Choice, Plannable, FragmentAt, WorkCurrent;
  }

  /** An accepted action names the present revision, and accepting it changes the state. */
  lemma {:induction false} AcceptedIsCurrent(
    cfg: Config, run: Run, action: StoreForwardAction, session: SessionState, polls: PollSet)
    requires IsAccepting(AdmitActionStatusOf(cfg, run.state, action, session, polls))
    ensures action.proposalRevision == run.state.revision
    ensures Step(cfg, run, AdmitActionCall(action, session, polls)).state != run.state
  {
    hide Preview, PollAfter;
    assert Proposes(cfg, run.state, session, action.selectedAt, polls, action.downstream.consistencyContext, action);
    ProposalNamesRevision(cfg, run.state, session, action.selectedAt, polls, action.downstream.consistencyContext,
                          action);
  }

  /** A proposal is good until the state changes, and no longer: presented with the session and polls it
      was previewed with, it is accepted if and only if no call since has changed the state; and once one
      has, no session or polls make it acceptable. This holds for 2^32 - 2 changes, the last before the
      revision comes round. */
  lemma {:induction false} ProposalGoesStale(
    cfg: Config, images: Images, inputs: seq<Input>, from: nat, action: StoreForwardAction,
    session: SessionState, now: u32, polls: PollSet, writeContext: Handle)
    requires Usable(cfg.planner.routes) && from <= |inputs|
    requires Proposes(cfg, RunOf(cfg, images, inputs[..from]).state, session, now, polls, writeContext, action)
    requires Changes(cfg, images, inputs, from) < COUNTER_CYCLE
    ensures var s, changes := RunOf(cfg, images, inputs).state, Changes(cfg, images, inputs, from);
            && (IsAccepting(AdmitActionStatusOf(cfg, s, action, session, polls)) <==> changes == 0)
            && (changes != 0 ==>
                  forall otherSession, otherPolls ::
                    !IsAccepting(AdmitActionStatusOf(cfg, s, action, otherSession, otherPolls)))
  {
    hide RunOf, Changes, Preview, AdmitActionStatusOf, Invariant;
    var was, run := RunOf(cfg, images, inputs[..from]).state, RunOf(cfg, images, inputs);
    RevisionsCountChanges(cfg, images, inputs, from);
    CounterReturns(was.revision, Changes(cfg, images, inputs, from));
    ProposalNamesRevision(cfg, was, session, now, polls, writeContext, action);
    if Changes(cfg, images, inputs, from) == 0 {
      ReachableStates(cfg, images, inputs);
      AdmissionExact(cfg, run.state, action, session, polls);
    } else {
      forall otherSession, otherPolls
        ensures !IsAccepting(AdmitActionStatusOf(cfg, run.state, action, otherSession, otherPolls))
      {
        if IsAccepting(AdmitActionStatusOf(cfg, run.state, action, otherSession, otherPolls)) {
          AcceptedIsCurrent(cfg, run, action, otherSession, otherPolls);
        }
      }
    }
  }

  /** Call number `i` of the run presents this action and is accepted. */
  ghost predicate AcceptedAt(cfg: Config, images: Images, inputs: seq<Input>, i: nat, action: StoreForwardAction)
    requires i < |inputs|
  {
    && inputs[i].AdmitActionCall?
    && inputs[i].action == action
    && IsAccepting(AdmitActionStatusOf(cfg, RunOf(cfg, images, inputs[..i]).state, action, inputs[i].session,
                                       inputs[i].polls))
  }

  lemma {:induction false} ChangesFirst(cfg: Config, images: Images, inputs: seq<Input>, from: nat)
    requires from < |inputs|
    requires RunOf(cfg, images, inputs[..from]).state != RunOf(cfg, images, inputs[..from + 1]).state
    ensures Changes(cfg, images, inputs, from) >= 1
    decreases |inputs|
  {
    hide RunOf;
    if from + 1 == |inputs| {
      assert inputs[..from + 1] == inputs;
    } else {
      var before := inputs[..|inputs| - 1];
      assert before[..from] == inputs[..from] && before[..from + 1] == inputs[..from + 1];
      ChangesFirst(cfg, images, before, from);
    }
  }

  /** No action is accepted twice, however often it is presented, unless at least 2^32 - 1 calls of the
      run lie between the two acceptances. */
  lemma {:induction false} AcceptedOnce(
    cfg: Config, images: Images, inputs: seq<Input>, i: nat, j: nat, action: StoreForwardAction)
    requires i < j < |inputs|
    requires AcceptedAt(cfg, images, inputs, i, action) && AcceptedAt(cfg, images, inputs, j, action)
    ensures j - i >= COUNTER_CYCLE
  {
    hide RunOf, Changes, Step, AdmitActionStatusOf;
    var before := inputs[..j];
    assert before[..i] == inputs[..i] && before[..i + 1] == inputs[..i + 1];
    AcceptedIsCurrent(cfg, RunOf(cfg, images, inputs[..i]), action, inputs[i].session, inputs[i].polls);
    AcceptedIsCurrent(cfg, RunOf(cfg, images, before), action, inputs[j].session, inputs[j].polls);
    RunStep(cfg, images, inputs, i);
    ChangesFirst(cfg, images, before, i);
    RevisionsCountChanges(cfg, images, before, i);
    CounterReturns(action.proposalRevision, Changes(cfg, images, before, i));
  }

  lemma {:induction false} RunStep(cfg: Config, images: Images, inputs: seq<Input>, i: nat)
    requires i < |inputs|
    ensures RunOf(cfg, images, inputs[..i + 1]) == Step(cfg, RunOf(cfg, images, inputs[..i]), inputs[i])
  {
    assert inputs[..i + 1][..i] == inputs[..i];
    hide Step;
  }
}
