/** The request sequences of the actions that a run dispatches. */
module StoreForwardSequences {
  import opened Words
  import opened IngressWork
  import opened RouteTable
  import opened ForwardPlan
  import opened PollPlanner
  import opened StoreForwardState
  import opened StoreForwardRuns
  import opened StoreForwardTheorems
  import opened StoreForwardFreshness

  /** The call is admitted for dispatch, so a request goes out for it. */
  ghost predicate Dispatches(cfg: Config, s: BridgeState, input: Input) {
    && input.AdmitActionCall?
    && AdmitActionStatusOf(cfg, s, input.action, input.session, input.polls).ActionAdmitted?
  }

  /** The actions dispatched by a run, in order. */
  ghost function Dispatched(cfg: Config, images: Images, inputs: seq<Input>): seq<StoreForwardAction>
    decreases |inputs|
  {
    if inputs == [] then [] else
      var before, last := inputs[..|inputs| - 1], inputs[|inputs| - 1];
      Dispatched(cfg, images, before)
      + (if Dispatches(cfg, RunOf(cfg, images, before).state, last) then [last.action] else [])
  }

  /** The writes among some actions. */
  function WritesAmong(actions: seq<StoreForwardAction>): seq<PlannedWrite>
    decreases |actions|
  {
    if actions == [] then [] else
      var last := actions[|actions| - 1];
      WritesAmong(actions[..|actions| - 1]) + (if last.kind.ForwardWrite? then [last.write] else [])
  }

  lemma {:induction false} WritesPush(actions: seq<StoreForwardAction>, last: StoreForwardAction)
    ensures WritesAmong(actions + [last])
            == WritesAmong(actions) + (if last.kind.ForwardWrite? then [last.write] else [])
  {
    assert (actions + [last])[..|actions|] == actions;
  }

  /** The action and everything it sends carry this sequence. */
  predicate IsNumbered(action: StoreForwardAction, sequence: u32) {
    && action.sequence == sequence
    && action.downstream.sequence == sequence
    && (action.kind.ForwardWrite? ==> action.write.identity.requestSequence == sequence)
  }

  lemma {:induction false} OthersKeepSequence(cfg: Config, run: Run, input: Input)
    requires !Dispatches(cfg, run.state, input)
    ensures Step(cfg, run, input).state.requestSequence == run.state.requestSequence
    ensures Step(cfg, run, input).writes == run.writes
  {
    hide AdmitWorkResult, IsCurrentProposal, RePreview, CompleteResult, CompleteStatusOf, DiscardStatus, RetirementOf,
      Transition, PollAfter;
  }

  lemma {:induction false} DispatchTakesNext(cfg: Config, run: Run, input: Input)
    requires Invariant(cfg, run.state) && Dispatches(cfg, run.state, input)
    ensures var after, next := Step(cfg, run, input), NextNonZeroSequence32(run.state.requestSequence);
            && IsNumbered(input.action, next)
            && after.state.requestSequence == next
            && after.writes == run.writes + (if input.action.kind.ForwardWrite? then [input.action.write] else [])
  {
    hide Invariant, Preview, PollAfter, Plannable;
    var action := input.action;
    PreviewIsSound(cfg, run.state, input.session, action.selectedAt, input.polls,
                   action.downstream.consistencyContext);
    DispatchIsNumbered(cfg, run.state, input.session, action.selectedAt, input.polls,
                       action.downstream.consistencyContext);
  }

  lemma {:induction false} DispatchIsNumbered(
    cfg: Config, s: BridgeState, session: SessionState, now: u32, polls: PollSet, writeContext: Handle)
    ensures var proposal := Preview(cfg, s, session, now, polls, writeContext);
            proposal.status.ActionReady? && proposal.action.requiresCompletion ==>
              IsNumbered(proposal.action, NextNonZeroSequence32(s.requestSequence))
  {
    hide Choice, Plannable, WorkCurrent;
  }

  lemma {:induction false} CounterFromZero(steps: nat)
    ensures CounterAfter(0, steps + 1) == CounterAfter(1, steps)
    decreases steps
  {
    if steps == 0 {
      assert CounterAfter(0, 1) == NextNonZeroSequence32(CounterAfter(0, 0));
    } else {
      CounterFromZero(steps - 1);
    }
  }

  ghost predicate AllNumbered(actions: seq<StoreForwardAction>) {
    forall k | 0 <= k < |actions| :: IsNumbered(actions[k], CounterAfter(0, k + 1))
  }

  lemma {:induction false} NothingNumbered()
    ensures AllNumbered([])
  {}

  lemma {:induction false} NumberedPush(actions: seq<StoreForwardAction>, last: StoreForwardAction)
    requires AllNumbered(actions)
    requires IsNumbered(last, NextNonZeroSequence32(CounterAfter(0, |actions|)))
    ensures AllNumbered(actions + [last])
    ensures CounterAfter(0, |actions + [last]|) == NextNonZeroSequence32(CounterAfter(0, |actions|))
  {
    hide IsNumbered, NextNonZeroSequence32;
  }

  lemma {:induction false} SequencesCount(cfg: Config, images: Images, inputs: seq<Input>)
    requires Usable(cfg.planner.routes)
    ensures var run, dispatched := RunOf(cfg, images, inputs), Dispatched(cfg, images, inputs);
            && run.state.requestSequence == CounterAfter(0, |dispatched|)
            && run.writes == WritesAmong(dispatched)
            && AllNumbered(dispatched)
    decreases |inputs|
  {
    hide Step, Invariant, AdmitActionStatusOf, IsNumbered, Usable, NextNonZeroSequence32, AllNumbered;
    if inputs == [] {
      assert AllNumbered([]) by { NothingNumbered(); }
    } else {
      var before, last := inputs[..|inputs| - 1], inputs[|inputs| - 1];
      var run, dispatched := RunOf(cfg, images, before), Dispatched(cfg, images, before);
      SequencesCount(cfg, images, before);
      if Dispatches(cfg, run.state, last) {
        ReachableStates(cfg, images, before);
        DispatchTakesNext(cfg, run, last);
        WritesPush(dispatched, last.action);
        NumberedPush(dispatched, last.action);
      } else {
        OthersKeepSequence(cfg, run, last);
        assert Dispatched(cfg, images, inputs) == dispatched;
      }
    }
  }

  /** Dispatched actions are numbered consecutively through the non-zero 32-bit values, polls and
      writes together, beginning with 1 and across resets; the admitted writes are those among them. */
  lemma {:induction false} SequencesConsecutive(cfg: Config, images: Images, inputs: seq<Input>)
    requires Usable(cfg.planner.routes)
    ensures var dispatched := Dispatched(cfg, images, inputs);
            && RunOf(cfg, images, inputs).writes == WritesAmong(dispatched)
            && forall k | 0 <= k < |dispatched| :: IsNumbered(dispatched[k], 1 + k % COUNTER_CYCLE)
  {
    hide RunOf, Dispatched, WritesAmong, IsNumbered, CounterAfter;
    SequencesCount(cfg, images, inputs);
    var dispatched := Dispatched(cfg, images, inputs);
    forall k | 0 <= k < |dispatched|
      ensures IsNumbered(dispatched[k], 1 + k % COUNTER_CYCLE)
    {
      CounterFromZero(k);
      CounterClosedForm(1, k);
      assert 1 - 1 + k == k;
    }
  }

  lemma {:induction false} SameResidue(i: nat, j: nat)
    requires i <= j
    ensures i % COUNTER_CYCLE == j % COUNTER_CYCLE <==> (j - i) % COUNTER_CYCLE == 0
  {
    var quotients, residues := j / COUNTER_CYCLE - i / COUNTER_CYCLE, j % COUNTER_CYCLE - i % COUNTER_CYCLE;
    assert j - i == quotients * COUNTER_CYCLE + residues;
  }

  /** Two dispatched actions share a sequence if and only if a whole number of cycles lies between. */
  lemma {:induction false} SequencesReturn(cfg: Config, images: Images, inputs: seq<Input>, i: nat, j: nat)
    requires Usable(cfg.planner.routes) && i < j < |Dispatched(cfg, images, inputs)|
    ensures Dispatched(cfg, images, inputs)[i].sequence == Dispatched(cfg, images, inputs)[j].sequence
            <==> (j - i) % COUNTER_CYCLE == 0
  {
    hide Dispatched, WritesAmong, RunOf, Usable;
    SameResidue(i, j);
    SequencesConsecutive(cfg, images, inputs);
    assert IsNumbered(Dispatched(cfg, images, inputs)[i], 1 + i % COUNTER_CYCLE);
    assert IsNumbered(Dispatched(cfg, images, inputs)[j], 1 + j % COUNTER_CYCLE);
  }
}
