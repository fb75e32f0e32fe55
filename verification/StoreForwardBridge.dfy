/** The cooperative facade: preview, admit and complete over a caller's queue and ledger storage. Each
    method refines one transition of the state machine in `StoreForwardState`; the branches that the
    source keeps as a defence are shown to be dead by `assert false`. */
module StoreForwardBridge {
  import opened Words
  import opened IngressWork
  import opened RouteTable
  import opened DownstreamExecutor
  import opened ForwardPlan
  import opened ForwardMeaning
  import opened FixedStorage
  import opened CompletionTransition
  import opened CompletionLedger
  import opened PollPlanner
  import opened StoreForwardState

  class Bridge {
    const planner: ForwardPlanner
    const pollPlanner: PollPlannerOptions
    const workQueue: FixedRingQueue<WorkSlot>
    const completionLedger: Ledger
    var pollState: PollPlannerState
    var requestSequence: u32
    var revision: u32
    var inFlight: bool
    var inFlightAction: StoreForwardAction
    var inFlightWork: WorkIdentity

    predicate ValidStorage() {
      workQueue.ValidStorage() && completionLedger.ValidStorage()
    }

    ghost function Cfg(): Config {
      Config(planner, pollPlanner, workQueue.capacity, completionLedger.capacity, ValidStorage())
    }

    ghost function State(): BridgeState
      reads this, workQueue, workQueue.storage, completionLedger, completionLedger.slots
      requires workQueue.Valid()
    {
      BridgeState(workQueue.Contents(), completionLedger.contents, pollState, requestSequence, revision,
                  if inFlight then Some(inFlightAction) else None)
    }

    /** The two copies of what is in flight agree, and both are blank when nothing is. */
    predicate Retained()
      reads this
    {
      if inFlight then
        inFlightWork == if inFlightAction.kind.ForwardWrite? then inFlightAction.write.identity.work else NO_WORK
      else inFlightAction == NO_BRIDGE_ACTION && inFlightWork == NO_WORK
    }

    ghost predicate Valid()
      reads this, workQueue, workQueue.storage, completionLedger, completionLedger.slots
    {
      && workQueue.Valid()
      && completionLedger.Valid()
      && workQueue.storage as object != completionLedger.slots as object
      && Invariant(Cfg(), State())
      && Retained()
    }

    /** A fresh bridge over its own empty ledger. */
    constructor (planner: ForwardPlanner, workQueue: FixedRingQueue<WorkSlot>, ledger: Ledger,
        pollPlanner: PollPlannerOptions)
      requires Usable(planner.routes)
      requires workQueue.Valid() && workQueue.Contents() == []
      requires ledger.Valid() && ledger.contents == map[]
      requires workQueue.storage as object != ledger.slots as object
      ensures Valid() && State() == INITIAL_STATE
      ensures Cfg() == Config(planner, pollPlanner, workQueue.capacity, ledger.capacity,
                              workQueue.ValidStorage() && ledger.ValidStorage())
    {
      this.planner := planner;
      this.workQueue := workQueue;
      this.completionLedger := ledger;
      this.pollPlanner := pollPlanner;
      this.pollState := INITIAL_POLL_STATE;
      this.requestSequence := 0;
      this.revision := 1;
      this.inFlight := false;
      this.inFlightAction := NO_BRIDGE_ACTION;
      this.inFlightWork := NO_WORK;
      new;
      InitialInvariant(Cfg());
    }

    method AdvanceRevision()
      modifies this`revision
      ensures revision == NextNonZeroSequence32(old(revision))
    {
      revision := NextNonZeroSequence32(revision);
    }

    method ClearInFlight()
      modifies this`inFlight, this`inFlightAction, this`inFlightWork
      ensures !inFlight && Retained()
    {
      inFlight := false;
      inFlightAction := NO_BRIDGE_ACTION;
      inFlightWork := NO_WORK;
    }

    method AdmitWork(work: IngressWork, session: SessionState, userContext: Handle)
      returns (result: StoreForwardAdmission)
      requires Valid()
      modifies this, workQueue, workQueue.storage, completionLedger, completionLedger.slots
      ensures Valid()
      ensures result == AdmitWorkResult(Cfg(), old(State()), work, session)
      ensures result.status.WorkAdmitted? ==> State() == AfterAdmitWork(old(State()), work, userContext)
      ensures !result.status.WorkAdmitted? ==> State() == old(State())
    {
      hide Invariant, Ledger.Valid, FixedRingQueue.Contents, FixedRingQueue.Valid, BeginStatus, Usable;
      ghost var before := State();
      InvariantFacts(Cfg(), before);
      result := StoreForwardAdmission(AdmitStorageInvalid, InvalidWork, InvalidLedgerWork);
      if !ValidStorage() {
        return;
      }
      if workQueue.Full() {
        return result.(status := QueueFull);
      }
      var plan, cursor := BeginInSession(planner, work, session);
      result := result.(planStatus := plan);
      if plan != Ready {
        return result.(status := PlanRejected);
      }
      ReadyWork(planner, work);
      var reserved := completionLedger.Reserve(work.identity, work.delivery);
      result := result.(ledgerStatus := reserved);
      if reserved != Reserved {
        return result.(status := AdmitLedgerRejected);
      }
      var pushed := workQueue.TryPush(PackWork(work, cursor, userContext));
      if !pushed {
        assert false;
      }
      AdvanceRevision();
      AdmitWorkKeeps(Cfg(), before, work, session, userContext);
      return result.(status := WorkAdmitted);
    }

    /** Preview the next action; nothing changes. */
    method NextAction(session: SessionState, now: u32, polls: PollSet, writeContext: Handle)
      returns (status: NextActionStatus, action: StoreForwardAction)
      requires Valid()
      ensures var proposal := Preview(Cfg(), State(), session, now, polls, writeContext);
              status == proposal.status && action == proposal.action && !status.PlanningFailed?
    {
      hide Invariant, Ledger.Valid, FixedRingQueue.Contents, FixedRingQueue.Valid, Preview, Cfg;
      PreviewIsSound(Cfg(), State(), session, now, polls, writeContext);
      var cursor: ForwardCursor;
      status, action, cursor := PreviewAction(session, now, polls, writeContext);
    }

    method PreviewAction(session: SessionState, now: u32, polls: PollSet, writeContext: Handle)
      returns (status: NextActionStatus, action: StoreForwardAction, cursor: ForwardCursor)
      requires Valid()
      ensures Proposal(status, action, cursor) == Preview(Cfg(), State(), session, now, polls, writeContext)
    {
      hide Invariant, Ledger.Valid, FixedRingQueue.Contents, FixedRingQueue.Valid, Choice;
      ghost var state := State();
      InvariantFacts(Cfg(), state);
      action := NO_BRIDGE_ACTION;
      cursor := IDLE_CURSOR;
      if !ValidStorage() {
        return PreviewStorageInvalid, action, cursor;
      }
      if inFlight {
        return PreviewActionInFlight, action, cursor;
      }
      var front := workQueue.Front();
      if front.Some? && !WorkCurrent(front.value.workIdentity, session) {
        return StaleWork, action, cursor;
      }
      var selected, selection := Select(pollPlanner, now, front.Some?, polls, pollState);
      if selected == InvalidPollStorage {
        return PreviewPollStorageInvalid, action, cursor;
      }
      if selected == NothingSelected {
        return NothingToDo, action, cursor;
      }
      ChoiceCommits(pollPlanner, now, front.Some?, polls, pollState);
      var proposedSequence := NextNonZeroSequence32(requestSequence);
      action := action.(kind := selection.kind, proposalRevision := revision, scheduling := selection);
      action := action.(pollCount := |polls.candidates|, selectedAt := now);
      if selection.kind == Poll {
        if selection.pollIndex >= |polls.candidates| {
          assert false;
        }
        var candidate := polls.candidates[selection.pollIndex];
        action := action.(requiresCompletion := candidate.requiresDispatch);
        if !action.requiresCompletion {
          return ActionReady, action, cursor;
        }
        action := action.(sequence := proposedSequence);
        action := action.(downstream := candidate.request);
        action := action.(downstream := action.downstream.(sequence := action.sequence));
        if !IsPollOperation(action.downstream.operation)
           || ValidateDownstreamRequest(action.downstream) != ValidRequest {
          return InvalidPollRequest, NO_BRIDGE_ACTION, cursor;
        }
        return ActionReady, action, cursor;
      }
      if selection.kind != ForwardWrite || front.None? {
        assert false;
      }
      FrontIsPlannable(Cfg(), state);
      action := action.(sequence := proposedSequence, requiresCompletion := true);
      action := action.(workContext := front.value.userContext);
      var planned, next, write := ForwardPlan.Next(planner, AsCursor(front.value), proposedSequence);
      if planned != Planned {
        assert false;
      }
      action := action.(write := write);
      action := action.(downstream := DownstreamRequestFor(write, writeContext));
      return ActionReady, action, next;
    }

    /** Commit one previewed action: it is accepted if and only if a preview would return exactly it
        now, and otherwise nothing changes. */
    method AdmitAction(action: StoreForwardAction, session: SessionState, polls: PollSet)
      returns (status: ActionAdmitStatus)
      requires Valid()
      modifies this, workQueue, workQueue.storage, completionLedger, completionLedger.slots
      ensures Valid()
      ensures status == AdmitActionStatusOf(Cfg(), old(State()), action, session, polls)
      ensures State() == if status.ActionAdmitted? || status.Consumed? then
                           AfterAdmitAction(old(State()), action, old(RePreview(Cfg(), State(), action, session,
                               polls)).cursor)
                         else old(State())
    {
      hide Invariant, Ledger.Valid, FixedRingQueue.Contents, FixedRingQueue.Valid, Preview, Plannable, FragmentAt,
          CursorAfterFragment, EntryAgrees, Committed;
      ghost var before := State();
      InvariantFacts(Cfg(), before);
      if inFlight {
        return AdmitActionInFlight;
      }
      if action.kind == NoAction {
        return InvalidAction;
      }
      if action.proposalRevision != revision {
        StaleRevision(Cfg(), before, action, session, polls);
        return StaleProposal;
      }
      var previewed, proposal, cursor :=
        PreviewAction(session, action.selectedAt, polls, action.downstream.consistencyContext);
      PreviewIsSound(Cfg(), before, session, action.selectedAt, polls, action.downstream.consistencyContext);
      if previewed != ActionReady || action != proposal {
        return StaleProposal;
      }
      if action.kind != action.scheduling.kind {
        assert false;
      }
      AdmitActionKeeps(Cfg(), before, action, session, polls);
      if action.kind == Poll && !action.requiresCompletion {
        var committed, updated := Commit(action.scheduling, action.pollCount, action.selectedAt, pollState);
        if !committed {
          assert false;
        }
        pollState := updated;
        AdvanceRevision();
        return Consumed;
      }
      if action.sequence == 0 || action.sequence != NextNonZeroSequence32(requestSequence) {
        assert false;
      }
      if action.kind == ForwardWrite {
        FrontIsPlannable(Cfg(), before);
        IssueKeepsEntry(planner, before.queue[0], before.ledger[before.queue[0].workIdentity], action.sequence);
        CommitWrite(action, cursor);
      } else {
        if !IsPollOperation(action.downstream.operation)
           || ValidateDownstreamRequest(action.downstream) != ValidRequest
           || action.downstream.sequence != action.sequence {
          assert false;
        }
        CommitPoll(action, cursor);
      }
      return ActionAdmitted;
    }

    /** The write half of the commit: fairness first, then the ledger's debt, then the front cursor. */
    method CommitWrite(action: StoreForwardAction, cursor: ForwardCursor)
      requires Valid() && !inFlight && action.kind.ForwardWrite? && action.requiresCompletion
      requires workQueue.Contents() != [] && action.write.identity.work == workQueue.Contents()[0].workIdentity
      requires IssueStatus(completionLedger.contents, action.write).Recorded?
      requires Committed(action.scheduling, action.pollCount, action.selectedAt, pollState).Some?
      requires Invariant(Cfg(), AfterAdmitAction(State(), action, cursor))
      modifies this, workQueue.storage, completionLedger, completionLedger.slots
      ensures Valid()
      ensures State() == AfterAdmitAction(old(State()), action, cursor)
    {
      hide Invariant, Ledger.Valid, FixedRingQueue.Contents, FixedRingQueue.Valid, Cfg, Committed, SlotIssueStatus,
          AfterIssue;
      var front := workQueue.Front().value;
      var committed, updated := Commit(action.scheduling, action.pollCount, action.selectedAt, pollState);
      if !committed {
        assert false;
      }
      pollState := updated;
      var recorded := completionLedger.RecordIssued(action.write);
      if recorded != Recorded {
        assert false;
      }
      workQueue.SetFront(UpdateFrom(front, cursor));
      inFlightWork := action.write.identity.work;
      requestSequence := action.sequence;
      inFlight := true;
      inFlightAction := action;
      AdvanceRevision();
    }

    /** The poll half of the commit: only fairness moves. */
    method CommitPoll(action: StoreForwardAction, ghost cursor: ForwardCursor)
      requires Valid() && !inFlight && action.kind.Poll? && action.requiresCompletion
      requires Committed(action.scheduling, action.pollCount, action.selectedAt, pollState).Some?
      requires Invariant(Cfg(), AfterAdmitAction(State(), action, cursor))
      modifies this
      ensures Valid()
      ensures State() == AfterAdmitAction(old(State()), action, cursor)
    {
      hide Invariant, Ledger.Valid, FixedRingQueue.Contents, FixedRingQueue.Valid, Cfg, Committed;
      var committed, updated := Commit(action.scheduling, action.pollCount, action.selectedAt, pollState);
      if !committed {
        assert false;
      }
      pollState := updated;
      inFlightWork := NO_WORK;
      requestSequence := action.sequence;
      inFlight := true;
      inFlightAction := action;
      AdvanceRevision();
    }

    /** Accept one terminal outcome for the action in flight. With the matching action and a known
        outcome this always clears the action in flight. */
    method Complete(admittedAction: StoreForwardAction, outcome: DownstreamOutcome, session: SessionState)
      returns (result: StoreForwardCompletion)
      requires Valid()
      modifies this, workQueue, workQueue.storage, completionLedger, completionLedger.slots
      ensures Valid()
      ensures result == CompleteResult(old(State()), admittedAction, outcome, session)
      ensures State() == AfterComplete(old(State()), admittedAction, outcome, session)
      ensures old(inFlight) && admittedAction == old(inFlightAction) && IsKnownOutcome(outcome) ==> !inFlight
    {
      hide Invariant, Ledger.Valid, FixedRingQueue.Contents, FixedRingQueue.Valid, Cfg, WorkCurrent, AfterResolve,
          Summarize, DecisionFor;
      ghost var before := State();
      InvariantFacts(Cfg(), before);
      CompleteKeeps(Cfg(), before, admittedAction, outcome, session);
      result := StoreForwardCompletion(
        NoActionInFlight, if inFlight then inFlightAction.kind else admittedAction.kind, outcome,
        NO_DECISION, NO_SUMMARY, false, if inFlight then inFlightAction.workContext else NULL_HANDLE);
      if !inFlight {
        return;
      }
      if admittedAction != inFlightAction {
        return result.(status := ActionMismatch);
      }
      if !IsKnownOutcome(outcome) {
        return result.(status := CompleteOutcomeInvalid);
      }
      if inFlightAction.kind == Poll {
        ClearInFlight();
        AdvanceRevision();
        return result.(status := Completed);
      }
      if inFlightAction.kind != ForwardWrite || admittedAction.write.identity.work != inFlightWork {
        assert false;
      }
      result := CompleteWrite(admittedAction, outcome, session, result);
    }

    /** The write half of a completion: the ledger resolves the fragment, or the session is stale and
        the work is dropped; a failed or finished work leaves the queue. */
    method CompleteWrite(
      action: StoreForwardAction, outcome: DownstreamOutcome, session: SessionState, partial: StoreForwardCompletion)
      returns (result: StoreForwardCompletion)
      requires Valid() && inFlight && action == inFlightAction && action.kind.ForwardWrite? && IsKnownOutcome(outcome)
      requires partial.(status := NoActionInFlight)
               == StoreForwardCompletion(NoActionInFlight, ForwardWrite, outcome, NO_DECISION, NO_SUMMARY, false,
                   action.workContext)
      modifies this, workQueue, completionLedger, completionLedger.slots
      ensures Valid() && !inFlight
      ensures result == CompleteResult(old(State()), action, outcome, session)
      ensures State() == AfterComplete(old(State()), action, outcome, session)
    {
      hide Invariant, Ledger.Valid, FixedRingQueue.Contents, FixedRingQueue.Valid, Cfg, WorkCurrent, ResolveStatus,
        DecisionFor, AfterResolve, AfterClose, Summarize, CompleteResult, AfterComplete, SlotAfterCompletion,
        IsFailure, NextNonZeroSequence32, SummaryTells;
      ghost var before := State();
      var work := action.write.identity.work;
      CompleteWriteShape(Cfg(), before, action, outcome, session);
      ghost var record := before.ledger[work];
      result := partial;
      var resolution := completionLedger.Resolve(action.write, CompletionRecord(action.write.identity, outcome),
          session);
      result := result.(decision := resolution.decision, work := resolution.summary);
      if resolution.status != Resolved {
        if resolution.status != CompletionRejected || resolution.decision.status != StaleCompletion {
          assert false;
        }
        DropStale();
        return result.(status := CompleteStaleSession, workRetired := true);
      }
      ClearInFlight();
      RewriteThenRemove(before.ledger, work, AfterResolve(record, outcome), SlotAfterCompletion(record, outcome));
      var summary, retired := Settle(work, outcome, result.work);
      result := result.(work := summary, workRetired := retired);
      AdvanceRevision();
      result := result.(status := Completed);
      assert State() == AfterComplete(before, action, outcome, session);
    }

    /** Close the front work's planning after a failure, and release it if nothing of it is left. */
    method Settle(work: WorkIdentity, outcome: DownstreamOutcome, resolved: WorkCompletionSummary)
      returns (summary: WorkCompletionSummary, retired: bool)
      requires workQueue.Valid() && completionLedger.Valid()
      requires workQueue.storage as object != completionLedger.slots as object
      requires work in completionLedger.contents && resolved == Summarize(completionLedger.contents[work])
      requires outcome != Applied ==> IsFailure(completionLedger.contents[work].observedOutcome)
      requires workQueue.Contents() != [] && workQueue.Contents()[0].workIdentity == work
      modifies workQueue, completionLedger, completionLedger.slots
      ensures workQueue.Valid() && completionLedger.Valid()
      ensures var record := old(completionLedger.contents)[work];
              var slot := if outcome == Applied then record else AfterClose(record);
              && summary == Summarize(slot)
              && retired == summary.drained
              && workQueue.Contents() == (if retired then old(workQueue.Contents())[1..] else old(workQueue.Contents()))
              && completionLedger.contents == (if retired then old(completionLedger.contents) - {work}
                                               else old(completionLedger.contents)[work := slot])
    {
      hide Ledger.Valid, FixedRingQueue.Contents, FixedRingQueue.Valid, IsFailure, Summarize, AfterClose, SummaryTells;
      summary := resolved;
      if outcome != Applied {
        var closed := completionLedger.ClosePlanningAfterFailure(work);
        var found;
        found, summary := completionLedger.Summary(work);
      }
      retired := summary.drained;
      if retired {
        ReleaseFront(work);
      }
    }

    /** Release a drained front work from ledger and queue. */
    method ReleaseFront(work: WorkIdentity)
      requires workQueue.Valid() && completionLedger.Valid()
      requires workQueue.storage as object != completionLedger.slots as object
      requires work in completionLedger.contents && Summarize(completionLedger.contents[work]).drained
      requires workQueue.Contents() != [] && workQueue.Contents()[0].workIdentity == work
      modifies workQueue, completionLedger, completionLedger.slots
      ensures workQueue.Valid() && completionLedger.Valid()
      ensures workQueue.Contents() == old(workQueue.Contents())[1..]
      ensures completionLedger.contents == old(completionLedger.contents) - {work}
    {
      hide Ledger.Valid, FixedRingQueue.Contents, FixedRingQueue.Valid;
      var released := completionLedger.Release(work);
      PopFrontIf(work);
    }

    /** Drop the work in flight from queue and ledger after its completion was refused as stale. */
    method DropStale()
      requires Valid() && inFlight && workQueue.Contents() != [] && workQueue.Contents()[0].workIdentity == inFlightWork
      requires Invariant(Cfg(), WithoutFront(State()).(inFlight := None, revision := NextNonZeroSequence32(revision)))
      modifies this, workQueue, completionLedger, completionLedger.slots
      ensures Valid() && !inFlight
      ensures State() == WithoutFront(old(State())).(inFlight := None, revision := NextNonZeroSequence32(old(revision)))
    {
      hide Invariant, Ledger.Valid, FixedRingQueue.Contents, FixedRingQueue.Valid, Cfg;
      var _ := completionLedger.Abandon(inFlightWork);
      PopFrontIf(inFlightWork);
      ClearInFlight();
      AdvanceRevision();
    }

    method PopFrontIf(work: WorkIdentity)
      requires workQueue.Valid()
      modifies workQueue
      ensures workQueue.Valid()
      ensures var queue := old(workQueue.Contents());
              workQueue.Contents()
              == if queue != [] && queue[0].workIdentity == work then queue[1..] else queue
    {
      var front := workQueue.Front();
      if front.Some? && front.value.workIdentity == work {
        var _ := workQueue.PopFront();
      }
    }

    /** Remove one idle front work of an old session and hand its context back. */
    method DiscardOneStaleWork(session: SessionState) returns (status: RetireStatus, retired: StoreForwardRetirement)
      requires Valid()
      modifies this, workQueue, workQueue.storage, completionLedger, completionLedger.slots
      ensures Valid()
      ensures status == DiscardStatus(old(State()), session)
      ensures retired == RetirementOf(old(State()), status)
      ensures State() == AfterRetire(old(State()), status)
    {
      retired := NO_RETIREMENT;
      if inFlight {
        return RetireActionInFlight, retired;
      }
      var front := workQueue.Front();
      if front.None? {
        return RetireEmpty, retired;
      }
      if WorkCurrent(front.value.workIdentity, session) {
        return WorkStillCurrent, retired;
      }
      retired := RetireFront();
      status := Retired;
    }

    /** Remove one idle front work whatever its session. */
    method AbandonFront() returns (status: RetireStatus, retired: StoreForwardRetirement)
      requires Valid()
      modifies this, workQueue, workQueue.storage, completionLedger, completionLedger.slots
      ensures Valid()
      ensures status == AbandonStatus(old(State()))
      ensures retired == RetirementOf(old(State()), status)
      ensures State() == AfterRetire(old(State()), status)
    {
      retired := NO_RETIREMENT;
      if inFlight {
        return RetireActionInFlight, retired;
      }
      if workQueue.Front().None? {
        return RetireEmpty, retired;
      }
      retired := RetireFront();
      status := Retired;
    }

    method RetireFront() returns (retired: StoreForwardRetirement)
      requires Valid() && !inFlight && workQueue.Contents() != []
      modifies this, workQueue, workQueue.storage, completionLedger, completionLedger.slots
      ensures Valid()
      ensures retired == RetirementOf(old(State()), Retired)
      ensures State() == AfterRetire(old(State()), Retired)
    {
      hide Invariant, Ledger.Valid, FixedRingQueue.Contents, FixedRingQueue.Valid, Cfg, NextNonZeroSequence32;
      ghost var before := State();
      RetireKeeps(Cfg(), before, Retired);
      var front := workQueue.Front().value;
      retired := StoreForwardRetirement(front.workIdentity, front.kind, front.userContext);
      var _ := completionLedger.Abandon(front.workIdentity);
      var _ := workQueue.PopFront();
      AdvanceRevision();
    }

    /** Abandon every queued work at once, unless an action is in flight. */
    method Reset() returns (ok: bool)
      requires Valid()
      modifies this, workQueue, workQueue.storage, completionLedger, completionLedger.slots
      ensures Valid()
      ensures ok <==> !old(inFlight)
      ensures State() == AfterReset(old(State()))
    {
      hide Invariant, Ledger.Valid, FixedRingQueue.Contents, FixedRingQueue.Valid, Cfg, Matched;
      ghost var before := State();
      ResetKeeps(Cfg(), before);
      InvariantMatches(Cfg(), before);
      if inFlight {
        return false;
      }
      AbandonAll();
      pollState := INITIAL_POLL_STATE;
      AdvanceRevision();
      return true;
    }

    /** Take every queued work out of queue and ledger, oldest first. */
    method AbandonAll()
      requires workQueue.Valid() && completionLedger.Valid()
      requires workQueue.storage as object != completionLedger.slots as object
      requires Matched(workQueue.Contents(), completionLedger.contents)
      modifies workQueue, completionLedger, completionLedger.slots
      ensures workQueue.Valid() && completionLedger.Valid()
      ensures workQueue.Contents() == [] && completionLedger.contents == map[]
    {
      hide Ledger.Valid, FixedRingQueue.Contents, FixedRingQueue.Valid, Matched;
      while workQueue.Front().Some?
        invariant workQueue.Valid() && completionLedger.Valid()
        invariant workQueue.storage as object != completionLedger.slots as object
        invariant Matched(workQueue.Contents(), completionLedger.contents)
        decreases |workQueue.Contents()|
      {
        MatchedAfterPop(workQueue.Contents(), completionLedger.contents);
        var _ := completionLedger.Abandon(workQueue.Front().value.workIdentity);
        var _ := workQueue.PopFront();
      }
      EmptyMatches(workQueue.Contents(), completionLedger.contents);
    }
  }

  lemma {:induction false} InvariantFacts(cfg: Config, s: BridgeState)
    requires Invariant(cfg, s)
    ensures Usable(cfg.planner.routes)
    ensures |s.queue| <= cfg.queueCapacity && |s.ledger| <= cfg.ledgerCapacity
    ensures RetainedAction(s)
  {}

  lemma {:induction false} InvariantMatches(cfg: Config, s: BridgeState)
    requires Invariant(cfg, s)
    ensures Matched(s.queue, s.ledger)
  {}

  lemma {:induction false} EmptyMatches(queue: seq<WorkSlot>, ledger: LedgerContents)
    requires Matched(queue, ledger)
    ensures queue == [] ==> ledger == map[]
  {}

  lemma {:induction false} ReadyWork(planner: ForwardPlanner, work: IngressWork)
    requires BeginStatus(planner, work).Ready?
    ensures IsAccepted(work.delivery) && work.snapshot.data.Buffer? && work.snapshot.count == work.count
  {}

  lemma {:induction false} StaleRevision(
    cfg: Config, s: BridgeState, action: StoreForwardAction, session: SessionState, polls: PollSet)
    requires action.proposalRevision != s.revision && !action.kind.NoAction?
    ensures !IsCurrentProposal(cfg, s, action, session, polls)
  {
    hide Choice, Plannable, FragmentAt, CursorAfterFragment;
  }

  lemma {:induction false} RewriteThenRemove(ledger: LedgerContents, work: WorkIdentity, first: LedgerSlot,
      second: LedgerSlot)
    ensures ledger[work := first][work := second] == ledger[work := second]
    ensures ledger[work := second] - {work} == ledger - {work}
  {}
}
