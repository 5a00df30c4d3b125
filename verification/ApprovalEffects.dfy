/** What a commit changes, field by field, and that it changes nothing else. */
module ApprovalEffects {
  import opened Basics
  import opened ApprovalModels
  import opened ApprovalReader
  import opened ApprovalProjection
  import opened ApprovalWriter
  import opened ApprovalIndex
  import opened ApprovalConservation
  import opened ApprovalDecisionClosure

  // ------------------------------------------------------------------ decisions

  /** The request after this item decided it: state, and one revision on, nothing else. */
  function Decided(r: Request, item: DecisionItem, ledgerRevision: int): Request {
    Request(r.requestId, r.requestRevision + 1, ledgerRevision, r.createdRunRevision, r.stableProposalId, r.actionPlan,
            r.actionDigest, r.display, r.requiredScope, r.createdAt, r.expiresAt, r.sourcePhaseId, r.sourceAttemptId,
            r.idempotencyKey, if item.decision == Approve then Approved else Rejected, r.supersessionReference)
  }

  ghost predicate Admits(h: Hasher, s: State, b: DecisionBatch, resolved: Option<Snapshot>, run: int, at: Time, a: Admission) {
    && Accepts(h, s.files) && BatchValid(b) && (resolved.Some? ==> SnapshotValid(h, resolved.value))
    && DecisionVerdictFor(h, s, b, resolved, run, at) == NewDecision(a)
  }

  lemma {:induction false} AdmitsParts(h: Hasher, s: State, b: DecisionBatch, resolved: Option<Snapshot>, run: int, at: Time,
                                       a: Admission)
    requires Admits(h, s, b, resolved, run, at, a)
    ensures resolved.Some? && a == Admission(s, b, resolved.value, h(ActorP(b.actor)), h(DecisionBatchP(b)))
    ensures Checked(h, a, at) && LedgerValid(h, s.files.ledger) && DistinctRequests(s.files.ledger.requests)
    ensures b.expectedRunRevision == run && b.expectedLedgerRevision == s.files.ledger.ledgerRevision
    ensures b.runId == s.files.ledger.runId && !DuplicateItems(b.items)
    ensures s.files.ledger.decisionHead == DecisionHead(s.files.decisions) && s.files.ledger.auditHead == AuditHead(s.files.events)
  {
    hide Accepts, BatchValid, SnapshotValid, LedgerValid, DecisionVerdictFor, ItemAdmitted;
    NewAdmission(h, s, b, resolved, run, at);
    AdmissionIsChecked(h, s, b, resolved, run, at);
    AcceptedParts(h, s.files);
    AcceptedBasics(h, s.files);
  }

  lemma {:induction false} NamedOnce(items: seq<DecisionItem>, id: string)
    requires !DuplicateItems(items)
    ensures forall i :: 0 <= i < |items| && items[i].requestId == id ==> id in DecisionMap(items) && DecisionMap(items)[id] == items[i].decision
    ensures (forall i :: 0 <= i < |items| ==> items[i].requestId != id) ==> id !in DecisionMap(items)
  {
    DecisionMapExact(items);
  }

  /** A committed decision keeps every request in place: those the batch names are decided as their item
      says, all others are as they were. */
  lemma {:induction false} DecisionChangesOnlyNamed(h: Hasher, s: State, b: DecisionBatch, resolved: Option<Snapshot>, run: int,
                                         at: Time, a: Admission, r: Request)
    requires Admits(h, s, b, resolved, run, at, a) && r in s.files.ledger.requests
    ensures var l' := DecisionFiles(h, a).ledger;
            && DistinctRequests(l'.requests) && |l'.requests| == |s.files.ledger.requests|
            && (forall i :: 0 <= i < |b.items| && b.items[i].requestId == r.requestId ==>
                  Decided(r, b.items[i], s.files.ledger.ledgerRevision + 1) in l'.requests)
            && ((forall i :: 0 <= i < |b.items| ==> b.items[i].requestId != r.requestId) ==> r in l'.requests)
  {
    hide Admits, Checked, LedgerValid, DuplicateItems, DistinctRequests, DecidedRequests, Index, DecisionRecordFor, AuditEventFor;
    AdmitsParts(h, s, b, resolved, run, at, a);
    var rs, d, rev := s.files.ledger.requests, DecisionMap(b.items), s.files.ledger.ledgerRevision + 1;
    DecidedIndexOf(h, a);
    DecidedShape(a);
    IndexExact(rs);
    IndexExact(DecidedRequests(a));
    NamedOnce(b.items, r.requestId);
    var q := DecideIfNamed(r, d, rev);
    assert Index(DecidedRequests(a))[r.requestId] == q;
    assert q in DecidedRequests(a);
  }

  /** The outcome the batch leads to: its items one revision on, who decided, between which revisions, what
      is left, and, when something was approved, that no executor is configured. */
  ghost predicate OutcomeOf(h: Hasher, s: State, b: DecisionBatch, snapshot: Snapshot, pending: nat, o: DecisionOutcome) {
    && o.kind == Committed && o.runId == b.runId && o.decisionId == b.decisionId && o.idempotencyKey == b.idempotencyKey
    && o.actorSha == h(ActorP(b.actor)) && o.snapshotSha == h(SnapshotP(snapshot)) && o.batchSha == h(DecisionBatchP(b))
    && o.previousRunRevision == b.expectedRunRevision && o.currentRunRevision == b.expectedRunRevision + 1
    && o.previousLedgerRevision == s.files.ledger.ledgerRevision && o.currentLedgerRevision == s.files.ledger.ledgerRevision + 1
    && |o.results| == |b.items|
    && (forall i :: 0 <= i < |b.items| ==>
          o.results[i] == DecisionResult(b.items[i].requestId, b.items[i].expectedRevision + 1, b.items[i].actionDigest,
                                         b.items[i].decision))
    && o.remainingPending == pending && o.committedAt == Some(b.decisionAt)
    && (if exists i :: 0 <= i < |b.items| && b.items[i].decision == Approve then
          && o.runStatus == Some(FailedWithLimitations)
          && o.limitation == Some(Limitation(ExternalExecutorUnavailable, b.runId, b.decisionId,
                                             h(IdempotencyReferenceP(b.idempotencyKey)), b.expectedRunRevision,
                                             s.files.ledger.ledgerRevision))
        else o.limitation == None && o.runStatus == Some(if pending == 0 then Completed else ApprovalRequired))
  }

  /** The record of the batch, chained to the last one. */
  ghost predicate RecordOf(h: Hasher, f: Files, b: DecisionBatch, snapshot: Snapshot, d: DecisionRecord) {
    && d.sequence == |f.decisions| + 1
    && d.previousSha == (if f.decisions == [] then None else Some(f.decisions[|f.decisions| - 1].recordSha))
    && d.runId == b.runId && d.decisionId == b.decisionId && d.idempotencyKey == b.idempotencyKey
    && d.batch == b && d.batchSha == h(DecisionBatchP(b)) && d.committedAt == b.decisionAt
    && d.snapshot == snapshot && d.snapshotSha == h(SnapshotP(snapshot)) && d.actorSha == h(ActorP(b.actor))
    && d.outcomeSha == h(DecisionOutcomeP(d.outcome)) && d.recordSha == h(DecisionRecordP(d.(recordSha := "")))
  }

  /** The audit event of that record, chained to the last one. */
  ghost predicate EventOf(h: Hasher, f: Files, b: DecisionBatch, d: DecisionRecord, e: AuditEvent) {
    && e.sequence == |f.events| + 1
    && e.previousSha == (if f.events == [] then None else Some(f.events[|f.events| - 1].eventSha))
    && e.runId == b.runId && e.runRevision == b.expectedRunRevision + 1 && e.ledgerRevision == f.ledger.ledgerRevision + 1
    && e.decisionId == b.decisionId && e.actorSha == d.actorSha && e.snapshotSha == d.snapshotSha
    && e.batchSha == d.batchSha && e.decisionRecordSha == d.recordSha && e.outcomeSha == d.outcomeSha
    && e.occurredAt == b.decisionAt && e.eventSha == h(AuditEventP(e.(eventSha := "")))
  }

  lemma {:induction false} OutcomeFromBatch(h: Hasher, a: Admission, pending: nat)
    requires a.actorSha == h(ActorP(a.batch.actor)) && a.batchSha == h(DecisionBatchP(a.batch))
    ensures OutcomeOf(h, a.state, a.batch, a.snapshot, pending, OutcomeFrom(h, a, BatchResults(a.batch.items), pending))
  {
    ApprovesSomething(a.batch.items);
  }

  lemma {:induction false} RecordFromOutcome(h: Hasher, a: Admission, o: DecisionOutcome)
    requires a.actorSha == h(ActorP(a.batch.actor)) && a.batchSha == h(DecisionBatchP(a.batch))
    requires a.state.files.ledger.decisionHead == DecisionHead(a.state.files.decisions)
    ensures RecordOf(h, a.state.files, a.batch, a.snapshot, RecordFrom(h, a, o)) && RecordFrom(h, a, o).outcome == o
  {
    var d := RecordFrom(h, a, o);
    assert d.(recordSha := "") == d.(recordSha := "").(recordSha := "");
  }

  lemma {:induction false} EventFromRecord(h: Hasher, a: Admission, o: DecisionOutcome)
    requires a.state.files.ledger.auditHead == AuditHead(a.state.files.events)
    requires o.currentRunRevision == a.batch.expectedRunRevision + 1
    ensures EventOf(h, a.state.files, a.batch, RecordFrom(h, a, o), EventFrom(h, a, RecordFrom(h, a, o)))
  {
    var e := EventFrom(h, a, RecordFrom(h, a, o));
    assert e.(eventSha := "") == e.(eventSha := "").(eventSha := "");
  }

  /** One record and one event are appended, chained to the last ones, and the ledger counts them. */
  lemma {:induction false} DecisionIsRecorded(h: Hasher, s: State, b: DecisionBatch, resolved: Option<Snapshot>, run: int,
                                   at: Time, a: Admission)
    requires Admits(h, s, b, resolved, run, at, a)
    ensures resolved.Some?
    ensures var f, f' := s.files, DecisionFiles(h, a);
            && f'.decisions != [] && f'.decisions[..|f'.decisions| - 1] == f.decisions
            && f'.events != [] && f'.events[..|f'.events| - 1] == f.events && f'.reissues == f.reissues
            && var d, e := f'.decisions[|f.decisions|], f'.events[|f.events|];
               && RecordOf(h, f, b, resolved.value, d) && EventOf(h, f, b, d, e)
               && OutcomeOf(h, s, b, resolved.value, |PendingIds(f'.ledger.requests)|, d.outcome)
               && f'.ledger == Ledger(f.ledger.runId, f.ledger.ledgerRevision + 1, f'.ledger.requests,
                                      |f.decisions| + 1, Some(d.recordSha), |f.events| + 1, Some(e.eventSha))
  {
    hide Admits, LedgerValid, DistinctRequests, DecidedRequests, ResultsFor, SortBy, Checked, RecordOf, EventOf, OutcomeOf,
         RecordFrom, EventFrom, PendingIds, PendingCount, DuplicateItems, Index, HasApproval, BatchResults;
    AdmitsParts(h, s, b, resolved, run, at, a);
    ResultsOfAdmission(h, a, at);
    DecidedIndexOf(h, a);
    RequestCardinalities(DecidedRequests(a));
    var o := DecisionOutcomeFor(h, a);
    OutcomeFromBatch(h, a, PendingCount(DecidedRequests(a)));
    RecordFromOutcome(h, a, o);
    OutcomeRevision(h, a.state, a.batch, a.snapshot, PendingCount(DecidedRequests(a)), o);
    EventFromRecord(h, a, o);
  }

  lemma {:induction false} OutcomeRevision(h: Hasher, s: State, b: DecisionBatch, snapshot: Snapshot, pending: nat, o: DecisionOutcome)
    requires OutcomeOf(h, s, b, snapshot, pending, o)
    ensures o.currentRunRevision == b.expectedRunRevision + 1
  {
  }

  lemma {:induction false} ApprovesSomething(items: seq<DecisionItem>)
    ensures HasApproval(BatchResults(items)) <==> exists i :: 0 <= i < |items| && items[i].decision == Approve
  {
    if i :| 0 <= i < |items| && items[i].decision == Approve {
      assert BatchResults(items)[i].decision == Approve;
    }
    if HasApproval(BatchResults(items)) {
      var i :| 0 <= i < |items| && BatchResults(items)[i].decision == Approve;
      assert items[i].decision == Approve;
    }
  }
}
