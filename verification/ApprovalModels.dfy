/** Approval records and the closed matrices their constructors enforce.

    A digest is a string produced by a hash function `h` that every member takes as a parameter.
    `h` is applied to a tagged preimage, one tag for each hash domain, so nothing is assumed of
    it: a result that needs collision freedom asks for `Injective(h)` in its own requires. */
module ApprovalModels {
  import opened Basics

  type Time = int
  type Sha = string

  const MAX_REQUESTS := 1024
  const MAX_ITEMS := 128
  const MAX_RECORDS := 1_000_000

  // ------------------------------------------------------------------ actors

  datatype Revocation = RevocationUnknown | NotRevoked | Revoked

  datatype Actor = Actor(
    actorId: string,
    authoritySource: string,
    scopes: seq<string>,
    verified: bool,
    verificationReference: Option<Sha>,
    verifiedAt: Option<Time>,
    authorityExpiresAt: Option<Time>,
    revocation: Revocation,
    otherReferences: string)

  predicate ActorValid(a: Actor) {
    && a.scopes != [] && Distinct(a.scopes) && IsSorted(a.scopes, StringLe)
    && if !a.verified then
         && a.authoritySource == "local_cli"
         && a.scopes == ["reject:any"]
         && a.verificationReference == None
         && a.verifiedAt == None
         && a.authorityExpiresAt == None
         && a.revocation == RevocationUnknown
       else
         && a.authoritySource != "local_cli"
         && a.verificationReference.Some?
         && a.verifiedAt.Some?
         && a.authorityExpiresAt.Some?
         && a.authorityExpiresAt.value > a.verifiedAt.value
         && a.revocation != RevocationUnknown
  }

  datatype Snapshot = Snapshot(
    providerId: string,
    providerVersion: string,
    resolvedAt: Time,
    actor: Actor,
    actorSha: Sha)

  predicate SnapshotValid(h: Hasher, s: Snapshot) {
    ActorValid(s.actor) && s.actorSha == h(ActorP(s.actor))
  }

  // ------------------------------------------------------------------ requests and the ledger

  /** `operands` stands for the plan's remaining fields, which the ledger carries and hashes only. */
  datatype ActionPlan = ActionPlan(
    category: string,
    executionId: string,
    expiresAt: Time,
    operands: string)

  datatype RequestState = Pending | Approved | Rejected | Superseded

  datatype Request = Request(
    requestId: string,
    requestRevision: int,
    ledgerRevision: int,
    createdRunRevision: int,
    stableProposalId: string,
    actionPlan: ActionPlan,
    actionDigest: Sha,
    display: string,
    requiredScope: string,
    createdAt: Time,
    expiresAt: Time,
    sourcePhaseId: string,
    sourceAttemptId: string,
    idempotencyKey: Sha,
    state: RequestState,
    supersessionReference: Option<string>)

  predicate RequestValid(h: Hasher, r: Request) {
    && r.requestRevision >= 1 && r.ledgerRevision >= 1 && r.createdRunRevision >= 1
    && r.actionDigest == h(ActionPlanP(r.actionPlan))
    && r.requiredScope == "approve:" + r.actionPlan.category
    && r.expiresAt == r.actionPlan.expiresAt && r.expiresAt > r.createdAt
    && (r.state == Superseded <==> r.supersessionReference.Some?)
    && r.supersessionReference != Some(r.requestId)
  }

  datatype Ledger = Ledger(
    runId: string,
    ledgerRevision: int,
    requests: seq<Request>,
    decisionCount: int,
    decisionHead: Option<Sha>,
    auditCount: int,
    auditHead: Option<Sha>)

  predicate RequestLe(a: Request, b: Request) {
    a.ledgerRevision < b.ledgerRevision
    || (a.ledgerRevision == b.ledgerRevision && StringLe(a.requestId, b.requestId))
  }

  predicate DistinctRequests(rs: seq<Request>) {
    forall i, j :: 0 <= i < j < |rs| ==>
      rs[i].requestId != rs[j].requestId && rs[i].idempotencyKey != rs[j].idempotencyKey
  }

  predicate LedgerValid(h: Hasher, l: Ledger) {
    && l.ledgerRevision >= 0
    && |l.requests| <= MAX_REQUESTS
    && (forall r :: r in l.requests ==> RequestValid(h, r))
    && 0 <= l.decisionCount <= MAX_RECORDS
    && 0 <= l.auditCount <= MAX_RECORDS
    && DistinctRequests(l.requests)
    && IsSorted(l.requests, RequestLe)
    && (forall r :: r in l.requests ==> r.ledgerRevision <= l.ledgerRevision)
    && (l.ledgerRevision == 0 ==> l.requests == [])
    && (l.decisionCount == 0 <==> l.decisionHead == None)
    && (l.auditCount == 0 <==> l.auditHead == None)
  }

  // ------------------------------------------------------------------ decisions

  datatype Decision = Approve | Reject {
    function AsState(): RequestState {
      if this == Approve then Approved else Rejected
    }
  }

  datatype DecisionItem = DecisionItem(
    requestId: string,
    expectedRevision: int,
    actionDigest: Sha,
    decision: Decision)

  datatype DecisionBatch = DecisionBatch(
    runId: string,
    expectedRunRevision: int,
    expectedLedgerRevision: int,
    actor: Actor,
    decisionId: string,
    idempotencyKey: string,
    items: seq<DecisionItem>,
    reason: string,
    decisionAt: Time)

  predicate ItemLe(a: DecisionItem, b: DecisionItem) {
    StringLe(a.requestId, b.requestId)
    && (a.requestId == b.requestId ==> a.decision == Approve || b.decision == Reject)
  }

  predicate BatchValid(b: DecisionBatch) {
    && b.expectedRunRevision >= 1 && b.expectedLedgerRevision >= 0
    && ActorValid(b.actor)
    && 1 <= |b.items| <= MAX_ITEMS
    && (forall i :: 0 <= i < |b.items| ==> b.items[i].expectedRevision >= 1)
    && IsSorted(b.items, ItemLe)
  }

  datatype FailureCode =
    | ApprovalUnknown | ApprovalDuplicate | ApprovalAlreadyDecided | ApprovalExpired
    | ActorSpoof | UnauthorizedDecision | AuthorityRevoked | StaleDecision
    | ApproveRejectConflict | IdempotencyConflict | ActionDigestMismatch | ResumeConflict
    | ExternalExecutorUnavailable | ReissueNotEligible | ReissueConflict

  datatype Limitation = Limitation(
    code: FailureCode,
    runId: string,
    decisionId: string,
    idempotencyKeyReference: Sha,
    observedRunRevision: int,
    observedLedgerRevision: int)

  datatype DecisionResult = DecisionResult(
    requestId: string,
    requestRevision: int,
    actionDigest: Sha,
    decision: Decision)

  datatype OutcomeKind = Committed | Failed
  datatype RunStatus = ApprovalRequired | Completed | FailedWithLimitations

  datatype DecisionOutcome = DecisionOutcome(
    kind: OutcomeKind,
    runId: string,
    decisionId: string,
    idempotencyKey: string,
    actorSha: Sha,
    snapshotSha: Sha,
    batchSha: Sha,
    previousRunRevision: int,
    currentRunRevision: int,
    previousLedgerRevision: int,
    currentLedgerRevision: int,
    results: seq<DecisionResult>,
    remainingPending: int,
    runStatus: Option<RunStatus>,
    limitation: Option<Limitation>,
    committedAt: Option<Time>)

  predicate ResultLe(a: DecisionResult, b: DecisionResult) {
    StringLe(a.requestId, b.requestId)
  }

  predicate DistinctResults(rs: seq<DecisionResult>) {
    forall i, j :: 0 <= i < j < |rs| ==> rs[i].requestId != rs[j].requestId
  }

  predicate HasApproval(rs: seq<DecisionResult>) {
    exists i :: 0 <= i < |rs| && rs[i].decision == Approve
  }

  predicate OutcomeValid(o: DecisionOutcome) {
    && o.previousRunRevision >= 1 && o.currentRunRevision >= 1
    && o.previousLedgerRevision >= 0 && o.currentLedgerRevision >= 0
    && |o.results| <= MAX_ITEMS
    && (forall i :: 0 <= i < |o.results| ==> o.results[i].requestRevision >= 1)
    && 0 <= o.remainingPending <= MAX_REQUESTS
    && DistinctResults(o.results)
    && IsSorted(o.results, ResultLe)
    && if o.kind == Committed then
         && o.results != []
         && o.currentRunRevision == o.previousRunRevision + 1
         && o.currentLedgerRevision == o.previousLedgerRevision + 1
         && o.committedAt.Some?
         && if HasApproval(o.results) then
              && o.runStatus == Some(FailedWithLimitations)
              && o.limitation.Some?
              && o.limitation.value.code == ExternalExecutorUnavailable
            else
              && o.runStatus == Some(if o.remainingPending != 0 then ApprovalRequired else Completed)
              && o.limitation == None
       else
         && o.results == []
         && o.remainingPending == 0
         && o.runStatus == None
         && o.limitation == None
         && o.currentRunRevision == o.previousRunRevision
         && o.currentLedgerRevision == o.previousLedgerRevision
         && o.committedAt == None
  }

  datatype DecisionRecord = DecisionRecord(
    sequence: int,
    previousSha: Option<Sha>,
    runId: string,
    decisionId: string,
    idempotencyKey: string,
    actorSha: Sha,
    snapshot: Snapshot,
    snapshotSha: Sha,
    batch: DecisionBatch,
    batchSha: Sha,
    outcome: DecisionOutcome,
    outcomeSha: Sha,
    committedAt: Time,
    recordSha: Sha)

  function DecisionRecordHash(h: Hasher, r: DecisionRecord): Sha {
    h(DecisionRecordP(r.(recordSha := "")))
  }

  predicate ItemMatches(i: DecisionItem, r: DecisionResult) {
    && r.requestId == i.requestId
    && r.requestRevision == i.expectedRevision + 1
    && r.actionDigest == i.actionDigest
    && r.decision == i.decision
  }

  predicate DecisionRecordValid(h: Hasher, r: DecisionRecord) {
    && r.sequence >= 1
    && BatchValid(r.batch) && SnapshotValid(h, r.snapshot) && OutcomeValid(r.outcome)
    && r.batchSha == h(DecisionBatchP(r.batch))
    && r.outcomeSha == h(DecisionOutcomeP(r.outcome))
    && r.batch.runId == r.runId
    && r.batch.decisionId == r.decisionId
    && r.batch.idempotencyKey == r.idempotencyKey
    && h(ActorP(r.batch.actor)) == r.actorSha
    && r.snapshot.actor == r.batch.actor
    && r.snapshot.actorSha == r.actorSha
    && h(SnapshotP(r.snapshot)) == r.snapshotSha
    && r.outcome.snapshotSha == r.snapshotSha
    && r.batch.expectedRunRevision == r.outcome.previousRunRevision
    && r.batch.expectedLedgerRevision == r.outcome.previousLedgerRevision
    && r.batch.decisionAt == r.committedAt
    && r.outcome.committedAt == Some(r.committedAt)
    && |r.batch.items| == |r.outcome.results|
    && (forall i :: 0 <= i < |r.batch.items| ==> ItemMatches(r.batch.items[i], r.outcome.results[i]))
    && r.outcome.runId == r.runId
    && r.outcome.decisionId == r.decisionId
    && r.outcome.idempotencyKey == r.idempotencyKey
    && r.outcome.actorSha == r.actorSha
    && r.outcome.batchSha == r.batchSha
    && r.recordSha == DecisionRecordHash(h, r)
    && (r.sequence == 1 <==> r.previousSha == None)
  }

  datatype AuditEvent = AuditEvent(
    sequence: int,
    previousSha: Option<Sha>,
    runId: string,
    runRevision: int,
    ledgerRevision: int,
    decisionId: string,
    actorSha: Sha,
    snapshotSha: Sha,
    batchSha: Sha,
    decisionRecordSha: Sha,
    outcomeSha: Sha,
    occurredAt: Time,
    eventSha: Sha)

  function AuditEventHash(h: Hasher, e: AuditEvent): Sha {
    h(AuditEventP(e.(eventSha := "")))
  }

  predicate AuditEventValid(h: Hasher, e: AuditEvent) {
    && e.sequence >= 1 && e.runRevision >= 1 && e.ledgerRevision >= 1
    && e.eventSha == AuditEventHash(h, e)
    && (e.sequence == 1 <==> e.previousSha == None)
  }

  // ------------------------------------------------------------------ reissues

  datatype V1Status = V1Pending | V1Approved | V1Rejected

  datatype V1Request = V1Request(
    approvalId: string,
    status: V1Status,
    createdAt: Time,
    decidedAt: Option<Time>,
    details: string)

  datatype V1Snapshot = V1Snapshot(
    request: V1Request,
    runId: string,
    approvalId: string,
    requestSha: Sha,
    status: V1Status)

  predicate V1SnapshotValid(h: Hasher, s: V1Snapshot) {
    && s.approvalId == s.request.approvalId
    && s.status == s.request.status
    && s.requestSha == h(V1RequestP(s.request))
  }

  datatype SourceKind = HistoricalV1 | ApprovalV2

  datatype Successor = Successor(
    stableProposalId: string,
    actionPlan: ActionPlan,
    display: string,
    sourcePhaseId: string,
    sourceAttemptId: string)

  datatype ReissueItem = ReissueItem(
    kind: SourceKind,
    sourceId: string,
    expectedRevision: Option<int>,
    sourceDigest: Option<Sha>,
    successor: Successor)

  predicate ReissueItemValid(i: ReissueItem) {
    && (i.expectedRevision.Some? ==> i.expectedRevision.value >= 1)
    && if i.kind == HistoricalV1 then i.expectedRevision == None && i.sourceDigest == None
       else i.expectedRevision.Some? && i.sourceDigest.Some?
  }

  datatype ReissueBatch = ReissueBatch(
    runId: string,
    expectedRunRevision: int,
    expectedLedgerRevision: int,
    reissueId: string,
    idempotencyKey: string,
    items: seq<ReissueItem>,
    reason: string,
    reissuedAt: Time)

  predicate ReissueBatchValid(b: ReissueBatch) {
    && b.expectedRunRevision >= 1 && b.expectedLedgerRevision >= 0
    && 1 <= |b.items| <= MAX_ITEMS
    && (forall i :: 0 <= i < |b.items| ==> ReissueItemValid(b.items[i]))
    && (forall i, j :: 0 <= i < j < |b.items| ==>
          b.items[i].sourceId != b.items[j].sourceId && StringLe(b.items[i].sourceId, b.items[j].sourceId))
  }

  datatype SourceBinding = SourceBinding(
    kind: SourceKind,
    sourceId: string,
    sourceRevision: Option<int>,
    sourceLedgerRevision: Option<int>,
    sourceDigest: Option<Sha>,
    sourceSha: Sha,
    snapshot: Option<V1Snapshot>)

  predicate SourceBindingValid(h: Hasher, s: SourceBinding) {
    && (s.sourceRevision.Some? ==> s.sourceRevision.value >= 1)
    && (s.sourceLedgerRevision.Some? ==> s.sourceLedgerRevision.value >= 1)
    && if s.kind == HistoricalV1 then
         && s.sourceRevision == None && s.sourceLedgerRevision == None && s.sourceDigest == None
         && s.snapshot.Some? && V1SnapshotValid(h, s.snapshot.value)
         && s.snapshot.value.request.approvalId == s.sourceId
         && s.snapshot.value.requestSha == s.sourceSha
       else
         && s.sourceRevision.Some? && s.sourceLedgerRevision.Some? && s.sourceDigest.Some?
         && s.snapshot == None
  }

  datatype ReissueResult = ReissueResult(
    source: SourceBinding,
    successorId: string,
    successorRevision: int,
    successorLedgerRevision: int,
    successorCreatedRunRevision: int,
    successorDigest: Sha,
    successorSha: Sha)

  predicate ReissueResultValid(h: Hasher, r: ReissueResult) {
    && SourceBindingValid(h, r.source)
    && r.successorRevision >= 1 && r.successorLedgerRevision >= 1 && r.successorCreatedRunRevision >= 2
  }

  predicate ReissueResultLe(a: ReissueResult, b: ReissueResult) {
    StringLe(a.source.sourceId, b.source.sourceId)
  }

  datatype ReissueOutcome = ReissueOutcome(
    runId: string,
    reissueId: string,
    idempotencyKey: string,
    batchSha: Sha,
    previousRunRevision: int,
    currentRunRevision: int,
    previousLedgerRevision: int,
    currentLedgerRevision: int,
    results: seq<ReissueResult>,
    remainingPending: int,
    committedAt: Time)

  predicate ReissueOutcomeValid(h: Hasher, o: ReissueOutcome) {
    && o.previousRunRevision >= 1 && o.previousLedgerRevision >= 0
    && 1 <= |o.results| <= MAX_ITEMS
    && (forall r :: r in o.results ==> ReissueResultValid(h, r))
    && 1 <= o.remainingPending <= MAX_REQUESTS
    && (forall i, j :: 0 <= i < j < |o.results| ==>
          && o.results[i].source.sourceId != o.results[j].source.sourceId
          && StringLe(o.results[i].source.sourceId, o.results[j].source.sourceId))
    && o.currentRunRevision == o.previousRunRevision + 1
    && o.currentLedgerRevision == o.previousLedgerRevision + |o.results|
  }

  datatype ReissueRecord = ReissueRecord(
    sequence: int,
    previousSha: Option<Sha>,
    runId: string,
    reissueId: string,
    idempotencyKey: string,
    batch: ReissueBatch,
    batchSha: Sha,
    previousManifestSha: Sha,
    previousPointerSha: Sha,
    previousLedgerSha: Option<Sha>,
    legacyProjection: seq<V1Snapshot>,
    outcome: ReissueOutcome,
    outcomeSha: Sha,
    currentLedgerSha: Sha,
    committedAt: Time,
    recordSha: Sha)

  function ReissueRecordHash(h: Hasher, r: ReissueRecord): Sha {
    h(ReissueRecordP(r.(recordSha := "")))
  }

  predicate ReissueRecordValid(h: Hasher, r: ReissueRecord) {
    && r.sequence >= 1
    && ReissueBatchValid(r.batch) && ReissueOutcomeValid(h, r.outcome)
    && |r.legacyProjection| <= MAX_REQUESTS
    && (forall s :: s in r.legacyProjection ==> V1SnapshotValid(h, s))
    && (forall i, j :: 0 <= i < j < |r.legacyProjection| ==>
          && r.legacyProjection[i].request.approvalId != r.legacyProjection[j].request.approvalId
          && StringLe(r.legacyProjection[i].request.approvalId, r.legacyProjection[j].request.approvalId))
    && r.batchSha == h(ReissueBatchP(r.batch))
    && r.outcomeSha == h(ReissueOutcomeP(r.outcome))
    && r.recordSha == ReissueRecordHash(h, r)
    && r.batch.runId == r.runId
    && r.batch.reissueId == r.reissueId
    && r.batch.idempotencyKey == r.idempotencyKey
    && r.outcome.runId == r.runId
    && r.outcome.reissueId == r.reissueId
    && r.outcome.idempotencyKey == r.idempotencyKey
    && r.outcome.batchSha == r.batchSha
    && r.batch.expectedRunRevision == r.outcome.previousRunRevision
    && r.batch.expectedLedgerRevision == r.outcome.previousLedgerRevision
    && r.batch.reissuedAt == r.committedAt
    && r.outcome.committedAt == r.committedAt
    && (r.legacyProjection != [] <==> r.previousLedgerSha == None)
    && (r.sequence == 1 <==> r.previousSha == None)
  }

  // ------------------------------------------------------------------ hashing

  /** What is hashed: the constructor plays the part of the hash domain. Records and events are
      hashed with their own digest field blanked. */
  datatype Preimage =
    | ActionPlanP(plan: ActionPlan)
    | RequestP(request: Request)
    | RequestKeyP(runId: string, phaseId: string, stableProposalId: string, category: string, digest: Sha)
    | ActorP(actor: Actor)
    | SnapshotP(snapshot: Snapshot)
    | DecisionBatchP(batch: DecisionBatch)
    | DecisionOutcomeP(outcome: DecisionOutcome)
    | DecisionRecordP(record: DecisionRecord)
    | AuditEventP(event: AuditEvent)
    | LedgerP(ledger: Ledger)
    | ReissueBatchP(reissueBatch: ReissueBatch)
    | ReissueOutcomeP(reissueOutcome: ReissueOutcome)
    | ReissueRecordP(reissueRecord: ReissueRecord)
    | V1RequestP(v1Request: V1Request)
    | IdempotencyReferenceP(key: string)
    | RecheckBindingP(binding: RecheckBinding)

  type Hasher = Preimage -> Sha

  ghost predicate Injective(h: Hasher) {
    forall a, b :: h(a) == h(b) ==> a == b
  }

  // ------------------------------------------------------------------ execution recheck

  datatype RecheckBinding = RecheckBinding(
    runId: string,
    runRevision: int,
    pointerSha: Sha,
    manifestSha: Sha,
    ledgerSha: Sha,
    requestId: string,
    requestRevision: int,
    actionDigest: Sha,
    executionId: string,
    decisionId: string,
    decisionRecordSha: Sha,
    decisionOutcomeSha: Sha,
    actorSha: Sha,
    snapshotSha: Sha,
    providerId: string,
    providerVersion: string,
    recheckedAt: Time,
    validUntil: Time,
    bindingSha: Sha)

  predicate RecheckBindingValid(h: Hasher, b: RecheckBinding) {
    && b.runRevision >= 1
    && b.requestRevision >= 2
    && b.recheckedAt < b.validUntil
    && b.bindingSha == h(RecheckBindingP(b.(bindingSha := "")))
  }

  // ------------------------------------------------------------------ the parsed state

  /** The four artifacts of the authoritative state: ledger, decision log, audit log, reissue log. */
  datatype Files = Files(
    ledger: Ledger,
    decisions: seq<DecisionRecord>,
    events: seq<AuditEvent>,
    reissues: seq<ReissueRecord>)

  predicate ModelsValid(h: Hasher, f: Files) {
    && LedgerValid(h, f.ledger)
    && (forall r :: r in f.decisions ==> DecisionRecordValid(h, r))
    && (forall e :: e in f.events ==> AuditEventValid(h, e))
    && (forall r :: r in f.reissues ==> ReissueRecordValid(h, r))
  }
}
