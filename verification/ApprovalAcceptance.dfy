/** What the reader's acceptance says of every artifact, spelled out. */
module ApprovalAcceptance {
  import opened Basics
  import opened ApprovalModels
  import opened ApprovalReader
  import opened ApprovalProjection
  import opened ApprovalIndex
  import opened ApprovalConservation

  // ------------------------------------------------------------------ actors and requests

  /** Scopes in strict order; an unverified actor may only reject, a verified one carries its verification. */
  ghost predicate ActorIs(a: Actor) {
    && a.scopes != [] && (forall i, j :: 0 <= i < j < |a.scopes| ==> Precedes(a.scopes[i], a.scopes[j]))
    && (!a.verified ==>
          && a.authoritySource == "local_cli" && a.scopes == ["reject:any"]
          && a.verificationReference == None && a.verifiedAt == None && a.authorityExpiresAt == None
          && a.revocation == RevocationUnknown)
    && (a.verified ==>
          && a.authoritySource != "local_cli" && a.verificationReference.Some? && a.verifiedAt.Some?
          && a.authorityExpiresAt.Some? && a.verifiedAt.value < a.authorityExpiresAt.value
          && (a.revocation == NotRevoked || a.revocation == Revoked))
  }

  lemma {:induction false} ValidActorIs(a: Actor)
    ensures ActorValid(a) <==> ActorIs(a)
  {
    if ActorValid(a) {
      forall i, j | 0 <= i < j < |a.scopes| ensures Precedes(a.scopes[i], a.scopes[j]) {
        assert StringLe(a.scopes[i], a.scopes[j]);
        StringLeExact(a.scopes[i], a.scopes[j]);
      }
    }
    if ActorIs(a) {
      forall i, j | 0 <= i < j < |a.scopes|
        ensures StringLe(a.scopes[i], a.scopes[j]) && a.scopes[i] != a.scopes[j]
      {
        assert Precedes(a.scopes[i], a.scopes[j]);
        StringLeExact(a.scopes[i], a.scopes[j]);
        PrecedesApart(a.scopes[i], a.scopes[j]);
      }
    }
  }

  lemma {:induction false} PrecedesApart(a: string, b: string)
    requires Precedes(a, b)
    ensures a != b
  {
  }

  /** A request is about its plan: digest, scope and expiry follow from it. */
  ghost predicate RequestIs(h: Hasher, l: Ledger, r: Request) {
    && 1 <= r.requestRevision && 1 <= r.ledgerRevision <= l.ledgerRevision && 1 <= r.createdRunRevision
    && r.actionDigest == h(ActionPlanP(r.actionPlan)) && r.requiredScope == "approve:" + r.actionPlan.category
    && r.createdAt < r.expiresAt == r.actionPlan.expiresAt
    && (r.supersessionReference.Some? <==> r.state == Superseded) && r.supersessionReference != Some(r.requestId)
  }

  /** The ledger lists distinct requests by revision and name, and counts both logs. */
  ghost predicate LedgerIs(h: Hasher, f: Files) {
    var l := f.ledger;
    && (forall r :: r in l.requests ==> RequestIs(h, l, r))
    && |l.requests| <= 1024
    && (forall i, j :: 0 <= i < j < |l.requests| ==>
          && l.requests[i].requestId != l.requests[j].requestId
          && l.requests[i].idempotencyKey != l.requests[j].idempotencyKey
          && (l.requests[i].ledgerRevision < l.requests[j].ledgerRevision
              || (l.requests[i].ledgerRevision == l.requests[j].ledgerRevision
                  && Precedes(l.requests[i].requestId, l.requests[j].requestId))))
    && l.ledgerRevision == |l.requests| + |f.decisions|
    && l.decisionCount == |f.decisions| <= 1_000_000 && l.auditCount == |f.events| == |f.decisions|
    && l.decisionHead == (if f.decisions == [] then None else Some(f.decisions[|f.decisions| - 1].recordSha))
    && l.auditHead == (if f.events == [] then None else Some(f.events[|f.events| - 1].eventSha))
  }

  lemma {:induction false} ValidRequestIs(h: Hasher, l: Ledger, r: Request)
    requires LedgerValid(h, l) && r in l.requests
    ensures RequestIs(h, l, r)
  {
    assert RequestValid(h, r);
  }

  lemma {:induction false} RequestsOrdered(h: Hasher, l: Ledger, i: nat, j: nat)
    requires LedgerValid(h, l) && i < j < |l.requests|
    ensures l.requests[i].requestId != l.requests[j].requestId && l.requests[i].idempotencyKey != l.requests[j].idempotencyKey
    ensures l.requests[i].ledgerRevision < l.requests[j].ledgerRevision
            || (l.requests[i].ledgerRevision == l.requests[j].ledgerRevision
                && Precedes(l.requests[i].requestId, l.requests[j].requestId))
  {
    assert RequestLe(l.requests[i], l.requests[j]);
    StringLeExact(l.requests[i].requestId, l.requests[j].requestId);
  }

  lemma {:induction false} AcceptedLedgerIs(h: Hasher, f: Files)
    requires Accepts(h, f)
    ensures LedgerIs(h, f)
  {
    AcceptedParts(h, f);
    LedgerCounts(h, f);
    hide Accepts, LedgerValid, RequestIs;
    var l := f.ledger;
    forall r | r in l.requests ensures RequestIs(h, l, r) { ValidRequestIs(h, l, r); }
    forall i, j | 0 <= i < j < |l.requests|
      ensures l.requests[i].requestId != l.requests[j].requestId && l.requests[i].idempotencyKey != l.requests[j].idempotencyKey
      ensures l.requests[i].ledgerRevision < l.requests[j].ledgerRevision
              || (l.requests[i].ledgerRevision == l.requests[j].ledgerRevision
                  && Precedes(l.requests[i].requestId, l.requests[j].requestId))
    {
      RequestsOrdered(h, l, i, j);
    }
  }

  lemma {:induction false} LedgerCounts(h: Hasher, f: Files)
    requires Accepts(h, f)
    ensures var l := f.ledger;
            && |l.requests| <= 1024
            && l.decisionCount == |f.decisions| <= 1_000_000 && l.auditCount == |f.events| == |f.decisions|
            && l.decisionHead == (if f.decisions == [] then None else Some(f.decisions[|f.decisions| - 1].recordSha))
            && l.auditHead == (if f.events == [] then None else Some(f.events[|f.events| - 1].eventSha))
  {
    hide TimelineOk, ProjectionOk, ReissueChainOk, DecisionRecordValid, RequestValid;
  }

  // ------------------------------------------------------------------ decisions

  /** The `k`-th decision record: chained, about its own batch, decided by the actor the provider answered with. */
  ghost predicate DecisionIs(h: Hasher, f: Files, k: nat)
    requires k < |f.decisions|
  {
    var d := f.decisions[k];
    var b, s := d.batch, d.snapshot;
    && d.sequence == k + 1 && d.previousSha == (if k == 0 then None else Some(f.decisions[k - 1].recordSha))
    && d.runId == f.ledger.runId == b.runId && d.decisionId == b.decisionId && d.idempotencyKey == b.idempotencyKey
    && d.batchSha == h(DecisionBatchP(b)) && d.committedAt == b.decisionAt
    && ActorIs(b.actor) && s.actor == b.actor && s.actorSha == d.actorSha == h(ActorP(b.actor))
    && d.snapshotSha == h(SnapshotP(s))
    && d.outcomeSha == h(DecisionOutcomeP(d.outcome)) && d.recordSha == h(DecisionRecordP(d.(recordSha := "")))
    && 1 <= b.expectedRunRevision && 0 <= b.expectedLedgerRevision && 1 <= |b.items| <= 128
    && (forall i :: 0 <= i < |b.items| ==> 1 <= b.items[i].expectedRevision)
    && (forall i, j :: 0 <= i < j < |b.items| ==> Precedes(b.items[i].requestId, b.items[j].requestId))
  }

  /** Its outcome: committed, for the same batch and actor, one run and one ledger revision on, the items item by item. */
  ghost predicate OutcomeIs(h: Hasher, f: Files, k: nat)
    requires k < |f.decisions|
  {
    var d, o, b := f.decisions[k], f.decisions[k].outcome, f.decisions[k].batch;
    && o.kind == Committed && o.runId == d.runId && o.decisionId == d.decisionId && o.idempotencyKey == d.idempotencyKey
    && o.actorSha == d.actorSha && o.snapshotSha == d.snapshotSha && o.batchSha == d.batchSha
    && o.previousRunRevision == b.expectedRunRevision && o.currentRunRevision == b.expectedRunRevision + 1
    && o.previousLedgerRevision == b.expectedLedgerRevision && o.currentLedgerRevision == b.expectedLedgerRevision + 1
    && o.currentLedgerRevision <= f.ledger.ledgerRevision && o.committedAt == Some(d.committedAt)
    && |o.results| == |b.items|
    && (forall i :: 0 <= i < |b.items| ==>
          o.results[i] == DecisionResult(b.items[i].requestId, b.items[i].expectedRevision + 1, b.items[i].actionDigest,
                                         b.items[i].decision))
    && 0 <= o.remainingPending <= 1024
    && (if exists i :: 0 <= i < |b.items| && b.items[i].decision == Approve then
          && o.runStatus == Some(FailedWithLimitations) && o.limitation.Some?
          && o.limitation.value.code == ExternalExecutorUnavailable
        else o.limitation == None && o.runStatus == Some(if o.remainingPending == 0 then Completed else ApprovalRequired))
  }

  lemma {:induction false} BatchIs(b: DecisionBatch, results: seq<DecisionResult>)
    requires BatchValid(b) && |results| == |b.items| && DistinctResults(results)
    requires forall i :: 0 <= i < |b.items| ==> ItemMatches(b.items[i], results[i])
    ensures ActorIs(b.actor) && 1 <= b.expectedRunRevision && 0 <= b.expectedLedgerRevision && 1 <= |b.items| <= 128
    ensures forall i :: 0 <= i < |b.items| ==> 1 <= b.items[i].expectedRevision
    ensures forall i, j :: 0 <= i < j < |b.items| ==> Precedes(b.items[i].requestId, b.items[j].requestId)
    ensures HasApproval(results) <==> exists i :: 0 <= i < |b.items| && b.items[i].decision == Approve
  {
    ValidActorIs(b.actor);
    forall i, j | 0 <= i < j < |b.items|
      ensures Precedes(b.items[i].requestId, b.items[j].requestId)
    {
      assert ItemLe(b.items[i], b.items[j]);
      assert ItemMatches(b.items[i], results[i]) && ItemMatches(b.items[j], results[j]);
      StringLeExact(b.items[i].requestId, b.items[j].requestId);
    }
    if HasApproval(results) {
      var i :| 0 <= i < |results| && results[i].decision == Approve;
      assert ItemMatches(b.items[i], results[i]);
    }
    if i :| 0 <= i < |b.items| && b.items[i].decision == Approve {
      assert ItemMatches(b.items[i], results[i]);
    }
  }

  lemma {:induction false} DecisionParts(h: Hasher, f: Files, k: nat)
    requires Accepts(h, f) && k < |f.decisions|
    ensures DecisionRecordValid(h, f.decisions[k]) && DecisionLinked(f.ledger, f.decisions, k)
    ensures DecisionHead(f.decisions[..k]) == if k == 0 then None else Some(f.decisions[k - 1].recordSha)
  {
    hide TimelineOk, ProjectionOk, ReissueChainOk, LedgerValid, AuditChainOk;
    assert f.decisions[k] in f.decisions;
  }

  /** Every accepted decision record and its outcome have this form. */
  lemma {:induction false} AcceptedDecisionIs(h: Hasher, f: Files, k: nat)
    requires Accepts(h, f) && k < |f.decisions|
    ensures DecisionIs(h, f, k) && OutcomeIs(h, f, k)
  {
    hide Accepts, BatchValid, ActorIs, DistinctResults, IsSorted, HasApproval;
    DecisionParts(h, f, k);
    var d := f.decisions[k];
    BatchIs(d.batch, d.outcome.results);
    assert forall i :: 0 <= i < |d.batch.items| ==> ItemMatches(d.batch.items[i], d.outcome.results[i]);
  }

  /** Decisions follow one another: no identifier or key twice, no revision and no clock goes back. */
  lemma {:induction false} AcceptedDecisionsFollow(h: Hasher, f: Files, i: nat, j: nat)
    requires Accepts(h, f) && i < j < |f.decisions|
    ensures f.decisions[i].decisionId != f.decisions[j].decisionId && f.decisions[i].idempotencyKey != f.decisions[j].idempotencyKey
    ensures j == i + 1 ==>
              && f.decisions[i].committedAt <= f.decisions[j].committedAt
              && f.decisions[i].outcome.currentRunRevision <= f.decisions[j].outcome.previousRunRevision
              && f.decisions[i].outcome.currentLedgerRevision <= f.decisions[j].outcome.previousLedgerRevision
  {
    hide ModelsValid, TimelineOk, ProjectionOk, ReissueChainOk, AuditChainOk;
    if j == i + 1 { assert DecisionFollows(f.decisions[j - 1], f.decisions[j]); }
  }

  /** The `k`-th audit event repeats the `k`-th record. */
  lemma {:induction false} AcceptedEventIs(h: Hasher, f: Files, k: nat)
    requires Accepts(h, f) && k < |f.decisions|
    ensures |f.events| == |f.decisions|
    ensures var d, e := f.decisions[k], f.events[k];
            && e == AuditEvent(k + 1, if k == 0 then None else Some(f.events[k - 1].eventSha), f.ledger.runId,
                               d.outcome.currentRunRevision, d.outcome.currentLedgerRevision, d.decisionId, d.actorSha,
                               d.snapshotSha, d.batchSha, d.recordSha, d.outcomeSha, d.committedAt, e.eventSha)
            && e.eventSha == h(AuditEventP(e.(eventSha := "")))
            && 1 <= e.runRevision && 1 <= e.ledgerRevision
  {
    hide TimelineOk, ProjectionOk, ReissueChainOk, LedgerValid, DecisionRecordValid;
    assert f.events[k] in f.events && AuditEventValid(h, f.events[k]);
    assert EventLinked(f.ledger, f.decisions, f.events, k);
  }

  /** A decided request is in the ledger as its one result says. */
  lemma {:induction false} AcceptedResultShows(h: Hasher, f: Files, k: nat, i: nat) returns (r: Request)
    requires Accepts(h, f) && k < |f.decisions| && i < |f.decisions[k].outcome.results|
    ensures var x := f.decisions[k].outcome.results[i];
            && r in f.ledger.requests && r.requestId == x.requestId
            && r.requestRevision == x.requestRevision && r.actionDigest == x.actionDigest
            && r.state == if x.decision == Approve then Approved else Rejected
  {
    hide ModelsValid, TimelineOk, ReissueChainOk, AuditChainOk, DecisionChainOk;
    var x, flat := f.decisions[k].outcome.results[i], DecisionResults(f.decisions);
    assert x in DecisionResultsOf(f.decisions[k]);
    FlatMapMember(DecisionResultsOf, f.decisions, x);
    var n :| 0 <= n < |flat| && flat[n] == x;
    assert DecisionProjected(Index(f.ledger.requests), flat[n]);
    IndexSound(f.ledger.requests, x.requestId);
    r := Index(f.ledger.requests)[x.requestId];
  }

  // ------------------------------------------------------------------ reissues

  /** The `k`-th reissue record: chained, about its own batch, its sources in strict order. */
  ghost predicate ReissueIs(h: Hasher, f: Files, k: nat)
    requires k < |f.reissues|
  {
    var d := f.reissues[k];
    var b, o := d.batch, d.outcome;
    && d.sequence == k + 1 && d.previousSha == (if k == 0 then None else Some(f.reissues[k - 1].recordSha))
    && d.runId == f.ledger.runId == b.runId && d.reissueId == b.reissueId && d.idempotencyKey == b.idempotencyKey
    && d.batchSha == h(ReissueBatchP(b)) && d.committedAt == b.reissuedAt
    && d.outcomeSha == h(ReissueOutcomeP(o)) && d.recordSha == h(ReissueRecordP(d.(recordSha := "")))
    && 1 <= b.expectedRunRevision && 0 <= b.expectedLedgerRevision && 1 <= |b.items| <= 128
    && (forall i, j :: 0 <= i < j < |b.items| ==> Precedes(b.items[i].sourceId, b.items[j].sourceId))
    && o.runId == d.runId && o.reissueId == d.reissueId && o.idempotencyKey == d.idempotencyKey && o.batchSha == d.batchSha
    && o.previousRunRevision == b.expectedRunRevision && o.currentRunRevision == b.expectedRunRevision + 1
    && o.previousLedgerRevision == b.expectedLedgerRevision && o.currentLedgerRevision == b.expectedLedgerRevision + |b.items|
    && o.currentLedgerRevision <= f.ledger.ledgerRevision && |o.results| == |b.items|
    && 1 <= o.remainingPending <= 1024 && o.committedAt == d.committedAt
    && (o.currentLedgerRevision == f.ledger.ledgerRevision ==> d.currentLedgerSha == h(LedgerP(f.ledger)))
  }

  /** Only the first record may come from V1 history, and then it carries all of it and every item is historical. */
  ghost predicate HistoryIs(h: Hasher, f: Files, k: nat)
    requires k < |f.reissues|
  {
    var d := f.reissues[k];
    && (d.legacyProjection != [] <==> d.previousLedgerSha == None) && |d.legacyProjection| <= 1024
    && (d.legacyProjection != [] ==> k == 0)
    && (forall i :: 0 <= i < |d.batch.items| ==>
          var item := d.batch.items[i];
          if d.legacyProjection != [] then item.kind == HistoricalV1 && item.expectedRevision == None && item.sourceDigest == None
          else item.kind == ApprovalV2 && item.expectedRevision.Some? && 1 <= item.expectedRevision.value && item.sourceDigest.Some?)
    && (forall i :: 0 <= i < |d.legacyProjection| ==>
          var s := d.legacyProjection[i];
          s.approvalId == s.request.approvalId && s.status == s.request.status && s.requestSha == h(V1RequestP(s.request)))
    && (forall i, j :: 0 <= i < j < |d.legacyProjection| ==>
          Precedes(d.legacyProjection[i].request.approvalId, d.legacyProjection[j].request.approvalId))
  }

  lemma {:induction false} ReissueParts(h: Hasher, f: Files, k: nat)
    requires Accepts(h, f) && k < |f.reissues|
    ensures ReissueRecordValid(h, f.reissues[k]) && ReissueLinked(h, f.ledger, f.reissues, k)
    ensures ReissueHead(f.reissues[..k]) == if k == 0 then None else Some(f.reissues[k - 1].recordSha)
    ensures ReissueProjected(h, f.ledger.runId, Index(f.ledger.requests), f.reissues[k])
  {
    hide TimelineOk, DecisionChainOk, LedgerValid, AuditChainOk, DecisionRecordValid;
    assert f.reissues[k] in f.reissues;
  }

  lemma {:induction false} AcceptedReissueIs(h: Hasher, f: Files, k: nat)
    requires Accepts(h, f) && k < |f.reissues|
    ensures ReissueIs(h, f, k) && HistoryIs(h, f, k)
  {
    ReissueParts(h, f, k);
    hide Accepts, PairProjected, V1SnapshotValid, ReissueResultValid, SomeHistorical, AllHistorical;
    var d := f.reissues[k];
    forall i, j | 0 <= i < j < |d.batch.items| ensures Precedes(d.batch.items[i].sourceId, d.batch.items[j].sourceId) {
      StringLeExact(d.batch.items[i].sourceId, d.batch.items[j].sourceId);
    }
    RecordHistoryIs(h, f, k);
  }

  lemma {:induction false} RecordHistoryIs(h: Hasher, f: Files, k: nat)
    requires k < |f.reissues| && ReissueRecordValid(h, f.reissues[k]) && ReissueLinked(h, f.ledger, f.reissues, k)
    ensures HistoryIs(h, f, k)
  {
    var d := f.reissues[k];
    forall i, j | 0 <= i < j < |d.legacyProjection|
      ensures Precedes(d.legacyProjection[i].request.approvalId, d.legacyProjection[j].request.approvalId)
    {
      StringLeExact(d.legacyProjection[i].request.approvalId, d.legacyProjection[j].request.approvalId);
    }
    forall i | 0 <= i < |d.batch.items|
      ensures ReissueItemValid(d.batch.items[i])
      ensures if d.legacyProjection != [] then d.batch.items[i].kind == HistoricalV1 else d.batch.items[i].kind == ApprovalV2
    {
      assert d.legacyProjection == [] ==> !SomeHistorical(d.batch);
    }
    forall i | 0 <= i < |d.legacyProjection| ensures V1SnapshotValid(h, d.legacyProjection[i]) {
      assert d.legacyProjection[i] in d.legacyProjection;
    }
  }

  lemma {:induction false} AcceptedReissuesFollow(h: Hasher, f: Files, i: nat, j: nat)
    requires Accepts(h, f) && i < j < |f.reissues|
    ensures f.reissues[i].reissueId != f.reissues[j].reissueId && f.reissues[i].idempotencyKey != f.reissues[j].idempotencyKey
    ensures j == i + 1 ==> f.reissues[i].committedAt <= f.reissues[j].committedAt
  {
    hide ModelsValid, TimelineOk, ProjectionOk, DecisionChainOk, AuditChainOk;
    if j == i + 1 { assert f.reissues[j - 1].committedAt <= f.reissues[j].committedAt; }
  }

  /** The request as it was recorded: pending, at the recorded revisions. */
  function RecordedAs(r: Request, revision: int, ledgerRevision: int): Request {
    Request(r.requestId, revision, ledgerRevision, r.createdRunRevision, r.stableProposalId, r.actionPlan, r.actionDigest, r.display,
            r.requiredScope, r.createdAt, r.expiresAt, r.sourcePhaseId, r.sourceAttemptId, r.idempotencyKey, Pending, None)
  }

  /** Each result: the successor is in the ledger and is, but for what happened to it since, the one recorded. */
  lemma {:induction false} AcceptedSuccessorShows(h: Hasher, f: Files, k: nat, i: nat) returns (s: Request)
    requires Accepts(h, f) && k < |f.reissues| && i < |f.reissues[k].outcome.results|
    ensures var x := f.reissues[k].outcome.results[i];
            && |f.reissues[k].batch.items| == |f.reissues[k].outcome.results|
            && x.source.sourceId == f.reissues[k].batch.items[i].sourceId && x.source.kind == f.reissues[k].batch.items[i].kind
            && s in f.ledger.requests && s.requestId == x.successorId
            && 1 <= x.successorRevision <= s.requestRevision && 1 <= x.successorLedgerRevision <= s.ledgerRevision
            && 2 <= x.successorCreatedRunRevision == s.createdRunRevision && x.successorDigest == s.actionDigest
            && x.successorSha == h(RequestP(RecordedAs(s, x.successorRevision, x.successorLedgerRevision)))
  {
    ReissueParts(h, f, k);
    var d := f.reissues[k];
    hide Accepts, SourceProjected;
    assert PairProjected(h, f.ledger.runId, Index(f.ledger.requests), d.legacyProjection, d.batch.items[i], d.outcome.results[i]);
    assert d.outcome.results[i] in d.outcome.results && ReissueResultValid(h, d.outcome.results[i]);
    IndexSound(f.ledger.requests, d.outcome.results[i].successorId);
    s := Index(f.ledger.requests)[d.outcome.results[i].successorId];
    assert AsPending(s, d.outcome.results[i].successorRevision, d.outcome.results[i].successorLedgerRevision)
        == RecordedAs(s, d.outcome.results[i].successorRevision, d.outcome.results[i].successorLedgerRevision);
  }

  /** And a V2 source is superseded by that successor, one revision after the one recorded. */
  lemma {:induction false} AcceptedSourceShows(h: Hasher, f: Files, k: nat, i: nat) returns (r: Request)
    requires Accepts(h, f) && k < |f.reissues| && i < |f.reissues[k].outcome.results|
    requires f.reissues[k].outcome.results[i].source.kind == ApprovalV2
    ensures var x := f.reissues[k].outcome.results[i];
            && x.source.sourceRevision.Some? && x.source.sourceLedgerRevision.Some? && x.source.snapshot == None
            && r in f.ledger.requests && r.requestId == x.source.sourceId && r.state == Superseded
            && r.requestRevision == x.source.sourceRevision.value + 1 && x.source.sourceDigest == Some(r.actionDigest)
            && r.supersessionReference == Some(x.successorId)
            && 1 <= x.source.sourceRevision.value && 1 <= x.source.sourceLedgerRevision.value
            && x.source.sourceSha == h(RequestP(RecordedAs(r, x.source.sourceRevision.value, x.source.sourceLedgerRevision.value)))
  {
    ReissueParts(h, f, k);
    var d := f.reissues[k];
    var x := d.outcome.results[i];
    hide Accepts, SuccessorProjected;
    assert PairProjected(h, f.ledger.runId, Index(f.ledger.requests), d.legacyProjection, d.batch.items[i], x);
    assert x in d.outcome.results && ReissueResultValid(h, x);
    IndexSound(f.ledger.requests, x.source.sourceId);
    r := Index(f.ledger.requests)[x.source.sourceId];
    assert AsPending(r, x.source.sourceRevision.value, x.source.sourceLedgerRevision.value)
        == RecordedAs(r, x.source.sourceRevision.value, x.source.sourceLedgerRevision.value);
  }

  /** A historical source is one of the snapshots of the history. */
  lemma {:induction false} AcceptedHistoryShows(h: Hasher, f: Files, k: nat, i: nat)
    requires Accepts(h, f) && k < |f.reissues| && i < |f.reissues[k].outcome.results|
    requires f.reissues[k].outcome.results[i].source.kind == HistoricalV1
    ensures var x := f.reissues[k].outcome.results[i].source;
            && x.snapshot.Some? && x.snapshot.value in f.reissues[k].legacyProjection
            && x.snapshot.value.runId == f.ledger.runId && x.snapshot.value.request.approvalId == x.sourceId
            && x.snapshot.value.requestSha == x.sourceSha
            && x.sourceRevision == None && x.sourceLedgerRevision == None && x.sourceDigest == None
  {
    ReissueParts(h, f, k);
    var d := f.reissues[k];
    hide Accepts, SuccessorProjected;
    assert PairProjected(h, f.ledger.runId, Index(f.ledger.requests), d.legacyProjection, d.batch.items[i], d.outcome.results[i]);
    assert d.outcome.results[i] in d.outcome.results && ReissueResultValid(h, d.outcome.results[i]);
  }

  // ------------------------------------------------------------------ both logs together

  /** Both logs in commit order: the first commit starts behind the roots, every commit starts where the one
      before ended, in run and ledger revision, and not earlier; the last one ends at the ledger. */
  lemma {:induction false} AcceptedTimelineIs(h: Hasher, f: Files) returns (commits: seq<Mutation>)
    requires Accepts(h, f)
    ensures multiset(commits) == multiset(Mutations(f.decisions, f.reissues))
    ensures commits == [] <==> f.decisions == [] && f.reissues == []
    ensures commits != [] ==>
              && commits[0].previousLedger == |f.ledger.requests| - |ReissueResults(f.reissues)| >= 0
              && commits[|commits| - 1].currentLedger == f.ledger.ledgerRevision
    ensures forall i :: 0 < i < |commits| ==>
              && commits[i].previousRun == commits[i - 1].currentRun && commits[i].previousLedger == commits[i - 1].currentLedger
              && commits[i - 1].committedAt <= commits[i].committedAt
    ensures |Mutations(f.decisions, f.reissues)| == |f.decisions| + |f.reissues|
    ensures forall k :: 0 <= k < |f.decisions| ==>
              var o := f.decisions[k].outcome;
              Mutations(f.decisions, f.reissues)[k] ==
                Mutation(o.previousRunRevision, o.currentRunRevision, o.previousLedgerRevision, o.currentLedgerRevision,
                         f.decisions[k].committedAt)
    ensures forall k :: 0 <= k < |f.reissues| ==>
              var o := f.reissues[k].outcome;
              Mutations(f.decisions, f.reissues)[|f.decisions| + k] ==
                Mutation(o.previousRunRevision, o.currentRunRevision, o.previousLedgerRevision, o.currentLedgerRevision,
                         f.reissues[k].committedAt)
  {
    AcceptedParts(h, f);
    hide Accepts;
    commits := Timeline(f.decisions, f.reissues);
    forall i | 0 < i < |commits|
      ensures Follows(commits[i - 1], commits[i])
    {
    }
  }

  /** Every request is pending, or has one decision, or one successor; no two of these. */
  lemma {:induction false} AcceptedRequestIsExplained(h: Hasher, f: Files, r: Request)
    requires Accepts(h, f) && r in f.ledger.requests
    ensures (r.state == Approved || r.state == Rejected) <==> r.requestId in DecidedIds(DecisionResults(f.decisions))
    ensures r.state == Superseded <==> r.requestId in SupersededIds(ReissueResults(f.reissues))
    ensures DistinctResults(DecisionResults(f.decisions))
    ensures DistinctSuccessors(ReissueResults(f.reissues)) && DistinctSources(ReissueResults(f.reissues))
  {
    AcceptedParts(h, f);
    PendingIsTheRest(h, f);
    if r.requestId in SupersededIds(ReissueResults(f.reissues)) { SupersededState(h, f, r); }
    assert Explained(r, DecidedIds(DecisionResults(f.decisions)), SupersededIds(ReissueResults(f.reissues)));
    if r.requestId in DecidedIds(DecisionResults(f.decisions)) { DecidedState(h, f, r); }
  }

  lemma {:induction false} DecidedState(h: Hasher, f: Files, r: Request)
    requires Accepts(h, f) && r in f.ledger.requests && r.requestId in DecidedIds(DecisionResults(f.decisions))
    ensures r.state == Approved || r.state == Rejected
  {
    hide ModelsValid, TimelineOk, ReissueChainOk, AuditChainOk, DecisionChainOk;
    AcceptedParts(h, f);
    var flat := DecisionResults(f.decisions);
    var n :| 0 <= n < |flat| && flat[n].requestId == r.requestId;
    assert DecisionProjected(Index(f.ledger.requests), flat[n]);
    IndexComplete(f.ledger.requests, r);
  }
}
