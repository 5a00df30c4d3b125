/** What each answer of the two admissions means, and when exactly it is given. */
module ApprovalAnswers {
  import opened Basics
  import opened ApprovalModels
  import opened ApprovalProjection
  import opened ApprovalWriter
  import opened ApprovalReissue
  import opened ApprovalDecisionClosure
  import opened ApprovalReissueAdmission

  // ------------------------------------------------------------------ decisions

  /** No committed decision has this idempotency key. */
  predicate KeyIsNew(ds: seq<DecisionRecord>, key: string) {
    forall i :: 0 <= i < |ds| ==> ds[i].idempotencyKey != key
  }

  predicate IdIsNew(ds: seq<DecisionRecord>, id: string) {
    forall i :: 0 <= i < |ds| ==> ds[i].decisionId != id
  }

  /** The batch is for this run and these revisions. */
  predicate Current(s: State, b: DecisionBatch, observedRun: int) {
    && b.runId == s.files.ledger.runId
    && b.expectedRunRevision == observedRun && b.expectedLedgerRevision == s.files.ledger.ledgerRevision
  }

  /** Why an item is refused: the first of these that holds. */
  predicate ItemRefused(m: map<string, Request>, item: DecisionItem, at: Time, code: FailureCode) {
    if item.requestId !in m then code == ApprovalUnknown
    else
      var r := m[item.requestId];
      match code
      case ApprovalAlreadyDecided => r.state != Pending
      case StaleDecision => r.state == Pending && r.requestRevision != item.expectedRevision
      case ActionDigestMismatch =>
        r.state == Pending && r.requestRevision == item.expectedRevision && r.actionDigest != item.actionDigest
      case ResumeConflict =>
        r.state == Pending && r.requestRevision == item.expectedRevision && r.actionDigest == item.actionDigest && at < r.createdAt
      case ApprovalExpired =>
        && r.state == Pending && r.requestRevision == item.expectedRevision && r.actionDigest == item.actionDigest
        && r.createdAt <= at && r.expiresAt <= at
      case _ => false
  }

  lemma {:induction false} FirstFaultAt(items: seq<DecisionItem>, fault: DecisionItem -> Option<FailureCode>, k: nat)
    requires k < |items| && fault(items[k]).Some?
    requires forall i :: 0 <= i < k ==> fault(items[i]) == None
    ensures FirstFault(items, fault) == fault(items[k])
  {
    if k > 0 {
      assert fault(items[0]) == None;
      assert items[1..][k - 1] == items[k] && forall i :: 0 <= i < k - 1 ==> items[1..][i] == items[i + 1];
      FirstFaultAt(items[1..], fault, k - 1);
    }
  }

  lemma {:induction false} PriorDecision(ds: seq<DecisionRecord>, k: nat, key: string)
    requires k < |ds| && ds[k].idempotencyKey == key && forall i :: 0 <= i < k ==> ds[i].idempotencyKey != key
    ensures FindDecision(ds, key) == Some(ds[k])
  {
    if k > 0 {
      assert ds[0].idempotencyKey != key;
      assert ds[1..][k - 1] == ds[k] && forall i :: 0 <= i < k - 1 ==> ds[1..][i] == ds[i + 1];
      PriorDecision(ds[1..], k - 1, key);
    }
  }

  /** A batch under the key of a committed one replays its outcome if it is the same batch by the same
      actor, and conflicts otherwise. */
  lemma {:induction false} KnownKeyAnswers(h: Hasher, s: State, b: DecisionBatch, resolved: Option<Snapshot>, run: int,
                                           at: Time, k: nat)
    requires k < |s.files.decisions| && s.files.decisions[k].idempotencyKey == b.idempotencyKey
    requires KeyIsNew(s.files.decisions[..k], b.idempotencyKey)
    ensures var p, v := s.files.decisions[k], DecisionVerdictFor(h, s, b, resolved, run, at);
            if p.batchSha == h(DecisionBatchP(b)) && p.actorSha == h(ActorP(b.actor)) then v == ReplayDecision(p.outcome)
            else v == RejectedDecision(IdempotencyConflict)
  {
    forall i | 0 <= i < k ensures s.files.decisions[i].idempotencyKey != b.idempotencyKey {
      assert s.files.decisions[..k][i] == s.files.decisions[i];
    }
    PriorDecision(s.files.decisions, k, b.idempotencyKey);
  }

  /** Refusals that concern the batch as a whole, in order. */
  lemma {:induction false} BatchRefusals(h: Hasher, s: State, b: DecisionBatch, resolved: Option<Snapshot>, run: int, at: Time)
    requires KeyIsNew(s.files.decisions, b.idempotencyKey)
    ensures var v := DecisionVerdictFor(h, s, b, resolved, run, at);
            if b.runId != s.files.ledger.runId then v == RejectedDecision(ResumeConflict)
            else if !Current(s, b, run) then v == RejectedDecision(StaleDecision)
            else if !IdIsNew(s.files.decisions, b.decisionId) then v == RejectedDecision(IdempotencyConflict)
            else if exists i, j :: 0 <= i < j < |b.items| && b.items[i].requestId == b.items[j].requestId
                                   && b.items[i].decision != b.items[j].decision
            then v == RejectedDecision(ApproveRejectConflict)
            else !ItemsApart(b.items) ==> v == RejectedDecision(ApprovalDuplicate)
  {
    hide FirstFault, FindDecision, ItemFault, AuthorityFault;
    FindDecisionNone(s.files.decisions, b.idempotencyKey);
    ApartIsNoDuplicate(b.items);
  }

  /** The first item that cannot be decided decides the answer. */
  lemma {:induction false} ItemRefusals(h: Hasher, s: State, b: DecisionBatch, resolved: Option<Snapshot>, run: int, at: Time,
                                        k: nat)
    requires KeyIsNew(s.files.decisions, b.idempotencyKey) && IdIsNew(s.files.decisions, b.decisionId)
    requires Current(s, b, run) && ItemsApart(b.items) && k < |b.items|
    requires forall i :: 0 <= i < k ==> ItemAdmitted(Index(s.files.ledger.requests), b.items[i], at)
    requires !ItemAdmitted(Index(s.files.ledger.requests), b.items[k], at)
    ensures var v := DecisionVerdictFor(h, s, b, resolved, run, at);
            v.RejectedDecision? && ItemRefused(Index(s.files.ledger.requests), b.items[k], at, v.code)
  {
    hide FirstFault, FindDecision, AuthorityFault, Index;
    var m := Index(s.files.ledger.requests);
    var fault := item => ItemFault(m, item, at);
    FindDecisionNone(s.files.decisions, b.idempotencyKey);
    ApartIsNoDuplicate(b.items);
    assert !ConflictingItems(b.items);
    forall i | 0 <= i < k ensures fault(b.items[i]) == None { assert ItemAdmitted(m, b.items[i], at); }
    FirstFaultAt(b.items, fault, k);
    assert DecisionVerdictFor(h, s, b, resolved, run, at) == RejectedDecision(fault(b.items[k]).value);
  }

  /** When every item can be decided the answer depends on the authority alone. */
  lemma {:induction false} AuthorityAnswers(h: Hasher, s: State, b: DecisionBatch, resolved: Option<Snapshot>, run: int, at: Time)
    requires KeyIsNew(s.files.decisions, b.idempotencyKey) && IdIsNew(s.files.decisions, b.decisionId)
    requires Current(s, b, run) && ItemsApart(b.items) && b.items != []
    requires forall i :: 0 <= i < |b.items| ==> ItemAdmitted(Index(s.files.ledger.requests), b.items[i], at)
    ensures var m := Index(s.files.ledger.requests);
            var v := DecisionVerdictFor(h, s, b, resolved, run, at);
            if resolved == None then v == RejectedDecision(UnauthorizedDecision)
            else if resolved.value.actor != b.actor then v == RejectedDecision(ActorSpoof)
            else if b.actor.revocation == Revoked then v == RejectedDecision(AuthorityRevoked)
            else if exists i :: 0 <= i < |b.items| && b.items[i].requestId in m
                                && !MayDecide(b.actor, m[b.items[i].requestId], b.items[i].decision, at)
            then v == RejectedDecision(UnauthorizedDecision)
            else v == NewDecision(Admission(s, b, resolved.value, h(ActorP(b.actor)), h(DecisionBatchP(b))))
  {
    hide FirstFault, FindDecision, ItemFault, Index, MayDecide, Authorized;
    var m := Index(s.files.ledger.requests);
    FindDecisionNone(s.files.decisions, b.idempotencyKey);
    ApartIsNoDuplicate(b.items);
    assert !ConflictingItems(b.items);
    ItemFaultsNone(m, b.items, at);
    forall i | 0 <= i < |b.items| ensures b.items[i].requestId in m { assert ItemAdmitted(m, b.items[i], at); }
    forall r, d ensures Authorized(b.actor, r, d, at) <==> MayDecide(b.actor, r, d, at) {
      AuthorizedMayDecide(b.actor, r, d, at);
    }
    AuthorityFaultsNone(m, b.actor, b.items, at);
    FirstAuthorityFault(m, b.actor, b.items, at);
  }

  lemma {:induction false} FirstAuthorityFault(m: map<string, Request>, a: Actor, items: seq<DecisionItem>, at: Time)
    ensures var fault := FirstFault(items, item => AuthorityFault(m, a, item, at));
            fault == None || fault == Some(if a.revocation == Revoked then AuthorityRevoked else UnauthorizedDecision)
  {
    var fault := item => AuthorityFault(m, a, item, at);
    FirstFaultIsOne(items, fault);
  }

  lemma {:induction false} FirstFaultIsOne(items: seq<DecisionItem>, fault: DecisionItem -> Option<FailureCode>)
    ensures FirstFault(items, fault).Some? ==>
              exists i :: 0 <= i < |items| && fault(items[i]) == FirstFault(items, fault)
  {
    if items != [] && fault(items[0]) == None {
      FirstFaultIsOne(items[1..], fault);
      if FirstFault(items, fault).Some? {
        var i :| 0 <= i < |items[1..]| && fault(items[1..][i]) == FirstFault(items, fault);
        assert items[i + 1] == items[1..][i];
      }
    }
  }

  // ------------------------------------------------------------------ reissues on a V2 ledger

  /** The item names a pending request, exactly as it is, that has expired by then. */
  predicate SourceDue(m: map<string, Request>, item: ReissueItem, at: Time) {
    && item.sourceId in m
    && m[item.sourceId].state == Pending
    && item.expectedRevision == Some(m[item.sourceId].requestRevision)
    && item.sourceDigest == Some(m[item.sourceId].actionDigest)
    && m[item.sourceId].expiresAt <= at
  }

  predicate ReissueIsNew(rs: seq<ReissueRecord>, b: ReissueBatch) {
    forall i :: 0 <= i < |rs| ==> rs[i].idempotencyKey != b.idempotencyKey && rs[i].reissueId != b.reissueId
  }

  /** Nothing was committed after this time. */
  predicate NotBehind(f: Files, at: Time) {
    && (forall i :: 0 <= i < |f.decisions| ==> f.decisions[i].committedAt <= at)
    && (forall i :: 0 <= i < |f.reissues| ==> f.reissues[i].committedAt <= at)
  }

  predicate SuccessorsLive(b: ReissueBatch) {
    forall i :: 0 <= i < |b.items| ==> b.reissuedAt < b.items[i].successor.actionPlan.expiresAt
  }

  ghost predicate ReissueAdmissible(s: State, legacy: seq<V1Request>, b: ReissueBatch, run: int) {
    && ReissueIsNew(s.files.reissues, b)
    && b.runId == s.files.ledger.runId
    && b.expectedRunRevision == run && b.expectedLedgerRevision == s.files.ledger.ledgerRevision
    && legacy == [] && (forall i :: 0 <= i < |b.items| ==> b.items[i].kind == ApprovalV2)
    && NotBehind(s.files, b.reissuedAt)
    && (forall i :: 0 <= i < |b.items| ==> SourceDue(Index(s.files.ledger.requests), b.items[i], b.reissuedAt))
    && SuccessorsLive(b)
  }

  lemma {:induction false} SourceFaultsNone(m: map<string, Request>, items: seq<ReissueItem>, at: Time)
    ensures FirstSourceFault(m, items, at) == None <==> forall i :: 0 <= i < |items| ==> SourceDue(m, items[i], at)
  {
    FirstSourceFaultNone(m, items, at);
    forall i | 0 <= i < |items|
      ensures SourceFault(m, items[i], at) == None <==> SourceDue(m, items[i], at)
    {
    }
  }

  lemma {:induction false} BehindIsNotNotBehind(f: Files, at: Time)
    ensures BehindTimeline(f, at) <==> !NotBehind(f, at)
  {
  }

  /** A reissue of V2 requests is admitted as new exactly when it is fresh, for these revisions, not behind
      any commit, and every item names a request that is pending, exactly as named, and expired, with a
      successor that is still alive; and what is admitted are those requests. */
  lemma {:induction false} ReissueAdmittedExactlyWhen(h: Hasher, s: State, legacy: seq<V1Request>, b: ReissueBatch, run: int,
                                           ms: Sha, ps: Sha)
    ensures ReissueVerdictFor(h, Some(s), legacy, b, run, ms, ps).NewReissue? <==> ReissueAdmissible(s, legacy, b, run)
    ensures var v := ReissueVerdictFor(h, Some(s), legacy, b, run, ms, ps);
            v.NewReissue? ==>
              var a := v.admission;
              && a.batch == b && a.observedRun == run && a.manifestSha == ms && a.pointerSha == ps
              && a.state == Some(s) && a.legacy == [] && |a.sources| == |b.items|
              && forall i :: 0 <= i < |b.items| ==>
                   b.items[i].sourceId in Index(s.files.ledger.requests)
                   && a.sources[i] == V2Source(Index(s.files.ledger.requests)[b.items[i].sourceId])
  {
    hide FirstSourceFault, FindReissue, Index, SourceDue, V2Sources, NotBehind, BehindTimeline;
    var m := Index(s.files.ledger.requests);
    FindReissueNone(s.files.reissues, b.idempotencyKey);
    SourceFaultsNone(m, b.items, b.reissuedAt);
    BehindIsNotNotBehind(s.files, b.reissuedAt);
    if ReissueAdmissible(s, legacy, b, run) {
      forall i | 0 <= i < |b.items| ensures b.items[i].sourceId in m { DueIsKnown(m, b.items[i], b.reissuedAt); }
      V2SourcesExact(m, b.items);
    }
  }

  lemma {:induction false} DueIsKnown(m: map<string, Request>, item: ReissueItem, at: Time)
    requires SourceDue(m, item, at)
    ensures item.sourceId in m
  {
  }

  lemma {:induction false} FirstSourceFaultAt(m: map<string, Request>, items: seq<ReissueItem>, at: Time, k: nat)
    requires k < |items| && SourceFault(m, items[k], at).Some?
    requires forall i :: 0 <= i < k ==> SourceFault(m, items[i], at) == None
    ensures FirstSourceFault(m, items, at) == SourceFault(m, items[k], at)
  {
    if k > 0 {
      assert SourceFault(m, items[0], at) == None;
      assert items[1..][k - 1] == items[k] && forall i :: 0 <= i < k - 1 ==> items[1..][i] == items[i + 1];
      FirstSourceFaultAt(m, items[1..], at, k - 1);
    }
  }

  lemma {:induction false} PriorReissue(rs: seq<ReissueRecord>, k: nat, key: string)
    requires k < |rs| && rs[k].idempotencyKey == key && forall i :: 0 <= i < k ==> rs[i].idempotencyKey != key
    ensures FindReissue(rs, key) == Some(rs[k])
  {
    if k > 0 {
      assert rs[0].idempotencyKey != key;
      assert rs[1..][k - 1] == rs[k] && forall i :: 0 <= i < k - 1 ==> rs[1..][i] == rs[i + 1];
      PriorReissue(rs[1..], k - 1, key);
    }
  }

  /** A reissue under the key of a committed one replays its outcome if it is the same batch. */
  lemma {:induction false} KnownReissueAnswers(h: Hasher, s: State, legacy: seq<V1Request>, b: ReissueBatch, run: int, ms: Sha,
                                               ps: Sha, k: nat)
    requires k < |s.files.reissues| && s.files.reissues[k].idempotencyKey == b.idempotencyKey
    requires forall i :: 0 <= i < k ==> s.files.reissues[i].idempotencyKey != b.idempotencyKey
    ensures var p, v := s.files.reissues[k], ReissueVerdictFor(h, Some(s), legacy, b, run, ms, ps);
            if p.batchSha == h(ReissueBatchP(b)) then v == ReplayReissue(p.outcome)
            else v == RejectedReissue(IdempotencyConflict)
  {
    PriorReissue(s.files.reissues, k, b.idempotencyKey);
  }

  /** Why a reissue on a V2 ledger is refused, in order; `k` is the first item that is not due. */
  lemma {:induction false} ReissueRefusals(h: Hasher, s: State, legacy: seq<V1Request>, b: ReissueBatch, run: int, ms: Sha,
                                           ps: Sha, k: nat)
    requires forall i :: 0 <= i < |s.files.reissues| ==> s.files.reissues[i].idempotencyKey != b.idempotencyKey
    requires k <= |b.items|
    requires forall i :: 0 <= i < k ==> SourceDue(Index(s.files.ledger.requests), b.items[i], b.reissuedAt)
    requires k < |b.items| ==> !SourceDue(Index(s.files.ledger.requests), b.items[k], b.reissuedAt)
    ensures var m := Index(s.files.ledger.requests);
            var v := ReissueVerdictFor(h, Some(s), legacy, b, run, ms, ps);
            if b.runId != s.files.ledger.runId then v == RejectedReissue(ReissueConflict)
            else if b.expectedRunRevision != run || b.expectedLedgerRevision != s.files.ledger.ledgerRevision
            then v == RejectedReissue(StaleDecision)
            else if !ReissueIsNew(s.files.reissues, b) then v == RejectedReissue(IdempotencyConflict)
            else if legacy != [] || exists i :: 0 <= i < |b.items| && b.items[i].kind != ApprovalV2
            then v == RejectedReissue(ReissueConflict)
            else if !NotBehind(s.files, b.reissuedAt) then v == RejectedReissue(ResumeConflict)
            else if k < |b.items| then
              v == RejectedReissue(if b.items[k].sourceId in m then ReissueNotEligible else ApprovalUnknown)
            else if !SuccessorsLive(b) then v == RejectedReissue(ApprovalExpired)
            else v.NewReissue?
  {
    hide FindReissue, Index, V2Sources, NotBehind, BehindTimeline;
    var m := Index(s.files.ledger.requests);
    FindReissueNone(s.files.reissues, b.idempotencyKey);
    BehindIsNotNotBehind(s.files, b.reissuedAt);
    SourceFaultsNone(m, b.items, b.reissuedAt);
    if k < |b.items| {
      FirstSourceFaultAt(m, b.items, b.reissuedAt, k);
    }
  }

  // ------------------------------------------------------------------ reissues of a V1 history

  predicate LegacyApart(legacy: seq<V1Request>) {
    forall i, j :: 0 <= i < j < |legacy| ==> legacy[i].approvalId != legacy[j].approvalId
  }

  /** Nothing in the history was created or decided after this time. */
  predicate LegacyNotBehind(legacy: seq<V1Request>, at: Time) {
    forall v :: v in legacy ==> v.createdAt <= at && (v.decidedAt.Some? ==> v.decidedAt.value <= at)
  }

  predicate PendingNamed(legacy: seq<V1Request>, id: string) {
    exists v :: v in legacy && v.status == V1Pending && v.approvalId == id
  }

  /** The items name the pending requests of the history, and all of them. */
  predicate NamesPending(legacy: seq<V1Request>, b: ReissueBatch) {
    && (forall i :: 0 <= i < |b.items| ==> PendingNamed(legacy, b.items[i].sourceId))
    && (forall v :: v in legacy && v.status == V1Pending ==>
          exists i :: 0 <= i < |b.items| && b.items[i].sourceId == v.approvalId)
  }

  predicate SomePending(legacy: seq<V1Request>) {
    exists v :: v in legacy && v.status == V1Pending
  }

  ghost predicate LegacyAdmissible(legacy: seq<V1Request>, b: ReissueBatch, run: int) {
    && b.expectedRunRevision == run && b.expectedLedgerRevision == 0
    && LegacyApart(legacy) && LegacyNotBehind(legacy, b.reissuedAt)
    && SomePending(legacy) && NamesPending(legacy, b)
    && (forall i :: 0 <= i < |b.items| ==> b.items[i].kind == HistoricalV1)
    && SuccessorsLive(b)
  }

  lemma {:induction false} PendingLegacyExact(legacy: seq<V1Request>, id: string)
    ensures id in PendingLegacy(legacy) <==> exists v :: v in legacy && v.status == V1Pending && v.approvalId == id
    ensures id in PendingLegacy(legacy) ==>
              var v := PendingLegacy(legacy)[id]; v in legacy && v.status == V1Pending && v.approvalId == id
  {
    if legacy != [] {
      var init, last := legacy[..|legacy| - 1], legacy[|legacy| - 1];
      PendingLegacyExact(init, id);
      assert legacy == init + [last];
    }
  }

  lemma {:induction false} PendingKeys(legacy: seq<V1Request>)
    ensures forall id :: id in PendingLegacy(legacy) <==> PendingNamed(legacy, id)
  {
    hide PendingLegacy;
    forall id ensures id in PendingLegacy(legacy) <==> PendingNamed(legacy, id) { PendingLegacyExact(legacy, id); }
  }

  lemma {:induction false} NamesPendingById(legacy: seq<V1Request>, b: ReissueBatch)
    ensures NamesPending(legacy, b) <==> forall id :: id in SelectedIds(b) <==> PendingNamed(legacy, id)
  {
    if NamesPending(legacy, b) {
      forall id
        ensures id in SelectedIds(b) <==> PendingNamed(legacy, id)
      {
      }
    }
    if forall id :: id in SelectedIds(b) <==> PendingNamed(legacy, id) {
      forall i | 0 <= i < |b.items|
        ensures PendingNamed(legacy, b.items[i].sourceId)
      {
        assert b.items[i].sourceId in SelectedIds(b);
      }
      forall v | v in legacy && v.status == V1Pending
        ensures exists i :: 0 <= i < |b.items| && b.items[i].sourceId == v.approvalId
      {
        assert PendingNamed(legacy, v.approvalId);
        assert v.approvalId in SelectedIds(b);
      }
      assert NamesPending(legacy, b);
    }
  }

  lemma {:induction false} SelectsPending(legacy: seq<V1Request>, b: ReissueBatch)
    ensures SelectedIds(b) == PendingLegacy(legacy).Keys <==> NamesPending(legacy, b)
    ensures PendingLegacy(legacy) == map[] <==> !SomePending(legacy)
  {
    hide PendingLegacy, SelectedIds, NamesPending;
    PendingKeys(legacy);
    NamesPendingById(legacy, b);
    if v :| v in legacy && v.status == V1Pending {
      assert PendingNamed(legacy, v.approvalId);
    }
    if PendingLegacy(legacy) != map[] {
      var id :| id in PendingLegacy(legacy);
      assert PendingNamed(legacy, id);
    }
  }

  lemma {:induction false} BehindLegacyExact(legacy: seq<V1Request>, at: Time)
    ensures BehindLegacy(legacy, at) <==> !LegacyNotBehind(legacy, at)
    ensures DistinctLegacy(legacy) <==> LegacyApart(legacy)
  {
    if i :| 0 <= i < |legacy| && (at < legacy[i].createdAt || (legacy[i].decidedAt.Some? && at < legacy[i].decidedAt.value)) {
      assert legacy[i] in legacy;
    }
    if v :| v in legacy && !(v.createdAt <= at && (v.decidedAt.Some? ==> v.decidedAt.value <= at)) {
      var i :| 0 <= i < |legacy| && legacy[i] == v;
    }
  }

  lemma {:induction false} LegacySourcesAre(legacy: seq<V1Request>, b: ReissueBatch)
    requires NamesPending(legacy, b)
    ensures |V1Sources(PendingLegacy(legacy), b.items)| == |b.items|
    ensures forall i :: 0 <= i < |b.items| ==>
              && V1Sources(PendingLegacy(legacy), b.items)[i].V1Source?
              && var v := V1Sources(PendingLegacy(legacy), b.items)[i].v1;
                 v in legacy && v.status == V1Pending && v.approvalId == b.items[i].sourceId
  {
    hide PendingLegacy, V1Sources;
    forall i | 0 <= i < |b.items|
      ensures b.items[i].sourceId in PendingLegacy(legacy)
    {
      PendingKeys(legacy);
      assert PendingNamed(legacy, b.items[i].sourceId);
    }
    V1SourcesExact(PendingLegacy(legacy), b.items);
    forall i | 0 <= i < |b.items|
      ensures V1Sources(PendingLegacy(legacy), b.items)[i].V1Source?
      ensures var v := V1Sources(PendingLegacy(legacy), b.items)[i].v1;
              v in legacy && v.status == V1Pending && v.approvalId == b.items[i].sourceId
    {
      PendingLegacyExact(legacy, b.items[i].sourceId);
    }
  }

  /** A V1 history is reissued exactly when it is the whole history of distinct requests, some pending, the
      items name all pending ones and no others, and the clock is not behind; what is admitted are those. */
  lemma {:induction false} LegacyAdmittedExactlyWhen(h: Hasher, legacy: seq<V1Request>, b: ReissueBatch, run: int, ms: Sha, ps: Sha)
    ensures ReissueVerdictFor(h, None, legacy, b, run, ms, ps).NewReissue? <==> LegacyAdmissible(legacy, b, run)
    ensures var v := ReissueVerdictFor(h, None, legacy, b, run, ms, ps);
            v.NewReissue? ==>
              var a := v.admission;
              && a.batch == b && a.observedRun == run && a.manifestSha == ms && a.pointerSha == ps
              && a.state == None && a.legacy == legacy && |a.sources| == |b.items|
              && forall i :: 0 <= i < |b.items| ==>
                   a.sources[i].V1Source? && a.sources[i].v1 in legacy && a.sources[i].v1.status == V1Pending
                   && a.sources[i].v1.approvalId == b.items[i].sourceId
  {
    hide PendingLegacy, SelectedIds, V1Sources, NamesPending, LegacyNotBehind, BehindLegacy, DistinctLegacy, LegacyApart;
    SelectsPending(legacy, b);
    BehindLegacyExact(legacy, b.reissuedAt);
    if NamesPending(legacy, b) { LegacySourcesAre(legacy, b); }
  }

  /** Why the reissue of a V1 history is refused, in order. */
  lemma {:induction false} LegacyRefusals(h: Hasher, legacy: seq<V1Request>, b: ReissueBatch, run: int, ms: Sha, ps: Sha)
    ensures var v := ReissueVerdictFor(h, None, legacy, b, run, ms, ps);
            if b.expectedRunRevision != run || b.expectedLedgerRevision != 0 then v == RejectedReissue(StaleDecision)
            else if legacy == [] || !LegacyApart(legacy) then v == RejectedReissue(ReissueConflict)
            else if !LegacyNotBehind(legacy, b.reissuedAt) then v == RejectedReissue(ResumeConflict)
            else if || !SomePending(legacy) || !NamesPending(legacy, b)
                    || exists i :: 0 <= i < |b.items| && b.items[i].kind != HistoricalV1
            then v == RejectedReissue(ReissueNotEligible)
            else if !SuccessorsLive(b) then v == RejectedReissue(ApprovalExpired)
            else v.NewReissue?
  {
    hide PendingLegacy, SelectedIds, V1Sources, NamesPending, LegacyNotBehind, BehindLegacy, DistinctLegacy, LegacyApart;
    SelectsPending(legacy, b);
    BehindLegacyExact(legacy, b.reissuedAt);
  }
}
