/** The writers: adding a root request, admitting and committing a decision batch, admitting and
    committing a reissue batch. Functions say what each computes; the methods run the loops. */
module ApprovalWriter {
  import opened Basics
  import opened ApprovalModels
  import opened ApprovalProjection

  datatype BuildError = Refused(code: FailureCode) | SchemaViolation

  // ------------------------------------------------------------------ requests

  function EmptyLedger(runId: string): Ledger {
    Ledger(runId, 0, [], 0, None, 0, None)
  }

  function EmptyFiles(runId: string): Files {
    Files(EmptyLedger(runId), [], [], [])
  }

  function First32(s: string): string {
    if |s| <= 32 then s else s[..32]
  }

  function BuildRequest(h: Hasher, runId: string, createdRun: int, ledgerRevision: int,
                        p: Successor, createdAt: Time): Request {
    var digest := h(ActionPlanP(p.actionPlan));
    var key := h(RequestKeyP(runId, p.sourcePhaseId, p.stableProposalId, p.actionPlan.category, digest));
    Request("request-" + First32(key), 1, ledgerRevision, createdRun, p.stableProposalId, p.actionPlan, digest,
            p.display, "approve:" + p.actionPlan.category, createdAt, p.actionPlan.expiresAt,
            p.sourcePhaseId, p.sourceAttemptId, key, Pending, None)
  }

  datatype AddResult =
    | Added(ledger: Ledger)
    | AlreadyPresent(existing: Request)
    | AddRefused(error: BuildError)

  predicate Clash(a: Request, b: Request) {
    a.idempotencyKey == b.idempotencyKey || a.requestId == b.requestId
  }

  function FirstClash(rs: seq<Request>, r: Request): Option<Request> {
    if rs == [] then None else if Clash(rs[0], r) then Some(rs[0]) else FirstClash(rs[1..], r)
  }

  function Appended(l: Ledger, r: Request): Ledger {
    l.(ledgerRevision := r.ledgerRevision, requests := l.requests + [r])
  }

  function AddRequest(h: Hasher, l: Ledger, r: Request): AddResult {
    match FirstClash(l.requests, r)
    case Some(existing) =>
      if existing.idempotencyKey != r.idempotencyKey then AddRefused(Refused(ApprovalDuplicate))
      else if existing == r then AlreadyPresent(existing)
      else AddRefused(Refused(IdempotencyConflict))
    case None =>
      if r.ledgerRevision != l.ledgerRevision + 1 then AddRefused(Refused(StaleDecision))
      else if LedgerValid(h, Appended(l, r)) then Added(Appended(l, r))
      else AddRefused(SchemaViolation)
  }

  method AddApprovalRequest(h: Hasher, l: Ledger, r: Request) returns (result: AddResult)
    ensures result == AddRequest(h, l, r)
  {
    for k := 0 to |l.requests|
      invariant FirstClash(l.requests, r) == FirstClash(l.requests[k..], r)
    {
      var existing := l.requests[k];
      assert l.requests[k..][0] == existing && l.requests[k..][1..] == l.requests[k + 1..];
      if existing.idempotencyKey == r.idempotencyKey {
        if existing == r { return AlreadyPresent(existing); }
        return AddRefused(Refused(IdempotencyConflict));
      }
      if existing.requestId == r.requestId { return AddRefused(Refused(ApprovalDuplicate)); }
    }
    if r.ledgerRevision != l.ledgerRevision + 1 { return AddRefused(Refused(StaleDecision)); }
    var extended := Appended(l, r);
    if !LedgerValid(h, extended) { return AddRefused(SchemaViolation); }
    return Added(extended);
  }

  // ------------------------------------------------------------------ admitting a decision

  function FindDecision(ds: seq<DecisionRecord>, key: string): Option<DecisionRecord> {
    if ds == [] then None
    else if ds[0].idempotencyKey == key then Some(ds[0])
    else FindDecision(ds[1..], key)
  }

  predicate DecisionIdUsed(ds: seq<DecisionRecord>, id: string) {
    exists i :: 0 <= i < |ds| && ds[i].decisionId == id
  }

  predicate ConflictingItems(items: seq<DecisionItem>) {
    exists i, j :: 0 <= i < j < |items| && items[i].requestId == items[j].requestId && items[i].decision != items[j].decision
  }

  predicate DuplicateItems(items: seq<DecisionItem>) {
    exists i, j :: 0 <= i < j < |items| && items[i].requestId == items[j].requestId
  }

  function ItemFault(m: map<string, Request>, item: DecisionItem, at: Time): Option<FailureCode> {
    if item.requestId !in m then Some(ApprovalUnknown)
    else
      var r := m[item.requestId];
      if r.state != Pending then Some(ApprovalAlreadyDecided)
      else if item.expectedRevision != r.requestRevision then Some(StaleDecision)
      else if item.actionDigest != r.actionDigest then Some(ActionDigestMismatch)
      else if at < r.createdAt then Some(ResumeConflict)
      else if at >= r.expiresAt then Some(ApprovalExpired)
      else None
  }

  predicate Authorized(a: Actor, r: Request, d: Decision, at: Time) {
    if d == Reject then "reject:any" in a.scopes
    else
      && a.verified
      && a.revocation == NotRevoked
      && a.authorityExpiresAt.Some? && at < a.authorityExpiresAt.value
      && r.requiredScope in a.scopes
  }

  function AuthorityFault(m: map<string, Request>, a: Actor, item: DecisionItem, at: Time): Option<FailureCode> {
    if a.revocation == Revoked then Some(AuthorityRevoked)
    else if item.requestId in m && Authorized(a, m[item.requestId], item.decision, at) then None
    else Some(UnauthorizedDecision)
  }

  function FirstFault(items: seq<DecisionItem>, fault: DecisionItem -> Option<FailureCode>): Option<FailureCode> {
    if items == [] then None
    else if fault(items[0]).Some? then fault(items[0])
    else FirstFault(items[1..], fault)
  }

  datatype Admission = Admission(
    state: State,
    batch: DecisionBatch,
    snapshot: Snapshot,
    actorSha: Sha,
    batchSha: Sha)

  datatype DecisionVerdict =
    | NewDecision(admission: Admission)
    | ReplayDecision(outcome: DecisionOutcome)
    | RejectedDecision(code: FailureCode)

  /** `resolved` is what the authority provider answers for the claimed actor at `at`, or `None`
      when it fails. Replay and key conflict come first, then run, revisions and decision identifier,
      the batch's own items, the requests they name, and last the authority. */
  function DecisionVerdictFor(h: Hasher, s: State, b: DecisionBatch, resolved: Option<Snapshot>,
                              observedRun: int, at: Time): DecisionVerdict {
    var actorSha, batchSha := h(ActorP(b.actor)), h(DecisionBatchP(b));
    var m := Index(s.files.ledger.requests);
    match FindDecision(s.files.decisions, b.idempotencyKey)
    case Some(prior) =>
      if prior.actorSha != actorSha || prior.batchSha != batchSha then RejectedDecision(IdempotencyConflict)
      else ReplayDecision(prior.outcome)
    case None =>
      if b.runId != s.files.ledger.runId then RejectedDecision(ResumeConflict)
      else if b.expectedRunRevision != observedRun then RejectedDecision(StaleDecision)
      else if b.expectedLedgerRevision != s.files.ledger.ledgerRevision then RejectedDecision(StaleDecision)
      else if DecisionIdUsed(s.files.decisions, b.decisionId) then RejectedDecision(IdempotencyConflict)
      else if ConflictingItems(b.items) then RejectedDecision(ApproveRejectConflict)
      else if DuplicateItems(b.items) then RejectedDecision(ApprovalDuplicate)
      else
        var itemFault := FirstFault(b.items, item => ItemFault(m, item, at));
        if itemFault.Some? then RejectedDecision(itemFault.value)
        else if resolved == None then RejectedDecision(UnauthorizedDecision)
        else if resolved.value.actor != b.actor then RejectedDecision(ActorSpoof)
        else
          var authorityFault := FirstFault(b.items, item => AuthorityFault(m, b.actor, item, at));
          if authorityFault.Some? then RejectedDecision(authorityFault.value)
          else NewDecision(Admission(s, b, resolved.value, actorSha, batchSha))
  }

  function DecisionsFor(items: seq<DecisionItem>, id: string): set<Decision> {
    if items == [] then {}
    else
      var last := items[|items| - 1];
      DecisionsFor(items[..|items| - 1], id) + (if last.requestId == id then {last.decision} else {})
  }

  function Occurrences(items: seq<DecisionItem>, id: string): nat {
    if items == [] then 0
    else Occurrences(items[..|items| - 1], id) + (if items[|items| - 1].requestId == id then 1 else 0)
  }

  lemma {:induction false} DecisionsForMember(items: seq<DecisionItem>, id: string, d: Decision)
    ensures d in DecisionsFor(items, id) <==>
              exists i :: 0 <= i < |items| && items[i].requestId == id && items[i].decision == d
  {
    if items != [] {
      var init := items[..|items| - 1];
      DecisionsForMember(init, id, d);
      assert forall i :: 0 <= i < |init| ==> items[i] == init[i];
    }
  }

  lemma {:induction false} OccurrencesCount(items: seq<DecisionItem>, id: string)
    ensures Occurrences(items, id) >= 1 <==> exists i :: 0 <= i < |items| && items[i].requestId == id
    ensures Occurrences(items, id) > 1 <==>
              exists i, j :: 0 <= i < j < |items| && items[i].requestId == id && items[j].requestId == id
  {
    if items != [] {
      var init := items[..|items| - 1];
      OccurrencesCount(init, id);
      assert forall i :: 0 <= i < |init| ==> items[i] == init[i];
      if Occurrences(init, id) >= 1 && items[|init|].requestId == id {
        var i :| 0 <= i < |init| && init[i].requestId == id;
        assert items[i].requestId == id && items[|init|].requestId == id;
      }
    }
  }

  lemma {:induction false} ConflictIsTwoDecisions(items: seq<DecisionItem>)
    ensures ConflictingItems(items) <==> exists id :: DecisionsFor(items, id) == {Approve, Reject}
  {
    if i, j :| 0 <= i < j < |items| && items[i].requestId == items[j].requestId && items[i].decision != items[j].decision {
      var id := items[i].requestId;
      DecisionsForMember(items, id, Approve);
      DecisionsForMember(items, id, Reject);
      assert {items[i].decision, items[j].decision} == {Approve, Reject};
      assert Approve in DecisionsFor(items, id) && Reject in DecisionsFor(items, id);
      forall d | d in DecisionsFor(items, id) ensures d in {Approve, Reject} {
        assert d == Approve || d == Reject;
      }
      assert DecisionsFor(items, id) == {Approve, Reject};
    }
    if id :| DecisionsFor(items, id) == {Approve, Reject} {
      DecisionsForMember(items, id, Approve);
      DecisionsForMember(items, id, Reject);
      var i :| 0 <= i < |items| && items[i].requestId == id && items[i].decision == Approve;
      var j :| 0 <= j < |items| && items[j].requestId == id && items[j].decision == Reject;
      assert if i < j then items[i].requestId == items[j].requestId else items[j].requestId == items[i].requestId;
    }
  }

  lemma {:induction false} DuplicateIsTwoOccurrences(items: seq<DecisionItem>)
    ensures DuplicateItems(items) <==> exists id :: Occurrences(items, id) > 1
  {
    if i, j :| 0 <= i < j < |items| && items[i].requestId == items[j].requestId {
      OccurrencesCount(items, items[i].requestId);
    }
    if id :| Occurrences(items, id) > 1 {
      OccurrencesCount(items, id);
    }
  }

  lemma {:induction false} AbsentIsEmpty(items: seq<DecisionItem>, id: string)
    requires forall i :: 0 <= i < |items| ==> items[i].requestId != id
    ensures DecisionsFor(items, id) == {} && Occurrences(items, id) == 0
  {
    if items != [] {
      AbsentIsEmpty(items[..|items| - 1], id);
    }
  }

  /** The two dictionaries of the duplicate check. */
  method GroupItems(items: seq<DecisionItem>) returns (conflict: bool, duplicate: bool)
    ensures conflict <==> ConflictingItems(items)
    ensures duplicate <==> DuplicateItems(items)
  {
    var grouped: map<string, set<Decision>> := map[];
    var counts: map<string, int> := map[];
    for k := 0 to |items|
      invariant forall id :: (id in grouped <==> id in counts)
      invariant forall id :: id !in grouped ==> DecisionsFor(items[..k], id) == {} && Occurrences(items[..k], id) == 0
      invariant forall id :: id in grouped ==> grouped[id] == DecisionsFor(items[..k], id)
      invariant forall id :: id in counts ==> counts[id] == Occurrences(items[..k], id)
    {
      var id, d := items[k].requestId, items[k].decision;
      assert items[..k + 1][..k] == items[..k];
      grouped := grouped[id := (if id in grouped then grouped[id] else {}) + {d}];
      counts := counts[id := (if id in counts then counts[id] else 0) + 1];
    }
    assert items[..|items|] == items;
    conflict := exists id :: id in grouped && grouped[id] == {Approve, Reject};
    duplicate := exists id :: id in counts && counts[id] > 1;
    ConflictIsTwoDecisions(items);
    DuplicateIsTwoOccurrences(items);
  }

  lemma {:induction false} FirstFaultSkip(items: seq<DecisionItem>, fault: DecisionItem -> Option<FailureCode>, k: nat)
    requires k < |items|
    ensures FirstFault(items[k..], fault) ==
              if fault(items[k]).Some? then fault(items[k]) else FirstFault(items[k + 1..], fault)
  {
    assert items[k..][1..] == items[k + 1..];
  }

  method ValidateDecision(h: Hasher, s: State, b: DecisionBatch, resolved: Option<Snapshot>,
                          observedRun: int, at: Time) returns (v: DecisionVerdict)
    ensures v == DecisionVerdictFor(h, s, b, resolved, observedRun, at)
  {
    var actorSha, batchSha := h(ActorP(b.actor)), h(DecisionBatchP(b));
    var ds := s.files.decisions;
    var used := false;
    for k := 0 to |ds|
      invariant FindDecision(ds, b.idempotencyKey) == FindDecision(ds[k..], b.idempotencyKey)
      invariant used <==> DecisionIdUsed(ds[..k], b.decisionId)
    {
      assert ds[k..][0] == ds[k] && ds[k..][1..] == ds[k + 1..];
      assert ds[..k + 1] == ds[..k] + [ds[k]];
      if ds[k].idempotencyKey == b.idempotencyKey {
        if ds[k].actorSha != actorSha || ds[k].batchSha != batchSha {
          return RejectedDecision(IdempotencyConflict);
        }
        return ReplayDecision(ds[k].outcome);
      }
      if ds[k].decisionId == b.decisionId {
        assert ds[..k + 1][k] == ds[k];
        used := true;
      }
    }
    assert ds[..|ds|] == ds;
    if b.runId != s.files.ledger.runId { return RejectedDecision(ResumeConflict); }
    if b.expectedRunRevision != observedRun { return RejectedDecision(StaleDecision); }
    if b.expectedLedgerRevision != s.files.ledger.ledgerRevision { return RejectedDecision(StaleDecision); }
    if used { return RejectedDecision(IdempotencyConflict); }
    var conflict, duplicate := GroupItems(b.items);
    if conflict { return RejectedDecision(ApproveRejectConflict); }
    if duplicate { return RejectedDecision(ApprovalDuplicate); }
    var m := Index(s.files.ledger.requests);
    var itemFault := item => ItemFault(m, item, at);
    assert b.items[0..] == b.items;
    for k := 0 to |b.items|
      invariant FirstFault(b.items, itemFault) == FirstFault(b.items[k..], itemFault)
    {
      FirstFaultSkip(b.items, itemFault, k);
      if itemFault(b.items[k]).Some? { return RejectedDecision(itemFault(b.items[k]).value); }
    }
    if resolved == None { return RejectedDecision(UnauthorizedDecision); }
    if resolved.value.actor != b.actor { return RejectedDecision(ActorSpoof); }
    var authorityFault := item => AuthorityFault(m, b.actor, item, at);
    for k := 0 to |b.items|
      invariant FirstFault(b.items, authorityFault) == FirstFault(b.items[k..], authorityFault)
    {
      FirstFaultSkip(b.items, authorityFault, k);
      if authorityFault(b.items[k]).Some? { return RejectedDecision(authorityFault(b.items[k]).value); }
    }
    return NewDecision(Admission(s, b, resolved.value, actorSha, batchSha));
  }

  // ------------------------------------------------------------------ committing a decision

  function DecisionMap(items: seq<DecisionItem>): map<string, Decision> {
    if items == [] then map[]
    else DecisionMap(items[..|items| - 1])[items[|items| - 1].requestId := items[|items| - 1].decision]
  }

  function DecideRequest(r: Request, d: Decision, ledgerRevision: int): Request {
    r.(requestRevision := r.requestRevision + 1, ledgerRevision := ledgerRevision, state := d.AsState())
  }

  function DecideIfNamed(r: Request, d: map<string, Decision>, ledgerRevision: int): Request {
    if r.requestId in d then DecideRequest(r, d[r.requestId], ledgerRevision) else r
  }

  function DecideAll(rs: seq<Request>, d: map<string, Decision>, ledgerRevision: int): seq<Request> {
    seq(|rs|, i requires 0 <= i < |rs| => DecideIfNamed(rs[i], d, ledgerRevision))
  }

  function ResultOf(r: Request, d: map<string, Decision>): seq<DecisionResult> {
    if r.requestId in d
    then [DecisionResult(r.requestId, r.requestRevision + 1, r.actionDigest, d[r.requestId])]
    else []
  }

  function ResultsFor(rs: seq<Request>, d: map<string, Decision>): seq<DecisionResult> {
    if rs == [] then [] else ResultsFor(rs[..|rs| - 1], d) + ResultOf(rs[|rs| - 1], d)
  }

  function PendingCount(rs: seq<Request>): nat {
    if rs == [] then 0
    else PendingCount(rs[..|rs| - 1]) + (if rs[|rs| - 1].state == Pending then 1 else 0)
  }

  function OutcomeFrom(h: Hasher, a: Admission, results: seq<DecisionResult>, remaining: nat): DecisionOutcome {
    var b, l := a.batch, a.state.files.ledger;
    var approval := HasApproval(results);
    DecisionOutcome(
      Committed, b.runId, b.decisionId, b.idempotencyKey, a.actorSha, h(SnapshotP(a.snapshot)), a.batchSha,
      b.expectedRunRevision, b.expectedRunRevision + 1, l.ledgerRevision, l.ledgerRevision + 1,
      results, remaining,
      Some(if approval then FailedWithLimitations else if remaining != 0 then ApprovalRequired else Completed),
      if approval then
        Some(Limitation(ExternalExecutorUnavailable, b.runId, b.decisionId,
                        h(IdempotencyReferenceP(b.idempotencyKey)), b.expectedRunRevision, l.ledgerRevision))
      else None,
      Some(b.decisionAt))
  }

  function RecordFrom(h: Hasher, a: Admission, o: DecisionOutcome): DecisionRecord {
    var b, f := a.batch, a.state.files;
    var partial := DecisionRecord(
      |f.decisions| + 1, f.ledger.decisionHead, b.runId, b.decisionId, b.idempotencyKey, a.actorSha,
      a.snapshot, h(SnapshotP(a.snapshot)), b, a.batchSha, o, h(DecisionOutcomeP(o)), b.decisionAt, "");
    partial.(recordSha := DecisionRecordHash(h, partial))
  }

  function EventFrom(h: Hasher, a: Admission, r: DecisionRecord): AuditEvent {
    var f := a.state.files;
    var partial := AuditEvent(
      |f.events| + 1, f.ledger.auditHead, a.batch.runId, r.outcome.currentRunRevision,
      f.ledger.ledgerRevision + 1, a.batch.decisionId, a.actorSha, h(SnapshotP(a.snapshot)), a.batchSha,
      r.recordSha, r.outcomeSha, a.batch.decisionAt, "");
    partial.(eventSha := AuditEventHash(h, partial))
  }

  function LedgerFrom(a: Admission, requests: seq<Request>, r: DecisionRecord, e: AuditEvent): Ledger {
    var f := a.state.files;
    f.ledger.(ledgerRevision := f.ledger.ledgerRevision + 1, requests := requests,
              decisionCount := |f.decisions| + 1, decisionHead := Some(r.recordSha),
              auditCount := |f.events| + 1, auditHead := Some(e.eventSha))
  }

  function DecidedRequests(a: Admission): seq<Request> {
    var l := a.state.files.ledger;
    SortBy(DecideAll(l.requests, DecisionMap(a.batch.items), l.ledgerRevision + 1), RequestLe)
  }

  function DecisionOutcomeFor(h: Hasher, a: Admission): DecisionOutcome {
    var results := SortBy(ResultsFor(a.state.files.ledger.requests, DecisionMap(a.batch.items)), ResultLe);
    OutcomeFrom(h, a, results, PendingCount(DecidedRequests(a)))
  }

  function DecisionRecordFor(h: Hasher, a: Admission): DecisionRecord {
    RecordFrom(h, a, DecisionOutcomeFor(h, a))
  }

  function AuditEventFor(h: Hasher, a: Admission): AuditEvent {
    EventFrom(h, a, DecisionRecordFor(h, a))
  }

  /** The committed artifacts. */
  function DecisionFiles(h: Hasher, a: Admission): Files {
    var f, r, e := a.state.files, DecisionRecordFor(h, a), AuditEventFor(h, a);
    Files(LedgerFrom(a, DecidedRequests(a), r, e), f.decisions + [r], f.events + [e], f.reissues)
  }

  /** Every constructed record is validated by its constructor; one failure raises. */
  predicate DecisionBuilds(h: Hasher, a: Admission) {
    && OutcomeValid(DecisionOutcomeFor(h, a))
    && DecisionRecordValid(h, DecisionRecordFor(h, a))
    && AuditEventValid(h, AuditEventFor(h, a))
    && LedgerValid(h, DecisionFiles(h, a).ledger)
  }

  method DecideRequests(h: Hasher, requests: seq<Request>, decisions: map<string, Decision>, next: int)
    returns (ok: bool, updated: seq<Request>, results: seq<DecisionResult>)
    ensures ok ==> updated == DecideAll(requests, decisions, next) && results == ResultsFor(requests, decisions)
    ensures !ok ==> exists r :: r in DecideAll(requests, decisions, next) && !RequestValid(h, r)
  {
    updated, results := [], [];
    for k := 0 to |requests|
      invariant updated == DecideAll(requests[..k], decisions, next)
      invariant results == ResultsFor(requests[..k], decisions)
    {
      var request := requests[k];
      assert requests[..k + 1][..k] == requests[..k];
      if request.requestId !in decisions {
        updated := updated + [request];
      } else {
        var decided := DecideRequest(request, decisions[request.requestId], next);
        if !RequestValid(h, decided) {
          assert DecideAll(requests, decisions, next)[k] == decided;
          return false, updated, results;
        }
        updated := updated + [decided];
        results := results + [DecisionResult(decided.requestId, decided.requestRevision, decided.actionDigest,
                                             decisions[request.requestId])];
      }
    }
    assert requests[..|requests|] == requests;
    ok := true;
  }

  lemma {:induction false} InvalidRequestBlocks(h: Hasher, a: Admission, r: Request)
    requires r in DecideAll(a.state.files.ledger.requests, DecisionMap(a.batch.items), a.state.files.ledger.ledgerRevision + 1)
    requires !RequestValid(h, r)
    ensures !LedgerValid(h, DecisionFiles(h, a).ledger)
  {
    var all := DecideAll(a.state.files.ledger.requests, DecisionMap(a.batch.items), a.state.files.ledger.ledgerRevision + 1);
    MultisetMember(all, DecidedRequests(a));
    assert r in DecidedRequests(a);
  }

  method BuildDecisionUpdate(h: Hasher, a: Admission) returns (update: Result<Files, BuildError>)
    ensures update == if DecisionBuilds(h, a) then Ok(DecisionFiles(h, a)) else Err(SchemaViolation)
  {
    hide OutcomeValid, DecisionRecordValid, AuditEventValid, LedgerValid, RequestValid, HasApproval, PendingCount;
    var f := a.state.files;
    var ok, updated, results := DecideRequests(h, f.ledger.requests, DecisionMap(a.batch.items), f.ledger.ledgerRevision + 1);
    if !ok {
      ghost var bad :| bad in DecideAll(f.ledger.requests, DecisionMap(a.batch.items), f.ledger.ledgerRevision + 1)
                       && !RequestValid(h, bad);
      InvalidRequestBlocks(h, a, bad);
      return Err(SchemaViolation);
    }
    updated := SortBy(updated, RequestLe);
    results := SortBy(results, ResultLe);
    assert updated == DecidedRequests(a);
    var outcome := OutcomeFrom(h, a, results, PendingCount(updated));
    assert outcome == DecisionOutcomeFor(h, a);
    if !OutcomeValid(outcome) { return Err(SchemaViolation); }
    var record := RecordFrom(h, a, outcome);
    if !DecisionRecordValid(h, record) { return Err(SchemaViolation); }
    var event := EventFrom(h, a, record);
    if !AuditEventValid(h, event) { return Err(SchemaViolation); }
    var ledger := LedgerFrom(a, updated, record, event);
    if !LedgerValid(h, ledger) { return Err(SchemaViolation); }
    return Ok(Files(ledger, f.decisions + [record], f.events + [event], f.reissues));
  }
}
