/** The execution recheck: an approved request is admitted to execution again only against live
    authority, and the returned binding is never already expired. */
module ApprovalRecheck {
  import opened Basics
  import opened ApprovalModels
  import opened ApprovalReader
  import opened ApprovalProjection
  import opened ApprovalIndex

  datatype ExecutionFailure =
    | ApprovalMissing | ApprovalMismatch | ExecutionExpired | AuthorityUnavailable
    | ExecutionActorSpoof | ExecutionAuthorityRevoked | UnauthorizedExecution | BindingSchema

  datatype RecheckQuery = RecheckQuery(
    runId: string,
    runRevision: int,
    pointerSha: Sha,
    manifestSha: Sha,
    requestId: string,
    plan: ActionPlan,
    live: Option<Snapshot>,
    at: Time)

  predicate Decides(r: DecisionRecord, id: string) {
    exists i :: 0 <= i < |r.outcome.results| && r.outcome.results[i].requestId == id
  }

  function Matching(ds: seq<DecisionRecord>, id: string): seq<DecisionRecord> {
    if ds == [] then []
    else Matching(ds[..|ds| - 1], id) + (if Decides(ds[|ds| - 1], id) then [ds[|ds| - 1]] else [])
  }

  function FindResult(rs: seq<DecisionResult>, id: string): Option<DecisionResult> {
    if rs == [] then None else if rs[0].requestId == id then Some(rs[0]) else FindResult(rs[1..], id)
  }

  function FindRequest(rs: seq<Request>, id: string): Option<Request> {
    if rs == [] then None else if rs[0].requestId == id then Some(rs[0]) else FindRequest(rs[1..], id)
  }

  predicate FiveValidators(h: Hasher, s: State) {
    var f := s.files;
    && s.ledgerSha == h(LedgerP(f.ledger))
    && DecisionChainOk(f.ledger, f.decisions)
    && AuditChainOk(f.ledger, f.decisions, f.events)
    && ReissueChainOk(h, f.ledger, f.reissues)
    && TimelineOk(f.ledger, f.decisions, f.reissues)
    && ProjectionOk(h, f.ledger, f.decisions, f.reissues)
  }

  /** The recorded outcome is exact evidence for the request and the run revision asked about. */
  predicate ExactEvidence(h: Hasher, q: RecheckQuery, r: Request, d: DecisionRecord, res: DecisionResult) {
    && res.decision == Approve
    && res.requestRevision == r.requestRevision
    && res.actionDigest == h(ActionPlanP(q.plan))
    && d.outcome.currentRunRevision == q.runRevision
    && d.outcome.runStatus == Some(FailedWithLimitations)
    && d.outcome.limitation.Some? && d.outcome.limitation.value.code == ExternalExecutorUnavailable
    && d.recordSha == DecisionRecordHash(h, d)
    && d.outcomeSha == h(DecisionOutcomeP(d.outcome))
  }

  predicate SameAuthority(saved: Snapshot, live: Snapshot, at: Time) {
    && live.resolvedAt == at
    && live.providerId == saved.providerId
    && live.providerVersion == saved.providerVersion
    && live.actor == saved.actor
  }

  predicate LiveAuthority(a: Actor, r: Request, at: Time) {
    && a.verified && a.revocation == NotRevoked
    && a.authorityExpiresAt.Some? && at < a.authorityExpiresAt.value
    && r.requiredScope in a.scopes
  }

  function BindingFor(h: Hasher, s: State, q: RecheckQuery, r: Request, d: DecisionRecord,
                      authorityExpiry: Time): RecheckBinding {
    var partial := RecheckBinding(
      q.runId, q.runRevision, q.pointerSha, q.manifestSha, s.ledgerSha, r.requestId, r.requestRevision, r.actionDigest,
      r.actionPlan.executionId, d.decisionId, d.recordSha, d.outcomeSha, d.actorSha, d.snapshotSha,
      d.snapshot.providerId, d.snapshot.providerVersion, q.at,
      if r.expiresAt < authorityExpiry then r.expiresAt else authorityExpiry, "");
    partial.(bindingSha := h(RecheckBindingP(partial)))
  }

  /** Everything after the request and its one record have been found. */
  function AuthorityVerdict(h: Hasher, s: State, q: RecheckQuery, r: Request,
                            d: DecisionRecord): Result<RecheckBinding, ExecutionFailure> {
    if q.live == None || !SnapshotValid(h, q.live.value) then Err(AuthorityUnavailable)
    else
      var live := q.live.value;
      if !SameAuthority(d.snapshot, live, q.at) then
        Err(if live.actor.revocation == Revoked then ExecutionAuthorityRevoked else ExecutionActorSpoof)
      else if live.actor.revocation == Revoked then Err(ExecutionAuthorityRevoked)
      else if !LiveAuthority(live.actor, r, q.at) then Err(UnauthorizedExecution)
      else
        var binding := BindingFor(h, s, q, r, d, live.actor.authorityExpiresAt.value);
        if RecheckBindingValid(h, binding) then Ok(binding) else Err(BindingSchema)
  }

  function RecheckVerdict(h: Hasher, s: State, q: RecheckQuery): Result<RecheckBinding, ExecutionFailure> {
    if !FiveValidators(h, s) then Err(ApprovalMismatch)
    else
      var found := FindRequest(s.files.ledger.requests, q.requestId);
      if s.files.ledger.runId != q.runId || found == None then Err(ApprovalMissing)
      else
        var r := found.value;
        if r.state != Approved || r.actionPlan != q.plan || r.actionDigest != h(ActionPlanP(q.plan)) then Err(ApprovalMismatch)
        else if q.at >= r.expiresAt then Err(ExecutionExpired)
        else
          var matching := Matching(s.files.decisions, q.requestId);
          if |matching| != 1 then Err(ApprovalMismatch)
          else
            var result := FindResult(matching[0].outcome.results, q.requestId);
            if result == None || !ExactEvidence(h, q, r, matching[0], result.value) then Err(ApprovalMismatch)
            else AuthorityVerdict(h, s, q, r, matching[0])
  }

  method RecheckForExecution(h: Hasher, s: State, q: RecheckQuery) returns (v: Result<RecheckBinding, ExecutionFailure>)
    ensures v == RecheckVerdict(h, s, q)
  {
    hide DecisionChainOk, AuditChainOk, ReissueChainOk, TimelineOk, ProjectionOk, ExactEvidence, AuthorityVerdict;
    var f := s.files;
    if s.ledgerSha != h(LedgerP(f.ledger)) { return Err(ApprovalMismatch); }
    var ok := ValidateDecisionChain(f.ledger, f.decisions);
    if !ok { return Err(ApprovalMismatch); }
    ok := ValidateAuditChain(f.ledger, f.decisions, f.events);
    if !ok { return Err(ApprovalMismatch); }
    ok := ValidateReissueChain(h, f.ledger, f.reissues);
    if !ok { return Err(ApprovalMismatch); }
    var fault := ValidateMutationTimeline(f.ledger, f.decisions, f.reissues);
    if fault.Some? { return Err(ApprovalMismatch); }
    ok := ValidateRequestProjection(h, f.ledger, f.decisions, f.reissues);
    if !ok { return Err(ApprovalMismatch); }
    var found := FindRequest(f.ledger.requests, q.requestId);
    if f.ledger.runId != q.runId || found == None { return Err(ApprovalMissing); }
    var r := found.value;
    if r.state != Approved || r.actionPlan != q.plan || r.actionDigest != h(ActionPlanP(q.plan)) {
      return Err(ApprovalMismatch);
    }
    if q.at >= r.expiresAt { return Err(ExecutionExpired); }
    var matching: seq<DecisionRecord> := [];
    for k := 0 to |f.decisions|
      invariant matching == Matching(f.decisions[..k], q.requestId)
    {
      assert f.decisions[..k + 1][..k] == f.decisions[..k];
      if Decides(f.decisions[k], q.requestId) { matching := matching + [f.decisions[k]]; }
    }
    assert f.decisions[..|f.decisions|] == f.decisions;
    if |matching| != 1 { return Err(ApprovalMismatch); }
    var result := FindResult(matching[0].outcome.results, q.requestId);
    if result == None || !ExactEvidence(h, q, r, matching[0], result.value) { return Err(ApprovalMismatch); }
    return AuthorityVerdict(h, s, q, r, matching[0]);
  }

  // ------------------------------------------------------------------ exactly one record

  lemma {:induction false} MatchingCount(ds: seq<DecisionRecord>, id: string)
    requires DistinctResults(DecisionResults(ds))
    ensures |Matching(ds, id)| == if id in DecidedIds(DecisionResults(ds)) then 1 else 0
    ensures |Matching(ds, id)| == 1 ==> Matching(ds, id)[0] in ds && Decides(Matching(ds, id)[0], id)
  {
    if ds != [] {
      var init, last := ds[..|ds| - 1], ds[|ds| - 1];
      var before, all := DecisionResults(init), DecisionResults(ds);
      assert all == before + last.outcome.results;
      forall i, j | 0 <= i < j < |before| ensures before[i].requestId != before[j].requestId {
        assert all[i] == before[i] && all[j] == before[j];
      }
      MatchingCount(init, id);
      assert ds == init + [last];
      DecidedConcat(before, last.outcome.results, id);
      if Decides(last, id) && id in DecidedIds(before) {
        NotTwice(before, last.outcome.results, id);
      }
    }
  }

  lemma {:induction false} DecidedConcat(a: seq<DecisionResult>, b: seq<DecisionResult>, id: string)
    ensures id in DecidedIds(a + b) <==> id in DecidedIds(a) || exists i :: 0 <= i < |b| && b[i].requestId == id
  {
    var t := a + b;
    if id in DecidedIds(a) {
      var i :| 0 <= i < |a| && a[i].requestId == id;
      assert t[i].requestId == id;
    }
    if i :| 0 <= i < |b| && b[i].requestId == id {
      assert t[|a| + i].requestId == id;
    }
  }

  lemma {:induction false} NotTwice(a: seq<DecisionResult>, b: seq<DecisionResult>, id: string)
    requires DistinctResults(a + b) && id in DecidedIds(a)
    ensures forall i :: 0 <= i < |b| ==> b[i].requestId != id
  {
    var i :| 0 <= i < |a| && a[i].requestId == id;
    forall j | 0 <= j < |b| ensures b[j].requestId != id {
      assert (a + b)[i] == a[i] && (a + b)[|a| + j] == b[j];
    }
  }

  lemma {:induction false} FindResultSound(rs: seq<DecisionResult>, id: string)
    requires exists i :: 0 <= i < |rs| && rs[i].requestId == id
    ensures FindResult(rs, id).Some? && FindResult(rs, id).value in rs && FindResult(rs, id).value.requestId == id
  {
    if rs[0].requestId != id {
      var i :| 0 <= i < |rs| && rs[i].requestId == id;
      assert rs[1..][i - 1].requestId == id;
      FindResultSound(rs[1..], id);
    }
  }

  lemma {:induction false} FindRequestSound(rs: seq<Request>, id: string)
    ensures FindRequest(rs, id).Some? ==> FindRequest(rs, id).value in rs && FindRequest(rs, id).value.requestId == id
  {
    if rs != [] && rs[0].requestId != id {
      FindRequestSound(rs[1..], id);
    }
  }

  /** In a state the reader accepts, an approved request has exactly one decision record, and that
      record is exact evidence in every respect except, possibly, the run revision asked about. */
  lemma {:induction false} ApprovedHasOneRecord(h: Hasher, f: Files, r: Request)
    requires Accepts(h, f) && r in f.ledger.requests && r.state == Approved
    ensures var matching := Matching(f.decisions, r.requestId);
            && |matching| == 1
            && var d, found := matching[0], FindResult(matching[0].outcome.results, r.requestId);
               && d in f.decisions && DecisionRecordValid(h, d) && found.Some?
               && (forall q: RecheckQuery | q.plan == r.actionPlan ::
                     ExactEvidence(h, q, r, d, found.value) <==> d.outcome.currentRunRevision == q.runRevision)
               && found.value.requestRevision == r.requestRevision >= 2
               && d.outcome.currentRunRevision >= 2
  {
    var flat := DecisionResults(f.decisions);
    ApprovedIsDecided(h, f, r);
    MatchingCount(f.decisions, r.requestId);
    var d := Matching(f.decisions, r.requestId)[0];
    FindResultSound(d.outcome.results, r.requestId);
    var res := FindResult(d.outcome.results, r.requestId).value;
    RecordEvidence(h, f, r, d, res);
  }

  lemma {:induction false} ApprovedIsDecided(h: Hasher, f: Files, r: Request)
    requires Accepts(h, f) && r in f.ledger.requests && r.state == Approved
    ensures r.requestId in DecidedIds(DecisionResults(f.decisions)) && DistinctResults(DecisionResults(f.decisions))
    ensures RequestValid(h, r) && DistinctRequests(f.ledger.requests)
    ensures ProjectionOk(h, f.ledger, f.decisions, f.reissues)
  {
    assert Explained(r, DecidedIds(DecisionResults(f.decisions)), SupersededIds(ReissueResults(f.reissues)));
  }

  lemma {:induction false} RecordEvidence(h: Hasher, f: Files, r: Request, d: DecisionRecord, res: DecisionResult)
    requires Accepts(h, f) && r in f.ledger.requests && r.state == Approved
    requires d in f.decisions && res in d.outcome.results && res.requestId == r.requestId
    ensures DecisionRecordValid(h, d)
    ensures res.decision == Approve && res.requestRevision == r.requestRevision >= 2 && res.actionDigest == r.actionDigest
    ensures r.actionDigest == h(ActionPlanP(r.actionPlan))
    ensures d.outcome.runStatus == Some(FailedWithLimitations)
    ensures d.outcome.limitation.Some? && d.outcome.limitation.value.code == ExternalExecutorUnavailable
    ensures d.recordSha == DecisionRecordHash(h, d) && d.outcomeSha == h(DecisionOutcomeP(d.outcome))
    ensures d.outcome.currentRunRevision >= 2
  {
    hide TimelineOk, AuditChainOk, ReissueChainOk;
    ResultProjected(h, f, d, res);
    ApprovedIsDecided(h, f, r);
    IndexComplete(f.ledger.requests, r);
    var k :| 0 <= k < |f.decisions| && f.decisions[k] == d;
    assert DecisionLinked(f.ledger, f.decisions, k);
    RecordFacts(h, d, res);
  }

  lemma {:induction false} RecordFacts(h: Hasher, d: DecisionRecord, res: DecisionResult)
    requires DecisionRecordValid(h, d) && d.outcome.kind == Committed && res in d.outcome.results && res.decision == Approve
    ensures res.requestRevision >= 2
    ensures d.outcome.runStatus == Some(FailedWithLimitations)
    ensures d.outcome.limitation.Some? && d.outcome.limitation.value.code == ExternalExecutorUnavailable
    ensures d.recordSha == DecisionRecordHash(h, d) && d.outcomeSha == h(DecisionOutcomeP(d.outcome))
    ensures d.outcome.currentRunRevision >= 2
  {
    var i :| 0 <= i < |d.outcome.results| && d.outcome.results[i] == res;
    assert ItemMatches(d.batch.items[i], d.outcome.results[i]);
    assert HasApproval(d.outcome.results);
  }

  lemma {:induction false} ResultProjected(h: Hasher, f: Files, d: DecisionRecord, res: DecisionResult)
    requires ProjectionOk(h, f.ledger, f.decisions, f.reissues)
    requires d in f.decisions && res in d.outcome.results
    ensures DecisionProjected(Index(f.ledger.requests), res)
  {
    var flat := DecisionResults(f.decisions);
    var k :| 0 <= k < |f.decisions| && f.decisions[k] == d;
    assert res in DecisionResultsOf(f.decisions[k]);
    FlatMapMember(DecisionResultsOf, f.decisions, res);
    assert res in flat;
    var i :| 0 <= i < |flat| && flat[i] == res;
  }

  // ------------------------------------------------------------------ the recheck

  lemma {:induction false} FindRequestUnique(rs: seq<Request>, r: Request)
    requires DistinctRequests(rs) && r in rs
    ensures FindRequest(rs, r.requestId) == Some(r)
  {
    if rs[0] != r {
      var k :| 0 <= k < |rs| && rs[k] == r;
      assert rs[0].requestId != rs[k].requestId;
      assert rs[1..][k - 1] == r;
      FindRequestUnique(rs[1..], r);
    }
  }

  /** The request asked about, approved for this very plan and alive, and the record that decided it, in
      the run and at the run revision asked about. */
  ghost predicate ApprovedBy(s: State, q: RecheckQuery, r: Request, d: DecisionRecord) {
    && s.files.ledger.runId == q.runId
    && r in s.files.ledger.requests && r.requestId == q.requestId
    && r.state == Approved && r.actionPlan == q.plan && q.at < r.expiresAt
    && d in s.files.decisions && (exists i :: 0 <= i < |d.outcome.results| && d.outcome.results[i].requestId == q.requestId)
    && d.outcome.currentRunRevision == q.runRevision
  }

  /** The provider answers now, as then, with the actor who decided, and that actor still may approve. */
  ghost predicate StillAuthorized(h: Hasher, q: RecheckQuery, d: DecisionRecord) {
    && q.live.Some?
    && var live := q.live.value;
       && ActorValid(live.actor) && live.actorSha == h(ActorP(live.actor))
       && live.resolvedAt == q.at
       && live.providerId == d.snapshot.providerId && live.providerVersion == d.snapshot.providerVersion
       && live.actor == d.batch.actor
       && live.actor.verified && live.actor.revocation == NotRevoked
       && live.actor.authorityExpiresAt.Some? && q.at < live.actor.authorityExpiresAt.value
       && "approve:" + q.plan.category in live.actor.scopes
  }

  /** What the recheck finds for an approved request: the one record, its actor, the scope it needs. */
  lemma {:induction false} RecordOf(h: Hasher, s: State, r: Request, d: DecisionRecord)
    requires Accepts(h, s.files) && r in s.files.ledger.requests && r.state == Approved
    requires d in s.files.decisions && exists i :: 0 <= i < |d.outcome.results| && d.outcome.results[i].requestId == r.requestId
    ensures FindRequest(s.files.ledger.requests, r.requestId) == Some(r)
    ensures Matching(s.files.decisions, r.requestId) == [d]
    ensures r.actionDigest == h(ActionPlanP(r.actionPlan)) && r.requiredScope == "approve:" + r.actionPlan.category
    ensures d.snapshot.actor == d.batch.actor && d.actorSha == h(ActorP(d.batch.actor))
    ensures d.snapshotSha == h(SnapshotP(d.snapshot)) && d.outcomeSha == h(DecisionOutcomeP(d.outcome))
    ensures d.recordSha == h(DecisionRecordP(d.(recordSha := "")))
  {
    hide Accepts, DistinctRequests, RequestValid, DecisionRecordValid, Matching, ExactEvidence;
    ApprovedHasOneRecord(h, s.files, r);
    ApprovedIsDecided(h, s.files, r);
    FindRequestUnique(s.files.ledger.requests, r);
    MatchingMember(s.files.decisions, r.requestId, d);
    RecordHashes(h, d);
    RequestDigest(h, r);
  }

  lemma {:induction false} RecordHashes(h: Hasher, d: DecisionRecord)
    requires DecisionRecordValid(h, d)
    ensures d.snapshot.actor == d.batch.actor && d.actorSha == h(ActorP(d.batch.actor))
    ensures d.snapshotSha == h(SnapshotP(d.snapshot)) && d.outcomeSha == h(DecisionOutcomeP(d.outcome))
    ensures d.recordSha == h(DecisionRecordP(d.(recordSha := "")))
  {
  }

  lemma {:induction false} RequestDigest(h: Hasher, r: Request)
    requires RequestValid(h, r)
    ensures r.actionDigest == h(ActionPlanP(r.actionPlan)) && r.requiredScope == "approve:" + r.actionPlan.category
  {
  }

  lemma {:induction false} MatchingMember(ds: seq<DecisionRecord>, id: string, d: DecisionRecord)
    requires d in ds && Decides(d, id)
    ensures d in Matching(ds, id)
  {
    var init, last := ds[..|ds| - 1], ds[|ds| - 1];
    assert ds == init + [last];
    if d in init { MatchingMember(init, id, d); }
  }

  /** On an accepted state every answer about an approved request follows from what was recorded and what
      the provider says now. */
  lemma {:induction false} RecheckAnswers(h: Hasher, s: State, q: RecheckQuery, r: Request, d: DecisionRecord)
    requires Accepts(h, s.files) && s.ledgerSha == h(LedgerP(s.files.ledger)) && s.files.ledger.runId == q.runId
    requires r in s.files.ledger.requests && r.requestId == q.requestId && r.state == Approved
    requires d in s.files.decisions && exists i :: 0 <= i < |d.outcome.results| && d.outcome.results[i].requestId == q.requestId
    ensures var v := RecheckVerdict(h, s, q);
            if r.actionPlan != q.plan then v == Err(ApprovalMismatch)
            else if q.at >= r.expiresAt then v == Err(ExecutionExpired)
            else if d.outcome.currentRunRevision != q.runRevision then v == Err(ApprovalMismatch)
            else if q.live == None || !ActorValid(q.live.value.actor) || q.live.value.actorSha != h(ActorP(q.live.value.actor))
            then v == Err(AuthorityUnavailable)
            else if q.live.value.actor.revocation == Revoked then v == Err(ExecutionAuthorityRevoked)
            else if || q.live.value.resolvedAt != q.at || q.live.value.actor != d.batch.actor
                    || q.live.value.providerId != d.snapshot.providerId
                    || q.live.value.providerVersion != d.snapshot.providerVersion
            then v == Err(ExecutionActorSpoof)
            else if !StillAuthorized(h, q, d) then v == Err(UnauthorizedExecution)
            else v.Ok?
  {
    hide Accepts, Matching, ActorValid, DecisionRecordValid, FiveValidators, ActorValid;
    AcceptedPassesFive(h, s);
    ApprovedHasOneRecord(h, s.files, r);
    RecordOf(h, s, r, d);
  }

  /** Without such a request in that run the answer is that the approval is missing, and one that is not
      approved does not match. */
  lemma {:induction false} RecheckRefusesUnapproved(h: Hasher, s: State, q: RecheckQuery)
    requires Accepts(h, s.files) && s.ledgerSha == h(LedgerP(s.files.ledger))
    ensures RecheckVerdict(h, s, q) == Err(ApprovalMissing) <==>
              s.files.ledger.runId != q.runId || forall r :: r in s.files.ledger.requests ==> r.requestId != q.requestId
    ensures s.files.ledger.runId == q.runId ==>
              forall r :: r in s.files.ledger.requests && r.requestId == q.requestId && r.state != Approved ==>
                RecheckVerdict(h, s, q) == Err(ApprovalMismatch)
  {
    hide Matching, ExactEvidence, AuthorityVerdict;
    AcceptedPassesFive(h, s);
    FindRequestSound(s.files.ledger.requests, q.requestId);
    forall r | r in s.files.ledger.requests && r.requestId == q.requestId
      ensures FindRequest(s.files.ledger.requests, q.requestId) == Some(r)
    {
      AcceptedParts(h, s.files);
      FindRequestUnique(s.files.ledger.requests, r);
    }
    AuthorityIsNotMissing(h, s, q);
  }

  lemma {:induction false} AuthorityIsNotMissing(h: Hasher, s: State, q: RecheckQuery)
    ensures forall r, d :: AuthorityVerdict(h, s, q, r, d) != Err(ApprovalMissing)
  {
  }

  /** On an accepted state the recheck returns a binding exactly when the request exists in that
      run, is approved for this very plan, is not expired, was decided at the run revision asked
      about, and the actor who decided it is the one the provider answers with now and still may. */
  lemma {:induction false} RecheckSucceedsExactlyWhen(h: Hasher, s: State, q: RecheckQuery)
    requires Accepts(h, s.files) && s.ledgerSha == h(LedgerP(s.files.ledger))
    ensures RecheckVerdict(h, s, q).Ok? <==> exists r, d :: ApprovedBy(s, q, r, d) && StillAuthorized(h, q, d)
  {
    hide Accepts, FiveValidators, ExactEvidence, AuthorityVerdict, StillAuthorized;
    if r, d :| ApprovedBy(s, q, r, d) && StillAuthorized(h, q, d) {
      RecheckAnswers(h, s, q, r, d);
      NotSpoofed(h, q, d);
    }
    if RecheckVerdict(h, s, q).Ok? {
      FindRequestSound(s.files.ledger.requests, q.requestId);
      var r := FindRequest(s.files.ledger.requests, q.requestId).value;
      ApprovedHasOneRecord(h, s.files, r);
      var d := Matching(s.files.decisions, r.requestId)[0];
      MatchingIsRecorded(s.files.decisions, r.requestId);
      assert Decides(d, q.requestId);
      RecheckAnswers(h, s, q, r, d);
      assert ApprovedBy(s, q, r, d) && StillAuthorized(h, q, d);
    }
  }

  lemma {:induction false} MatchingIsRecorded(ds: seq<DecisionRecord>, id: string)
    ensures forall d :: d in Matching(ds, id) ==> d in ds && Decides(d, id)
  {
    if ds != [] {
      MatchingIsRecorded(ds[..|ds| - 1], id);
    }
  }

  lemma {:induction false} NotSpoofed(h: Hasher, q: RecheckQuery, d: DecisionRecord)
    requires StillAuthorized(h, q, d)
    ensures q.live.Some? && ActorValid(q.live.value.actor) && q.live.value.actorSha == h(ActorP(q.live.value.actor))
    ensures q.live.value.resolvedAt == q.at && q.live.value.actor == d.batch.actor
    ensures q.live.value.providerId == d.snapshot.providerId && q.live.value.providerVersion == d.snapshot.providerVersion
    ensures q.live.value.actor.revocation != Revoked
  {
  }

  /** Every field of a returned binding: the query, the state read, the request, and the record of its decision. */
  lemma {:induction false} BindingIsExact(h: Hasher, s: State, q: RecheckQuery, r: Request, d: DecisionRecord)
    requires Accepts(h, s.files) && s.ledgerSha == h(LedgerP(s.files.ledger))
    requires ApprovedBy(s, q, r, d) && StillAuthorized(h, q, d)
    ensures RecheckVerdict(h, s, q).Ok?
    ensures var b := RecheckVerdict(h, s, q).value;
            && b.runId == q.runId && b.runRevision == q.runRevision
            && b.pointerSha == q.pointerSha && b.manifestSha == q.manifestSha
            && b.ledgerSha == h(LedgerP(s.files.ledger))
            && b.requestId == q.requestId && b.requestRevision == r.requestRevision
            && b.actionDigest == h(ActionPlanP(q.plan)) && b.executionId == q.plan.executionId
            && b.decisionId == d.decisionId && b.decisionRecordSha == h(DecisionRecordP(d.(recordSha := "")))
            && b.decisionOutcomeSha == h(DecisionOutcomeP(d.outcome))
            && b.actorSha == h(ActorP(q.live.value.actor)) && b.snapshotSha == h(SnapshotP(d.snapshot))
            && b.providerId == q.live.value.providerId && b.providerVersion == q.live.value.providerVersion
            && b.recheckedAt == q.at
            && b.validUntil <= r.expiresAt && b.validUntil <= q.live.value.actor.authorityExpiresAt.value
            && (b.validUntil == r.expiresAt || b.validUntil == q.live.value.actor.authorityExpiresAt.value)
            && b.bindingSha == h(RecheckBindingP(b.(bindingSha := "")))
  {
    hide Accepts, FiveValidators, ExactEvidence, Matching, ActorValid;
    RecheckAnswers(h, s, q, r, d);
    RecordOf(h, s, r, d);
    var b := RecheckVerdict(h, s, q).value;
    assert b.(bindingSha := "") == b.(bindingSha := "").(bindingSha := "");
  }

  lemma {:induction false} ApprovedDigest(h: Hasher, f: Files, r: Request)
    requires Accepts(h, f) && r in f.ledger.requests
    ensures r.actionDigest == h(ActionPlanP(r.actionPlan))
  {
    assert RequestValid(h, r);
  }

  lemma {:induction false} AcceptedPassesFive(h: Hasher, s: State)
    requires Accepts(h, s.files) && s.ledgerSha == h(LedgerP(s.files.ledger))
    ensures FiveValidators(h, s)
  {
  }

  /** A returned binding is for the request asked about, starts now, ends later, and neither the
      request nor the authority expires inside its window. */
  lemma {:induction false} BindingWindow(h: Hasher, s: State, q: RecheckQuery, t: Time)
    requires RecheckVerdict(h, s, q).Ok?
    ensures var b, r := RecheckVerdict(h, s, q).value, FindRequest(s.files.ledger.requests, q.requestId);
            && RecheckBindingValid(h, b)
            && b.requestId == q.requestId && b.actionDigest == h(ActionPlanP(q.plan)) && b.recheckedAt == q.at < b.validUntil
            && r.Some? && q.live.Some?
            && (t < b.validUntil ==> t < r.value.expiresAt)
            && (t < b.validUntil ==> q.live.value.actor.authorityExpiresAt.Some? && t < q.live.value.actor.authorityExpiresAt.value)
  {
    hide FiveValidators, ExactEvidence, SnapshotValid, Matching;
    FindRequestSound(s.files.ledger.requests, q.requestId);
  }

  /** Whatever ledger and logs the state holds, well formed or not: a returned binding rests on the one record that
      names the request, on an approval in it of this request and plan, and on both its digests as recomputed. */
  lemma {:induction false} BindingRestsOnEvidence(h: Hasher, s: State, q: RecheckQuery)
    requires RecheckVerdict(h, s, q).Ok?
    ensures var f := s.files;
            && s.ledgerSha == h(LedgerP(f.ledger)) && f.ledger.runId == q.runId
            && DecisionChainOk(f.ledger, f.decisions) && AuditChainOk(f.ledger, f.decisions, f.events)
            && ReissueChainOk(h, f.ledger, f.reissues) && TimelineOk(f.ledger, f.decisions, f.reissues)
            && ProjectionOk(h, f.ledger, f.decisions, f.reissues)
    ensures exists r, d, res ::
              && r in s.files.ledger.requests && r.requestId == q.requestId && r.state == Approved
              && d in s.files.decisions && res in d.outcome.results && res.requestId == q.requestId
              && (forall o, i | o in s.files.decisions && 0 <= i < |o.outcome.results| ::
                    o.outcome.results[i].requestId == q.requestId ==> o == d)
              && res.decision == Approve && res.requestRevision == r.requestRevision
              && r.actionPlan == q.plan && r.actionDigest == res.actionDigest == h(ActionPlanP(q.plan))
              && d.outcome.currentRunRevision == q.runRevision && d.outcome.runStatus == Some(FailedWithLimitations)
              && d.outcome.limitation.Some? && d.outcome.limitation.value.code == ExternalExecutorUnavailable
              && d.recordSha == h(DecisionRecordP(d.(recordSha := ""))) && d.outcomeSha == h(DecisionOutcomeP(d.outcome))
              && q.live.Some? && q.live.value.actor == d.snapshot.actor
  {
    hide DecisionChainOk, AuditChainOk, ReissueChainOk, TimelineOk, ProjectionOk, SnapshotValid, RecheckBindingValid, BindingFor,
         LiveAuthority, Matching, FindRequest;
    FindRequestSound(s.files.ledger.requests, q.requestId);
    var r := FindRequest(s.files.ledger.requests, q.requestId).value;
    var matching := Matching(s.files.decisions, q.requestId);
    var d := matching[0];
    MatchingIsRecorded(s.files.decisions, q.requestId);
    assert Decides(d, q.requestId) && d in s.files.decisions;
    FindResultSound(d.outcome.results, q.requestId);
    var res := FindResult(d.outcome.results, q.requestId).value;
    forall o, i | o in s.files.decisions && 0 <= i < |o.outcome.results|
      ensures o.outcome.results[i].requestId == q.requestId ==> o == d
    {
      if o.outcome.results[i].requestId == q.requestId {
        assert Decides(o, q.requestId);
        MatchingMember(s.files.decisions, q.requestId, o);
      }
    }
    assert ExactEvidence(h, q, r, d, res);
  }
}
