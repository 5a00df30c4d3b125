/** The reader's last validator: every request in the ledger is explained by the two logs, and
    every logged result is visible in the ledger. */
module ApprovalProjection {
  import opened Basics
  import opened ApprovalModels
  import opened ApprovalReader

  /** The dictionary of requests by identifier; a later entry replaces an earlier one. */
  function Index(rs: seq<Request>): map<string, Request> {
    if rs == [] then map[]
    else Index(rs[..|rs| - 1])[rs[|rs| - 1].requestId := rs[|rs| - 1]]
  }

  function DecisionResultsOf(r: DecisionRecord): seq<DecisionResult> { r.outcome.results }

  function DecisionResults(ds: seq<DecisionRecord>): seq<DecisionResult> {
    FlatMap(DecisionResultsOf, ds)
  }

  /** A request as it was when it was pending at the given revisions. */
  function AsPending(r: Request, revision: int, ledgerRevision: int): Request {
    r.(requestRevision := revision, ledgerRevision := ledgerRevision, state := Pending, supersessionReference := None)
  }

  predicate DecisionProjected(m: map<string, Request>, res: DecisionResult) {
    && res.requestId in m
    && m[res.requestId].actionDigest == res.actionDigest
    && m[res.requestId].requestRevision == res.requestRevision
    && m[res.requestId].state == res.decision.AsState()
  }

  predicate AllDecisionsProjected(m: map<string, Request>, rs: seq<DecisionResult>) {
    forall i :: 0 <= i < |rs| ==> DecisionProjected(m, rs[i])
  }

  predicate SuccessorProjected(h: Hasher, m: map<string, Request>, res: ReissueResult) {
    && res.successorId in m
    && var s := m[res.successorId];
       && s.requestRevision >= res.successorRevision
       && s.ledgerRevision >= res.successorLedgerRevision
       && s.createdRunRevision == res.successorCreatedRunRevision
       && s.actionDigest == res.successorDigest
       && h(RequestP(AsPending(s, res.successorRevision, res.successorLedgerRevision))) == res.successorSha
  }

  predicate SourceProjected(h: Hasher, runId: string, m: map<string, Request>,
                            legacy: seq<V1Snapshot>, res: ReissueResult) {
    if res.source.kind == HistoricalV1 then
      && res.source.snapshot.Some?
      && res.source.snapshot.value.runId == runId
      && res.source.snapshot.value in legacy
    else
      && res.source.sourceId in m
      && res.source.sourceRevision.Some?
      && res.source.sourceLedgerRevision.Some?
      && var s := m[res.source.sourceId];
         && s.state == Superseded
         && s.requestRevision == res.source.sourceRevision.value + 1
         && Some(s.actionDigest) == res.source.sourceDigest
         && s.supersessionReference == Some(res.successorId)
         && h(RequestP(AsPending(s, res.source.sourceRevision.value, res.source.sourceLedgerRevision.value)))
            == res.source.sourceSha
  }

  predicate ItemIdentifies(item: ReissueItem, res: ReissueResult) {
    item.sourceId == res.source.sourceId && item.kind == res.source.kind
  }

  predicate PairProjected(h: Hasher, runId: string, m: map<string, Request>, legacy: seq<V1Snapshot>,
                          item: ReissueItem, res: ReissueResult) {
    && ItemIdentifies(item, res)
    && SuccessorProjected(h, m, res)
    && SourceProjected(h, runId, m, legacy, res)
  }

  predicate ReissueProjected(h: Hasher, runId: string, m: map<string, Request>, r: ReissueRecord) {
    && |r.batch.items| == |r.outcome.results|
    && forall i :: 0 <= i < |r.outcome.results| ==>
         PairProjected(h, runId, m, r.legacyProjection, r.batch.items[i], r.outcome.results[i])
  }

  predicate DistinctSuccessors(rs: seq<ReissueResult>) {
    forall i, j :: 0 <= i < j < |rs| ==> rs[i].successorId != rs[j].successorId
  }

  predicate DistinctSources(rs: seq<ReissueResult>) {
    forall i, j :: 0 <= i < j < |rs| && rs[i].source.kind == ApprovalV2 && rs[j].source.kind == ApprovalV2 ==>
      rs[i].source.sourceId != rs[j].source.sourceId
  }

  function DecidedIds(rs: seq<DecisionResult>): set<string> {
    set i | 0 <= i < |rs| :: rs[i].requestId
  }

  function SuccessorIds(rs: seq<ReissueResult>): set<string> {
    set i | 0 <= i < |rs| :: rs[i].successorId
  }

  function SupersededIds(rs: seq<ReissueResult>): set<string> {
    set i | 0 <= i < |rs| && rs[i].source.kind == ApprovalV2 :: rs[i].source.sourceId
  }

  predicate Explained(r: Request, decided: set<string>, superseded: set<string>) {
    && (r.state == Approved || r.state == Rejected ==> r.requestId in decided)
    && (r.state == Pending ==> r.requestId !in decided)
    && (r.state == Superseded ==> r.requestId in superseded)
    && !(r.requestId in decided && r.requestId in superseded)
  }

  predicate ProjectionOk(h: Hasher, l: Ledger, ds: seq<DecisionRecord>, rs: seq<ReissueRecord>) {
    var m := Index(l.requests);
    && AllDecisionsProjected(m, DecisionResults(ds))
    && DistinctResults(DecisionResults(ds))
    && (forall i :: 0 <= i < |rs| ==> ReissueProjected(h, l.runId, m, rs[i]))
    && DistinctSuccessors(ReissueResults(rs))
    && DistinctSources(ReissueResults(rs))
    && (forall r :: r in l.requests ==>
          Explained(r, DecidedIds(DecisionResults(ds)), SupersededIds(ReissueResults(rs))))
  }

  // ------------------------------------------------------------------ the validator

  lemma {:induction false} DecidedIdsSnoc(s: seq<DecisionResult>, x: DecisionResult)
    ensures DecidedIds(s + [x]) == DecidedIds(s) + {x.requestId}
  {
    var t := s + [x];
    forall i | 0 <= i < |s| ensures s[i].requestId in DecidedIds(t) { assert t[i] == s[i]; }
    assert t[|s|] == x;
  }

  /** One record's results, taken after the results `before` of the earlier records. */
  method CollectDecisionResults(m: map<string, Request>, results: seq<DecisionResult>,
                                ghost before: seq<DecisionResult>, decided: set<string>)
    returns (ok: bool, decided': set<string>)
    requires decided == DecidedIds(before) && DistinctResults(before)
    ensures ok <==> AllDecisionsProjected(m, results) && DistinctResults(before + results)
    ensures ok ==> decided' == DecidedIds(before + results)
  {
    decided' := decided;
    assert before + results[..0] == before;
    for j := 0 to |results|
      invariant AllDecisionsProjected(m, results[..j])
      invariant DistinctResults(before + results[..j])
      invariant decided' == DecidedIds(before + results[..j])
    {
      ghost var now := before + results[..j];
      assert before + results[..j + 1] == now + [results[j]];
      assert (before + results)[|now|] == results[j] && (before + results)[..|now|] == now;
      if results[j].requestId in decided' || !DecisionProjected(m, results[j]) {
        ok := false;
        return;
      }
      DecidedIdsSnoc(now, results[j]);
      decided' := decided' + {results[j].requestId};
    }
    assert results[..|results|] == results;
    ok := true;
  }

  lemma {:induction false} DistinctResultsPrefix(a: seq<DecisionResult>, b: seq<DecisionResult>)
    requires a <= b && DistinctResults(b)
    ensures DistinctResults(a)
  {
    forall i, j | 0 <= i < j < |a| ensures a[i].requestId != a[j].requestId {
      assert a[i] == b[i] && a[j] == b[j];
    }
  }

  lemma {:induction false} PrefixAndPart(a: seq<DecisionResult>, results: seq<DecisionResult>,
                                        flat: seq<DecisionResult>, m: map<string, Request>)
    requires a + results <= flat && AllDecisionsProjected(m, flat) && DistinctResults(flat)
    ensures AllDecisionsProjected(m, results) && DistinctResults(a + results)
  {
    DistinctResultsPrefix(a + results, flat);
    forall j | 0 <= j < |results| ensures DecisionProjected(m, results[j]) {
      assert flat[|a| + j] == (a + results)[|a| + j];
    }
  }

  method CollectDecided(m: map<string, Request>, ds: seq<DecisionRecord>)
    returns (ok: bool, decided: set<string>)
    ensures ok <==> AllDecisionsProjected(m, DecisionResults(ds)) && DistinctResults(DecisionResults(ds))
    ensures ok ==> decided == DecidedIds(DecisionResults(ds))
  {
    decided := {};
    for k := 0 to |ds|
      invariant AllDecisionsProjected(m, DecisionResults(ds[..k]))
      invariant DistinctResults(DecisionResults(ds[..k]))
      invariant decided == DecidedIds(DecisionResults(ds[..k]))
    {
      ghost var before := DecisionResults(ds[..k]);
      FlatMapPrefix(DecisionResultsOf, ds, k);
      FlatMapSnoc(DecisionResultsOf, ds[..k], ds[k]);
      assert ds[..k + 1] == ds[..k] + [ds[k]];
      ok, decided := CollectDecisionResults(m, ds[k].outcome.results, before, decided);
      if !ok {
        if AllDecisionsProjected(m, DecisionResults(ds)) && DistinctResults(DecisionResults(ds)) {
          PrefixAndPart(before, ds[k].outcome.results, DecisionResults(ds), m);
        }
        return;
      }
    }
    assert ds[..|ds|] == ds;
    ok := true;
  }

  lemma {:induction false} ReissueIdsSnoc(s: seq<ReissueResult>, x: ReissueResult)
    ensures SuccessorIds(s + [x]) == SuccessorIds(s) + {x.successorId}
    ensures SupersededIds(s + [x])
         == SupersededIds(s) + (if x.source.kind == ApprovalV2 then {x.source.sourceId} else {})
  {
    var t := s + [x];
    assert t[|s|] == x;
    forall i | 0 <= i < |s|
      ensures s[i].successorId in SuccessorIds(t)
      ensures s[i].source.kind == ApprovalV2 ==> s[i].source.sourceId in SupersededIds(t)
    {
      assert t[i] == s[i];
    }
  }

  method CollectReissueResults(h: Hasher, runId: string, m: map<string, Request>, r: ReissueRecord,
                               ghost before: seq<ReissueResult>, successors: set<string>, superseded: set<string>)
    returns (ok: bool, successors': set<string>, superseded': set<string>)
    requires |r.batch.items| == |r.outcome.results|
    requires successors == SuccessorIds(before) && superseded == SupersededIds(before)
    requires DistinctSuccessors(before) && DistinctSources(before)
    ensures ok <==> && (forall i :: 0 <= i < |r.outcome.results| ==>
                          PairProjected(h, runId, m, r.legacyProjection, r.batch.items[i], r.outcome.results[i]))
                    && DistinctSuccessors(before + r.outcome.results)
                    && DistinctSources(before + r.outcome.results)
    ensures ok ==> successors' == SuccessorIds(before + r.outcome.results)
    ensures ok ==> superseded' == SupersededIds(before + r.outcome.results)
  {
    var results := r.outcome.results;
    successors', superseded' := successors, superseded;
    ghost var all := before + results;
    assert all[..|before|] == before;
    for j := 0 to |results|
      invariant forall i :: 0 <= i < j ==> PairProjected(h, runId, m, r.legacyProjection, r.batch.items[i], results[i])
      invariant DistinctSuccessors(all[..|before| + j])
      invariant DistinctSources(all[..|before| + j])
      invariant successors' == SuccessorIds(all[..|before| + j])
      invariant superseded' == SupersededIds(all[..|before| + j])
    {
      var item, result := r.batch.items[j], results[j];
      ghost var now := all[..|before| + j];
      assert all[|before| + j] == result && all[..|before| + j + 1] == now + [result];
      if !ItemIdentifies(item, result) || result.successorId in successors'
         || !SuccessorProjected(h, m, result) {
        ok := false;
        return;
      }
      ReissueIdsSnoc(now, result);
      successors' := successors' + {result.successorId};
      if !SourceProjected(h, runId, m, r.legacyProjection, result) {
        ok := false;
        return;
      }
      if result.source.kind == ApprovalV2 {
        if result.source.sourceId in superseded' {
          ok := false;
          return;
        }
        superseded' := superseded' + {result.source.sourceId};
      }
    }
    assert all[..|all|] == all;
    ok := true;
  }

  lemma {:induction false} DistinctReissuePrefix(a: seq<ReissueResult>, b: seq<ReissueResult>)
    requires a <= b
    ensures DistinctSuccessors(b) ==> DistinctSuccessors(a)
    ensures DistinctSources(b) ==> DistinctSources(a)
  {
    assert forall i :: 0 <= i < |a| ==> a[i] == b[i];
  }

  ghost predicate ReissuesProjected(h: Hasher, runId: string, m: map<string, Request>, rs: seq<ReissueRecord>) {
    && (forall i :: 0 <= i < |rs| ==> ReissueProjected(h, runId, m, rs[i]))
    && DistinctSuccessors(ReissueResults(rs))
    && DistinctSources(ReissueResults(rs))
  }

  lemma {:induction false} ReissuesProjectedPrefix(h: Hasher, runId: string, m: map<string, Request>,
                                        rs: seq<ReissueRecord>, k: nat)
    requires k < |rs|
    ensures ReissueResults(rs[..k + 1]) == ReissueResults(rs[..k]) + rs[k].outcome.results
    ensures ReissuesProjected(h, runId, m, rs) ==> ReissuesProjected(h, runId, m, rs[..k + 1])
    ensures ReissuesProjected(h, runId, m, rs[..k + 1]) <==>
              && ReissuesProjected(h, runId, m, rs[..k])
              && ReissueProjected(h, runId, m, rs[k])
              && DistinctSuccessors(ReissueResults(rs[..k]) + rs[k].outcome.results)
              && DistinctSources(ReissueResults(rs[..k]) + rs[k].outcome.results)
  {
    var before, results := ReissueResults(rs[..k]), rs[k].outcome.results;
    FlatMapPrefix(ReissueResultsOf, rs, k);
    FlatMapSnoc(ReissueResultsOf, rs[..k], rs[k]);
    assert rs[..k + 1] == rs[..k] + [rs[k]];
    DistinctReissuePrefix(before + results, ReissueResults(rs));
    DistinctReissuePrefix(before, before + results);
    var t := rs[..k + 1];
    assert t[k] == rs[k];
    assert forall i :: 0 <= i < k ==> t[i] == rs[..k][i];
  }

  method CollectReissued(h: Hasher, runId: string, m: map<string, Request>, rs: seq<ReissueRecord>)
    returns (ok: bool, superseded: set<string>)
    ensures ok <==> ReissuesProjected(h, runId, m, rs)
    ensures ok ==> superseded == SupersededIds(ReissueResults(rs))
  {
    superseded := {};
    var successors: set<string> := {};
    for k := 0 to |rs|
      invariant ReissuesProjected(h, runId, m, rs[..k])
      invariant successors == SuccessorIds(ReissueResults(rs[..k]))
      invariant superseded == SupersededIds(ReissueResults(rs[..k]))
    {
      var items, results := rs[k].batch.items, rs[k].outcome.results;
      ReissuesProjectedPrefix(h, runId, m, rs, k);
      if |items| != |results| {
        assert !ReissueProjected(h, runId, m, rs[k]);
        return false, superseded;
      }
      if i :| 0 <= i < |items| && items[i].sourceId != results[i].source.sourceId {
        assert !PairProjected(h, runId, m, rs[k].legacyProjection, items[i], results[i]);
        return false, superseded;
      }
      ok, successors, superseded :=
        CollectReissueResults(h, runId, m, rs[k], ReissueResults(rs[..k]), successors, superseded);
      if !ok { return; }
    }
    assert rs[..|rs|] == rs;
    ok := true;
  }

  method ValidateRequestProjection(h: Hasher, l: Ledger, ds: seq<DecisionRecord>, rs: seq<ReissueRecord>)
    returns (ok: bool)
    ensures ok <==> ProjectionOk(h, l, ds, rs)
  {
    var m := Index(l.requests);
    var decided, superseded;
    ok, decided := CollectDecided(m, ds);
    if !ok { return; }
    ok, superseded := CollectReissued(h, l.runId, m, rs);
    if !ok { return; }
    for k := 0 to |l.requests|
      invariant forall i :: 0 <= i < k ==> Explained(l.requests[i], decided, superseded)
    {
      if !Explained(l.requests[k], decided, superseded) {
        assert l.requests[k] in l.requests;
        return false;
      }
    }
    return true;
  }

  // ------------------------------------------------------------------ the whole reader

  predicate Accepts(h: Hasher, f: Files) {
    && ModelsValid(h, f)
    && DecisionChainOk(f.ledger, f.decisions)
    && AuditChainOk(f.ledger, f.decisions, f.events)
    && ReissueChainOk(h, f.ledger, f.reissues)
    && TimelineOk(f.ledger, f.decisions, f.reissues)
    && ProjectionOk(h, f.ledger, f.decisions, f.reissues)
  }

  /** The parts of acceptance, by name. */
  lemma {:induction false} AcceptedParts(h: Hasher, f: Files)
    requires Accepts(h, f)
    ensures LedgerValid(h, f.ledger) && DistinctRequests(f.ledger.requests)
    ensures f.ledger.ledgerRevision == |f.ledger.requests| + |f.decisions|
    ensures TimelineOk(f.ledger, f.decisions, f.reissues)
    ensures ProjectionOk(h, f.ledger, f.decisions, f.reissues)
    ensures DistinctResults(DecisionResults(f.decisions))
    ensures DistinctSources(ReissueResults(f.reissues))
  {
  }

  datatype State = State(files: Files, ledgerSha: Sha)

  /** Strict parsing, then the five validators in order. */
  method ReadApprovalState(h: Hasher, f: Files) returns (state: Option<State>)
    ensures state == if Accepts(h, f) then Some(State(f, h(LedgerP(f.ledger)))) else None
  {
    if !ModelsValid(h, f) { return None; }
    var ok := ValidateDecisionChain(f.ledger, f.decisions);
    if !ok { return None; }
    ok := ValidateAuditChain(f.ledger, f.decisions, f.events);
    if !ok { return None; }
    ok := ValidateReissueChain(h, f.ledger, f.reissues);
    if !ok { return None; }
    var fault := ValidateMutationTimeline(f.ledger, f.decisions, f.reissues);
    if fault.Some? { return None; }
    ok := ValidateRequestProjection(h, f.ledger, f.decisions, f.reissues);
    if !ok { return None; }
    return Some(State(f, h(LedgerP(f.ledger))));
  }
}
