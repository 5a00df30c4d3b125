/** Counting over an accepted state: every request is pending, decided once or superseded once. */
module ApprovalConservation {
  import opened Basics
  import opened ApprovalModels
  import opened ApprovalReader
  import opened ApprovalProjection
  import opened ApprovalWriter
  import opened ApprovalIndex

  function AllIds(rs: seq<Request>): set<string> {
    set i | 0 <= i < |rs| :: rs[i].requestId
  }

  function PendingIds(rs: seq<Request>): set<string> {
    set i | 0 <= i < |rs| && rs[i].state == Pending :: rs[i].requestId
  }

  lemma {:induction false} IdsSnoc(rs: seq<Request>, r: Request)
    ensures AllIds(rs + [r]) == AllIds(rs) + {r.requestId}
    ensures PendingIds(rs + [r]) == PendingIds(rs) + (if r.state == Pending then {r.requestId} else {})
  {
    var t := rs + [r];
    assert t[|rs|] == r;
    forall i | 0 <= i < |rs|
      ensures rs[i].requestId in AllIds(t)
      ensures rs[i].state == Pending ==> rs[i].requestId in PendingIds(t)
    {
      assert t[i] == rs[i];
    }
  }

  lemma {:induction false} RequestCardinalities(rs: seq<Request>)
    requires DistinctRequests(rs)
    ensures |AllIds(rs)| == |rs|
    ensures |PendingIds(rs)| == PendingCount(rs)
  {
    if rs != [] {
      var init, last := rs[..|rs| - 1], rs[|rs| - 1];
      assert DistinctRequests(init);
      RequestCardinalities(init);
      assert rs == init + [last];
      IdsSnoc(init, last);
      assert last.requestId !in AllIds(init);
      assert PendingIds(init) <= AllIds(init);
    }
  }

  lemma {:induction false} DecidedCardinality(rs: seq<DecisionResult>)
    requires DistinctResults(rs)
    ensures |DecidedIds(rs)| == |rs|
  {
    if rs != [] {
      var init, last := rs[..|rs| - 1], rs[|rs| - 1];
      DecidedCardinality(init);
      assert rs == init + [last];
      DecidedIdsSnoc(init, last);
      assert last.requestId !in DecidedIds(init);
    }
  }

  /** How many results superseded a request of this ledger, rather than a historical one. */
  function V2Count(rs: seq<ReissueResult>): nat {
    if rs == [] then 0
    else V2Count(rs[..|rs| - 1]) + (if rs[|rs| - 1].source.kind == ApprovalV2 then 1 else 0)
  }

  lemma {:induction false} SupersededSnoc(init: seq<ReissueResult>, last: ReissueResult)
    ensures SupersededIds(init + [last]) ==
            SupersededIds(init) + if last.source.kind == ApprovalV2 then {last.source.sourceId} else {}
  {
    var rs := init + [last];
    assert rs[|init|] == last;
    assert forall i :: 0 <= i < |init| ==> rs[i] == init[i];
    forall id | id in SupersededIds(init)
      ensures id in SupersededIds(rs)
    {
      var i :| 0 <= i < |init| && init[i].source.kind == ApprovalV2 && init[i].source.sourceId == id;
      assert rs[i].source.sourceId == id;
    }
  }

  lemma {:induction false} SupersededCardinality(rs: seq<ReissueResult>)
    requires DistinctSources(rs)
    ensures |SupersededIds(rs)| == V2Count(rs)
  {
    if rs != [] {
      var init, last := rs[..|rs| - 1], rs[|rs| - 1];
      SupersededCardinality(init);
      assert rs == init + [last];
      var extra := if last.source.kind == ApprovalV2 then {last.source.sourceId} else {};
      SupersededSnoc(init, last);
      assert extra !! SupersededIds(init);
    }
  }

  lemma {:induction false} RecordsAreNonEmpty(ds: seq<DecisionRecord>)
    requires forall r :: r in ds ==> r.outcome.results != []
    ensures |ds| <= |DecisionResults(ds)|
  {
    if ds != [] {
      RecordsAreNonEmpty(ds[..|ds| - 1]);
      assert ds[|ds| - 1] in ds;
    }
  }

  lemma {:induction false} DecidedAreRequests(h: Hasher, f: Files)
    requires Accepts(h, f)
    ensures DecidedIds(DecisionResults(f.decisions)) <= AllIds(f.ledger.requests)
    ensures SupersededIds(ReissueResults(f.reissues)) <= AllIds(f.ledger.requests)
  {
    var m := Index(f.ledger.requests);
    var flat, reissued := DecisionResults(f.decisions), ReissueResults(f.reissues);
    IndexExact(f.ledger.requests);
    forall id | id in DecidedIds(flat)
      ensures id in AllIds(f.ledger.requests)
    {
      var i :| 0 <= i < |flat| && flat[i].requestId == id;
      assert DecisionProjected(m, flat[i]);
      assert m[id] in f.ledger.requests;
    }
    forall id | id in SupersededIds(reissued)
      ensures id in AllIds(f.ledger.requests)
    {
      var i :| 0 <= i < |reissued| && reissued[i].source.kind == ApprovalV2 && reissued[i].source.sourceId == id;
      var _ := ReissueResultHome(h, f, reissued[i]);
      assert m[id] in f.ledger.requests;
    }
  }

  /** Every reissue result passed the projection checks of the record it belongs to. */
  lemma {:induction false} ReissueResultHome(h: Hasher, f: Files, res: ReissueResult) returns (k: nat)
    requires ProjectionOk(h, f.ledger, f.decisions, f.reissues)
    requires res in ReissueResults(f.reissues)
    ensures k < |f.reissues| && res in f.reissues[k].outcome.results
    ensures SuccessorProjected(h, Index(f.ledger.requests), res)
    ensures SourceProjected(h, f.ledger.runId, Index(f.ledger.requests), f.reissues[k].legacyProjection, res)
  {
    FlatMapMember(ReissueResultsOf, f.reissues, res);
    k :| 0 <= k < |f.reissues| && res in ReissueResultsOf(f.reissues[k]);
    var j :| 0 <= j < |f.reissues[k].outcome.results| && f.reissues[k].outcome.results[j] == res;
    assert ReissueProjected(h, f.ledger.runId, Index(f.ledger.requests), f.reissues[k]);
    assert PairProjected(h, f.ledger.runId, Index(f.ledger.requests), f.reissues[k].legacyProjection,
                         f.reissues[k].batch.items[j], res);
  }

  /** A decision record names at least one request and no request is decided twice, so the
      decision log is never longer than the request list. */
  lemma {:induction false} DecisionsAreFew(h: Hasher, f: Files)
    requires Accepts(h, f)
    ensures |f.decisions| <= |DecisionResults(f.decisions)| <= |f.ledger.requests|
  {
    forall r | r in f.decisions
      ensures r.outcome.results != []
    {
      assert DecisionRecordValid(h, r);
      var i :| 0 <= i < |f.decisions| && f.decisions[i] == r;
      assert DecisionLinked(f.ledger, f.decisions, i);
    }
    RecordsAreNonEmpty(f.decisions);
    DecidedAreRequests(h, f);
    DecidedCardinality(DecisionResults(f.decisions));
    RequestCardinalities(f.ledger.requests);
    SubsetCardinality(DecidedIds(DecisionResults(f.decisions)), AllIds(f.ledger.requests));
  }

  lemma {:induction false} PendingIsTheRest(h: Hasher, f: Files)
    requires Accepts(h, f)
    ensures var D, S := DecidedIds(DecisionResults(f.decisions)), SupersededIds(ReissueResults(f.reissues));
            D !! S && PendingIds(f.ledger.requests) == AllIds(f.ledger.requests) - (D + S)
  {
    var rs := f.ledger.requests;
    var D, S := DecidedIds(DecisionResults(f.decisions)), SupersededIds(ReissueResults(f.reissues));
    DecidedAreRequests(h, f);
    forall i | 0 <= i < |rs|
      ensures rs[i].state == Pending <==> rs[i].requestId !in D + S
      ensures !(rs[i].requestId in D && rs[i].requestId in S)
    {
      assert rs[i] in rs && Explained(rs[i], D, S);
      if rs[i].requestId in S { SupersededState(h, f, rs[i]); }
    }
    forall id
      ensures id in PendingIds(rs) <==> id in AllIds(rs) && id !in D + S
    {
      if id in PendingIds(rs) {
        var i :| 0 <= i < |rs| && rs[i].state == Pending && rs[i].requestId == id;
      }
      if id in AllIds(rs) && id !in D + S {
        var i :| 0 <= i < |rs| && rs[i].requestId == id;
        assert rs[i].state == Pending;
      }
    }
    forall id
      ensures !(id in D && id in S)
    {
      if id in AllIds(rs) {
        var i :| 0 <= i < |rs| && rs[i].requestId == id;
      }
    }
  }

  /** How many successors took the place of a historical request. */
  function LegacySuccessors(rs: seq<ReissueResult>): int {
    |rs| - V2Count(rs)
  }

  /** Conservation: requests = pending + decided + superseded, and the ledger revision counts
      requests and decision records. */
  lemma {:induction false} Conservation(h: Hasher, f: Files)
    requires Accepts(h, f)
    ensures f.ledger.ledgerRevision == |f.ledger.requests| + |f.decisions|
    ensures |f.ledger.requests| ==
              PendingCount(f.ledger.requests) + |DecisionResults(f.decisions)| + V2Count(ReissueResults(f.reissues))
  {
    hide Accepts, LedgerValid, DistinctRequests, TimelineOk, ProjectionOk, DistinctResults, DistinctSources,
         DecidedIds, SupersededIds, AllIds, PendingIds;
    AcceptedParts(h, f);
    var rs := f.ledger.requests;
    var D, S := DecidedIds(DecisionResults(f.decisions)), SupersededIds(ReissueResults(f.reissues));
    DecidedAreRequests(h, f);
    DecidedCardinality(DecisionResults(f.decisions));
    SupersededCardinality(ReissueResults(f.reissues));
    RequestCardinalities(rs);
    PendingIsTheRest(h, f);
    assert |D + S| == |D| + |S|;
    assert AllIds(rs) == PendingIds(rs) + (D + S);
    assert |AllIds(rs)| == |PendingIds(rs)| + |D + S|;
  }

  /** Pending requests are the roots and legacy successors not yet decided; that also bounds the
      number of decision records. */
  lemma {:induction false} PendingBalance(h: Hasher, f: Files)
    requires Accepts(h, f)
    ensures PendingCount(f.ledger.requests) + |DecisionResults(f.decisions)| ==
              RootCount(f.ledger, f.reissues) + LegacySuccessors(ReissueResults(f.reissues))
    ensures |f.decisions| + PendingCount(f.ledger.requests) <=
              RootCount(f.ledger, f.reissues) + LegacySuccessors(ReissueResults(f.reissues))
  {
    hide Accepts, PendingCount, V2Count;
    Conservation(h, f);
    DecisionsAreFew(h, f);
  }

  lemma {:induction false} SupersededState(h: Hasher, f: Files, r: Request)
    requires Accepts(h, f) && r in f.ledger.requests
    requires r.requestId in SupersededIds(ReissueResults(f.reissues))
    ensures r.state == Superseded
  {
    var reissued := ReissueResults(f.reissues);
    var i :| 0 <= i < |reissued| && reissued[i].source.kind == ApprovalV2 && reissued[i].source.sourceId == r.requestId;
    var _ := ReissueResultHome(h, f, reissued[i]);
    IndexComplete(f.ledger.requests, r);
  }
}
