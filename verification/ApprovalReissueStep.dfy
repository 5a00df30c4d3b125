/** The reissue loop, one item at a time: what each pass adds to the ledger and to the results. */
module ApprovalReissueStep {
  import opened Basics
  import opened ApprovalModels
  import opened ApprovalProjection
  import opened ApprovalWriter
  import opened ApprovalReissue
  import opened ApprovalIndex
  import opened ApprovalEvolution

  // ------------------------------------------------------------------ adding a request

  lemma {:induction false} FirstClashNone(rs: seq<Request>, r: Request)
    ensures FirstClash(rs, r) == None <==> forall q :: q in rs ==> !Clash(q, r)
    ensures FirstClash(rs, r).Some? ==> FirstClash(rs, r).value in rs && Clash(FirstClash(rs, r).value, r)
  {
    if rs != [] {
      FirstClashNone(rs[1..], r);
      assert rs == [rs[0]] + rs[1..];
    }
  }

  /** A request stamped with the next ledger revision is new: it cannot equal a stored one, so
      adding it either appends it or refuses. */
  lemma {:induction false} AddNext(h: Hasher, l: Ledger, r: Request)
    requires LedgerValid(h, l) && RequestValid(h, r) && r.ledgerRevision == l.ledgerRevision + 1
    ensures !AddRequest(h, l, r).AlreadyPresent?
    ensures AddRequest(h, l, r).Added? <==> (forall q :: q in l.requests ==> !Clash(q, r)) && |l.requests| < MAX_REQUESTS
    ensures AddRequest(h, l, r).Added? ==> AddRequest(h, l, r).ledger == Appended(l, r)
    ensures AddRequest(h, l, r).Added? ==> LedgerValid(h, Appended(l, r)) && r.requestId !in Index(l.requests)
  {
    FirstClashNone(l.requests, r);
    if FirstClash(l.requests, r) == None {
      if r.requestId in Index(l.requests) { IndexSound(l.requests, r.requestId); }
      if |l.requests| < MAX_REQUESTS {
        AppendedValid(h, l, r);
      }
    }
  }

  lemma {:induction false} AppendedValid(h: Hasher, l: Ledger, r: Request)
    requires LedgerValid(h, l) && RequestValid(h, r) && r.ledgerRevision == l.ledgerRevision + 1
    requires (forall q :: q in l.requests ==> !Clash(q, r)) && |l.requests| < MAX_REQUESTS
    ensures LedgerValid(h, Appended(l, r))
  {
    var rs := l.requests + [r];
    forall i, j | 0 <= i < j < |rs|
      ensures rs[i].requestId != rs[j].requestId && rs[i].idempotencyKey != rs[j].idempotencyKey
      ensures RequestLe(rs[i], rs[j])
    {
      if j == |l.requests| {
        assert rs[i] in l.requests && !Clash(rs[i], r);
      }
    }
  }

  // ------------------------------------------------------------------ marking the source

  lemma {:induction false} IndexReplace(rs: seq<Request>, u: Request)
    requires u.requestId in Index(rs)
    ensures Index(Replace(rs, u)) == Index(rs)[u.requestId := u]
  {
    var init, last := rs[..|rs| - 1], rs[|rs| - 1];
    assert Replace(rs, u)[..|rs| - 1] == Replace(init, u);
    if u.requestId in Index(init) {
      IndexReplace(init, u);
    } else {
      ReplaceAbsent(init, u);
    }
  }

  lemma {:induction false} ReplaceAbsent(rs: seq<Request>, u: Request)
    requires u.requestId !in Index(rs)
    ensures Replace(rs, u) == rs
  {
    if rs != [] {
      ReplaceAbsent(rs[..|rs| - 1], u);
      assert Replace(rs, u)[..|rs| - 1] == Replace(rs[..|rs| - 1], u);
    }
  }

  lemma {:induction false} ReplaceMember(rs: seq<Request>, r: Request, u: Request, q: Request)
    requires q in Replace(rs, u)
    ensures q == u || q in rs
  {
    var i :| 0 <= i < |rs| && Replace(rs, u)[i] == q;
    assert rs[i] in rs;
  }

  /** Order, identity and dictionary of the list after the source is marked and the list re-sorted. */
  lemma {:induction false} ReplaceSorted(rs: seq<Request>, r: Request, u: Request)
    requires DistinctRequests(rs) && r in rs && u.requestId == r.requestId && u.idempotencyKey == r.idempotencyKey
    ensures var sorted := SortBy(Replace(rs, u), RequestLe);
            && DistinctRequests(sorted) && IsSorted(sorted, RequestLe) && |sorted| == |rs|
            && Index(sorted) == Index(rs)[r.requestId := u]
            && forall q :: q in sorted ==> q == u || q in rs
  {
    hide IsSorted, RequestLe;
    IndexComplete(rs, r);
    IndexReplace(rs, u);
    ReplaceDistinct(rs, r, u);
    var replaced, sorted := Replace(rs, u), SortBy(Replace(rs, u), RequestLe);
    RequestOrder();
    SortBySorted(replaced, RequestLe);
    DistinctRequestsPermutation(replaced, sorted);
    IndexPermutation(replaced, sorted);
    MultisetMember(replaced, sorted);
    forall q | q in sorted ensures q == u || q in rs { ReplaceMember(rs, r, u, q); }
  }

  lemma {:induction false} SupersedeValid(h: Hasher, l: Ledger, r: Request, successorId: string)
    requires LedgerValid(h, l) && r in l.requests && r.state == Pending && successorId != r.requestId
    ensures var u := Supersede(r, l.ledgerRevision, successorId);
            && RequestValid(h, u)
            && LedgerValid(h, l.(requests := SortBy(Replace(l.requests, u), RequestLe)))
            && Index(SortBy(Replace(l.requests, u), RequestLe)) == Index(l.requests)[r.requestId := u]
  {
    hide SortBy, Replace, RequestLe, Index, DistinctRequests, IsSorted;
    assert RequestValid(h, r);
    ReplaceSorted(l.requests, r, Supersede(r, l.ledgerRevision, successorId));
  }

  lemma {:induction false} ReplaceDistinct(rs: seq<Request>, r: Request, u: Request)
    requires DistinctRequests(rs) && r in rs && u.requestId == r.requestId && u.idempotencyKey == r.idempotencyKey
    ensures DistinctRequests(Replace(rs, u))
  {
    var k :| 0 <= k < |rs| && rs[k] == r;
    forall i | 0 <= i < |rs|
      ensures Replace(rs, u)[i].requestId == rs[i].requestId && Replace(rs, u)[i].idempotencyKey == rs[i].idempotencyKey
    {
      if rs[i].requestId == u.requestId { assert i == k; }
    }
  }

  // ------------------------------------------------------------------ one pass

  /** The state of the loop after `k` items, relative to the starting ledger. */
  ghost predicate Advanced(h: Hasher, a: ReissueAdmission, legacy: seq<V1Snapshot>, l: Ledger, p: Progress, k: nat)
    requires k <= |a.batch.items|
  {
    var m, m' := Index(l.requests), Index(p.ledger.requests);
    && LedgerValid(h, p.ledger)
    && p.ledger == l.(ledgerRevision := l.ledgerRevision + k, requests := p.ledger.requests)
    && |p.ledger.requests| == |l.requests| + k
    && Evolves(m, m')
    && |p.results| == k
    && Placed(h, a, legacy, p, k)
    && Untouched(a, m, m', k)
    && Fresh(m, m', p.results)
  }

  ghost predicate Placed(h: Hasher, a: ReissueAdmission, legacy: seq<V1Snapshot>, p: Progress, k: nat)
    requires k <= |a.batch.items| && |p.results| == k
  {
    forall i :: 0 <= i < k ==>
      && ReissueResultValid(h, p.results[i])
      && PairProjected(h, a.batch.runId, Index(p.ledger.requests), legacy, a.batch.items[i], p.results[i])
  }

  /** Requests that are not the V2 source of a processed item are as they were. */
  ghost predicate Untouched(a: ReissueAdmission, m: map<string, Request>, m': map<string, Request>, k: nat)
    requires k <= |a.batch.items|
  {
    forall id :: id in m && (forall i :: 0 <= i < k ==> a.batch.items[i].sourceId != id) ==> id in m' && m'[id] == m[id]
  }

  /** Successors are new, distinct, pending, and the only new requests. */
  ghost predicate Fresh(m: map<string, Request>, m': map<string, Request>, results: seq<ReissueResult>) {
    && DistinctSuccessors(results)
    && (forall i :: 0 <= i < |results| ==> results[i].successorId !in m)
    && (forall id :: id in m' && id !in m ==> id in SuccessorIds(results) && m'[id].state == Pending)
  }

  lemma {:induction false} StepEvolves(m: map<string, Request>, s: Request, r: Request, u: Request)
    requires s.requestId !in m && r.requestId in m && m[r.requestId] == r && r.state == Pending
    requires u == Supersede(r, u.ledgerRevision, s.requestId) && u.ledgerRevision >= r.ledgerRevision
    ensures Evolves(m, m[s.requestId := s][r.requestId := u])
  {
  }

  lemma {:induction false} EvolvesTransitive(a: map<string, Request>, b: map<string, Request>, c: map<string, Request>)
    requires Evolves(a, b) && Evolves(b, c)
    ensures Evolves(a, c)
  {
  }

  lemma {:induction false} SuccessorProjectedNow(h: Hasher, m: map<string, Request>, binding: SourceBinding, s: Request)
    requires s.requestId in m && m[s.requestId] == s && s.state == Pending && s.supersessionReference == None
    ensures SuccessorProjected(h, m, ResultFor(h, binding, s))
  {
    assert AsPending(s, s.requestRevision, s.ledgerRevision) == s;
  }

  lemma {:induction false} SourceProjectedNow(h: Hasher, runId: string, m: map<string, Request>,
                                        legacy: seq<V1Snapshot>, r: Request, u: Request, s: Request)
    requires r.requestId in m && m[r.requestId] == u && r.state == Pending && r.supersessionReference == None
    requires u == Supersede(r, u.ledgerRevision, s.requestId)
    ensures SourceProjected(h, runId, m, legacy, ResultFor(h, V2Binding(h, r), s))
  {
    assert AsPending(u, r.requestRevision, r.ledgerRevision) == r;
  }

  lemma {:induction false} PlacedEvolves(h: Hasher, a: ReissueAdmission, legacy: seq<V1Snapshot>, p: Progress,
                                        p': Progress, k: nat)
    requires k < |a.batch.items| && |p.results| == k && Placed(h, a, legacy, p, k)
    requires |p'.results| == k + 1 && p'.results[..k] == p.results
    requires Evolves(Index(p.ledger.requests), Index(p'.ledger.requests))
    requires ReissueResultValid(h, p'.results[k])
    requires PairProjected(h, a.batch.runId, Index(p'.ledger.requests), legacy, a.batch.items[k], p'.results[k])
    ensures Placed(h, a, legacy, p', k + 1)
  {
    var m, m' := Index(p.ledger.requests), Index(p'.ledger.requests);
    forall i | 0 <= i < k + 1
      ensures ReissueResultValid(h, p'.results[i])
      ensures PairProjected(h, a.batch.runId, m', legacy, a.batch.items[i], p'.results[i])
    {
      if i < k {
        assert p'.results[i] == p.results[i];
        EvolvedSuccessor(h, m, m', p.results[i]);
        EvolvedSource(h, a.batch.runId, m, m', legacy, p.results[i]);
      }
    }
  }

  lemma {:induction false} FreshGrows(m: map<string, Request>, m1: map<string, Request>, m2: map<string, Request>,
                   results: seq<ReissueResult>, x: ReissueResult)
    requires Fresh(m, m1, results)
    requires forall i :: 0 <= i < |results| ==> results[i].successorId in m1
    requires m.Keys <= m1.Keys && x.successorId !in m1
    requires m2.Keys == m1.Keys + {x.successorId} && m2[x.successorId].state == Pending
    requires forall id :: id in m1 && id !in m ==> m2[id] == m1[id]
    ensures Fresh(m, m2, results + [x])
  {
    var all := results + [x];
    assert all[|results|] == x;
    forall id | id in SuccessorIds(results) ensures id in SuccessorIds(all) {
      var i :| 0 <= i < |results| && results[i].successorId == id;
      assert all[i] == results[i];
    }
  }
}
