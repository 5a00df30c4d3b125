/** Supersession: references never share a target, never form a cycle, and lead to a request that
    is not superseded. */
module ApprovalLineage {
  import opened Basics
  import opened ApprovalModels
  import opened ApprovalReader
  import opened ApprovalProjection
  import opened ApprovalReissue
  import opened ApprovalIndex
  import opened ApprovalConservation
  import opened ApprovalReissueStep
  import opened ApprovalReissueFold

  /** The successor is at least as recent, and strictly more recent if it was itself superseded. */
  ghost predicate Ascends(m: map<string, Request>, id: string)
    requires id in m
  {
    m[id].state == Superseded ==>
      && m[id].supersessionReference.Some?
      && var next := m[id].supersessionReference.value;
         && next in m
         && m[next].ledgerRevision >= m[id].ledgerRevision
         && (m[next].state == Superseded ==> m[next].ledgerRevision > m[id].ledgerRevision)
  }

  ghost predicate Lineage(m: map<string, Request>, head: int) {
    forall id :: id in m ==> m[id].ledgerRevision <= head && Ascends(m, id)
  }

  /** The request at the end of the chain; the gap to the ledger head shrinks at every step. */
  ghost function Final(m: map<string, Request>, head: int, id: string): (r: string)
    requires Lineage(m, head) && id in m
    ensures r in m && m[r].state != Superseded
    decreases head - m[id].ledgerRevision, if m[id].state == Superseded then 1 else 0
  {
    if m[id].state != Superseded then id
    else
      assert Ascends(m, id);
      Final(m, head, m[id].supersessionReference.value)
  }

  /** `n` references followed from `id`, if there are that many. */
  ghost function Follow(m: map<string, Request>, id: string, n: nat): Option<string>
    decreases n
  {
    if id !in m then None
    else if n == 0 then Some(id)
    else if m[id].state == Superseded && m[id].supersessionReference.Some?
    then Follow(m, m[id].supersessionReference.value, n - 1)
    else None
  }

  lemma {:induction false} FollowAscends(m: map<string, Request>, head: int, id: string, n: nat)
    requires Lineage(m, head) && id in m && n >= 1 && Follow(m, id, n).Some?
    ensures var r := Follow(m, id, n).value;
            && r in m
            && m[r].ledgerRevision >= m[id].ledgerRevision
            && (m[r].state == Superseded ==> m[r].ledgerRevision > m[id].ledgerRevision)
    decreases n
  {
    assert Ascends(m, id);
    var next := m[id].supersessionReference.value;
    if n > 1 {
      FollowAscends(m, head, next, n - 1);
    }
  }

  lemma {:induction false} SupersessionIsAcyclic(m: map<string, Request>, head: int, id: string, n: nat)
    requires Lineage(m, head) && id in m && n >= 1
    ensures Follow(m, id, n) != Some(id)
  {
    if Follow(m, id, n) == Some(id) {
      FollowAscends(m, head, id, n);
    }
  }

  lemma {:induction false} SupersessionResult(h: Hasher, f: Files, r: Request) returns (i: nat)
    requires Accepts(h, f) && r in f.ledger.requests && r.state == Superseded
    ensures i < |ReissueResults(f.reissues)|
    ensures ReissueResults(f.reissues)[i].source.sourceId == r.requestId
    ensures r.supersessionReference == Some(ReissueResults(f.reissues)[i].successorId)
  {
    var results := ReissueResults(f.reissues);
    assert Explained(r, DecidedIds(DecisionResults(f.decisions)), SupersededIds(results));
    i :| 0 <= i < |results| && results[i].source.kind == ApprovalV2 && results[i].source.sourceId == r.requestId;
    var _ := ReissueResultHome(h, f, results[i]);
    IndexComplete(f.ledger.requests, r);
  }

  /** In any accepted state no successor has two sources. */
  lemma {:induction false} SupersessionIsInjective(h: Hasher, f: Files, a: Request, b: Request)
    requires Accepts(h, f) && a in f.ledger.requests && b in f.ledger.requests
    requires a.state == Superseded && b.state == Superseded
    requires a.supersessionReference == b.supersessionReference
    ensures a == b
  {
    var i := SupersessionResult(h, f, a);
    var j := SupersessionResult(h, f, b);
    assert i == j;
    IndexComplete(f.ledger.requests, a);
    IndexComplete(f.ledger.requests, b);
  }

  // ------------------------------------------------------------------ the lineage is kept

  lemma {:induction false} LineageAfterRoot(m: map<string, Request>, head: int, r: Request)
    requires Lineage(m, head) && r.requestId !in m && r.state == Pending && r.ledgerRevision == head + 1
    ensures Lineage(m[r.requestId := r], head + 1)
  {
    var m' := m[r.requestId := r];
    forall id | id in m'
      ensures m'[id].ledgerRevision <= head + 1 && Ascends(m', id)
    {
      if id in m { assert Ascends(m, id); }
    }
  }

  lemma {:induction false} LineageAfterDecision(m: map<string, Request>, head: int, d: map<string, Decision>)
    requires Lineage(m, head)
    requires forall id :: id in d ==> id in m && m[id].requestId == id && m[id].state == Pending
    requires forall id :: id in m ==> m[id].requestId == id
    ensures Lineage(DecidedIndex(m, d, head + 1), head + 1)
  {
    var m' := DecidedIndex(m, d, head + 1);
    forall id | id in m'
      ensures m'[id].ledgerRevision <= head + 1 && Ascends(m', id)
    {
      assert Ascends(m, id);
    }
  }

  lemma {:induction false} LineageAfterPass(m: map<string, Request>, head: int, s: Request, r: Request)
    requires Lineage(m, head)
    requires s.requestId !in m && s.state == Pending && s.ledgerRevision == head + 1
    requires r.requestId in m && m[r.requestId] == r && r.state == Pending
    ensures Lineage(m[s.requestId := s][r.requestId := Supersede(r, head + 1, s.requestId)], head + 1)
  {
    var m' := m[s.requestId := s][r.requestId := Supersede(r, head + 1, s.requestId)];
    forall id | id in m'
      ensures m'[id].ledgerRevision <= head + 1 && Ascends(m', id)
    {
      if id in m && id != r.requestId { assert Ascends(m, id); }
    }
  }

  /** How one pass changes the dictionary. */
  lemma {:induction false} PassIndexV2(h: Hasher, a: ReissueAdmission, legacy: seq<V1Snapshot>, l: Ledger,
                                       p: Progress, k: nat, r: Request)
    requires LoopReady(h, a, legacy, l) && k < |a.batch.items| && Advanced(h, a, legacy, l, p, k)
    requires a.sources[k] == V2Source(r)
    requires ReissueOne(h, a, legacy, p, a.batch.items[k], a.sources[k]).Ok?
    ensures var s, p' := SuccessorFor(h, a, p.ledger, a.batch.items[k]), ReissueOne(h, a, legacy, p, a.batch.items[k], a.sources[k]).value;
            var m := Index(p.ledger.requests);
            && p'.ledger.ledgerRevision == p.ledger.ledgerRevision + 1
            && s.requestId !in m && r.requestId in m && m[r.requestId] == r && r.state == Pending
            && Index(p'.ledger.requests) == m[s.requestId := s][r.requestId := Supersede(r, s.ledgerRevision, s.requestId)]
  {
    var s := SuccessorFor(h, a, p.ledger, a.batch.items[k]);
    SuccessorIsValid(h, a, legacy, l, p.ledger, k);
    AddNext(h, p.ledger, s);
    OnePass(h, a, legacy, p, a.batch.items[k], a.sources[k]);
    SourceUntouched(h, a, legacy, l, p, k, r);
    MarkedFacts(h, p.ledger, s, r);
  }

  lemma {:induction false} PassIndexV1(h: Hasher, a: ReissueAdmission, legacy: seq<V1Snapshot>, l: Ledger,
                                       p: Progress, k: nat, v: V1Request)
    requires LoopReady(h, a, legacy, l) && k < |a.batch.items| && Advanced(h, a, legacy, l, p, k)
    requires a.sources[k] == V1Source(v)
    requires ReissueOne(h, a, legacy, p, a.batch.items[k], a.sources[k]).Ok?
    ensures var s, p' := SuccessorFor(h, a, p.ledger, a.batch.items[k]), ReissueOne(h, a, legacy, p, a.batch.items[k], a.sources[k]).value;
            && p'.ledger.ledgerRevision == p.ledger.ledgerRevision + 1
            && s.requestId !in Index(p.ledger.requests)
            && Index(p'.ledger.requests) == Index(p.ledger.requests)[s.requestId := s]
  {
    var s := SuccessorFor(h, a, p.ledger, a.batch.items[k]);
    SuccessorIsValid(h, a, legacy, l, p.ledger, k);
    AddNext(h, p.ledger, s);
    assert SourceReady(h, a.batch.runId, legacy, l, a.batch.items[k], a.sources[k]);
    OnePass(h, a, legacy, p, a.batch.items[k], a.sources[k]);
    AddedFacts(h, p.ledger, s);
  }

  /** A pass adds one pending successor and may mark one pending request with it. */
  ghost predicate Grows(l: Ledger, l': Ledger) {
    var m, m', head := Index(l.requests), Index(l'.requests), l.ledgerRevision;
    && l'.ledgerRevision == head + 1
    && ((exists s :: FreshSuccessor(m, s, head) && m' == m[s.requestId := s])
        || (exists s, r {:trigger FreshSuccessor(m, s, head), PendingSource(m, r)} ::
              FreshSuccessor(m, s, head) && PendingSource(m, r)
              && m' == m[s.requestId := s][r.requestId := Supersede(r, head + 1, s.requestId)]))
  }

  ghost predicate FreshSuccessor(m: map<string, Request>, s: Request, head: int) {
    s.requestId !in m && s.state == Pending && s.ledgerRevision == head + 1
  }

  ghost predicate PendingSource(m: map<string, Request>, r: Request) {
    r.requestId in m && m[r.requestId] == r && r.state == Pending
  }

  lemma {:induction false} PassGrows(h: Hasher, a: ReissueAdmission, legacy: seq<V1Snapshot>, l: Ledger, p: Progress,
                                     k: nat)
    requires LoopReady(h, a, legacy, l) && k < |a.batch.items| && Advanced(h, a, legacy, l, p, k)
    requires ReissueOne(h, a, legacy, p, a.batch.items[k], a.sources[k]).Ok?
    ensures Grows(p.ledger, ReissueOne(h, a, legacy, p, a.batch.items[k], a.sources[k]).value.ledger)
  {
    var s := SuccessorFor(h, a, p.ledger, a.batch.items[k]);
    match a.sources[k]
    case V2Source(r) =>
      PassIndexV2(h, a, legacy, l, p, k, r);
      assert FreshSuccessor(Index(p.ledger.requests), s, p.ledger.ledgerRevision) && PendingSource(Index(p.ledger.requests), r);
    case V1Source(v) =>
      PassIndexV1(h, a, legacy, l, p, k, v);
      assert FreshSuccessor(Index(p.ledger.requests), s, p.ledger.ledgerRevision);
  }

  lemma {:induction false} GrowthKeepsLineage(l: Ledger, l': Ledger)
    requires Grows(l, l') && LineageOf(l)
    ensures LineageOf(l')
  {
    var m, m', head := Index(l.requests), Index(l'.requests), l.ledgerRevision;
    if s :| FreshSuccessor(m, s, head) && m' == m[s.requestId := s] {
      LineageAfterRoot(m, head, s);
    } else {
      var s, r :| FreshSuccessor(m, s, head) && PendingSource(m, r)
                  && m' == m[s.requestId := s][r.requestId := Supersede(r, head + 1, s.requestId)];
      LineageAfterPass(m, head, s, r);
    }
  }

  lemma {:induction false} LineageAfterReissue(h: Hasher, a: ReissueAdmission, legacy: seq<V1Snapshot>, l: Ledger,
                                        k: nat)
    requires LoopReady(h, a, legacy, l) && k <= |a.batch.items|
    requires LineageOf(l)
    requires ReissueAll(h, a, legacy, l, k).Ok?
    ensures LineageOf(ReissueAll(h, a, legacy, l, k).value.ledger)
  {
    if k > 0 {
      var before := ReissueAll(h, a, legacy, l, k - 1);
      assert before.Ok?;
      LineageAfterReissue(h, a, legacy, l, k - 1);
      assert Advanced(h, a, legacy, l, before.value, k - 1) by { LoopAdvances(h, a, legacy, l, k - 1); }
      assert ReissueAll(h, a, legacy, l, k) == ReissueOne(h, a, legacy, before.value, a.batch.items[k - 1], a.sources[k - 1]);
      PassGrows(h, a, legacy, l, before.value, k - 1);
      GrowthKeepsLineage(before.value.ledger, ReissueAll(h, a, legacy, l, k).value.ledger);
    }
  }

  ghost predicate LineageOf(l: Ledger) {
    Lineage(Index(l.requests), l.ledgerRevision)
  }
}
