/** How the dictionary of requests changes when the ledger's request list is rebuilt and re-sorted. */
module ApprovalIndex {
  import opened Basics
  import opened ApprovalModels
  import opened ApprovalProjection
  import opened ApprovalWriter

  lemma {:induction false} IndexSound(rs: seq<Request>, id: string)
    requires id in Index(rs)
    ensures Index(rs)[id] in rs && Index(rs)[id].requestId == id
  {
    if rs[|rs| - 1].requestId != id {
      IndexSound(rs[..|rs| - 1], id);
    }
  }

  lemma {:induction false} IndexComplete(rs: seq<Request>, r: Request)
    requires DistinctRequests(rs) && r in rs
    ensures r.requestId in Index(rs) && Index(rs)[r.requestId] == r
  {
    var init, last := rs[..|rs| - 1], rs[|rs| - 1];
    if r != last {
      var i :| 0 <= i < |rs| && rs[i] == r;
      assert init[i] == r;
      assert rs[i].requestId != rs[|rs| - 1].requestId;
      IndexComplete(init, r);
    }
  }

  /** With unique identifiers, the dictionary and the list hold the same requests. */
  lemma {:induction false} IndexExact(rs: seq<Request>)
    requires DistinctRequests(rs)
    ensures forall r :: r in rs ==> r.requestId in Index(rs) && Index(rs)[r.requestId] == r
    ensures forall id :: id in Index(rs) ==> Index(rs)[id] in rs && Index(rs)[id].requestId == id
  {
    forall r | r in rs ensures r.requestId in Index(rs) && Index(rs)[r.requestId] == r { IndexComplete(rs, r); }
    forall id | id in Index(rs) ensures Index(rs)[id] in rs && Index(rs)[id].requestId == id { IndexSound(rs, id); }
  }

  lemma {:induction false} DistinctRequestsPermutation(a: seq<Request>, b: seq<Request>)
    requires DistinctRequests(a) && multiset(a) == multiset(b)
    ensures DistinctRequests(b)
  {
    DistinctPermutation(a, b);
    MultisetMember(a, b);
    forall i, j | 0 <= i < j < |b|
      ensures b[i].requestId != b[j].requestId && b[i].idempotencyKey != b[j].idempotencyKey
    {
      assert b[i] in a && b[j] in a;
      var p :| 0 <= p < |a| && a[p] == b[i];
      var q :| 0 <= q < |a| && a[q] == b[j];
      assert p != q;
      assert if p < q then a[p].requestId != a[q].requestId else a[q].requestId != a[p].requestId;
    }
  }

  lemma {:induction false} IndexPermutation(a: seq<Request>, b: seq<Request>)
    requires DistinctRequests(a) && multiset(a) == multiset(b)
    ensures Index(a) == Index(b)
  {
    DistinctRequestsPermutation(a, b);
    MultisetMember(a, b);
    IndexExact(a);
    IndexExact(b);
    forall id
      ensures id in Index(a) <==> id in Index(b)
      ensures id in Index(a) ==> Index(a)[id] == Index(b)[id]
    {
      if id in Index(a) { assert Index(a)[id] in b; }
      if id in Index(b) { assert Index(b)[id] in a; }
    }
  }

  lemma {:induction false} RequestOrder()
    ensures TotalPreorder(RequestLe)
  {
    forall x, y ensures RequestLe(x, y) || RequestLe(y, x) { StringLeTotal(x.requestId, y.requestId); }
    forall x, y, z | RequestLe(x, y) && RequestLe(y, z) ensures RequestLe(x, z) {
      if x.ledgerRevision == y.ledgerRevision == z.ledgerRevision {
        StringLeTransitive(x.requestId, y.requestId, z.requestId);
      }
    }
  }

  lemma {:induction false} IndexAppend(rs: seq<Request>, r: Request)
    ensures Index(rs + [r]) == Index(rs)[r.requestId := r]
  {
    assert (rs + [r])[..|rs|] == rs;
  }

  // ------------------------------------------------------------------ decided requests

  function DecidedIndex(m: map<string, Request>, d: map<string, Decision>, rev: int): map<string, Request> {
    map id | id in m :: DecideIfNamed(m[id], d, rev)
  }

  lemma {:induction false} IndexDecideAll(rs: seq<Request>, d: map<string, Decision>, rev: int)
    ensures Index(DecideAll(rs, d, rev)) == DecidedIndex(Index(rs), d, rev)
  {
    if rs != [] {
      var init := rs[..|rs| - 1];
      IndexDecideAll(init, d, rev);
      assert DecideAll(rs, d, rev)[..|rs| - 1] == DecideAll(init, d, rev);
    }
  }

  lemma {:induction false} DecideAllDistinct(rs: seq<Request>, d: map<string, Decision>, rev: int)
    requires DistinctRequests(rs)
    ensures DistinctRequests(DecideAll(rs, d, rev))
  {
  }

  // ------------------------------------------------------------------ counting pending requests

  lemma {:induction false} PendingCountAppend(a: seq<Request>, b: seq<Request>)
    ensures PendingCount(a + b) == PendingCount(a) + PendingCount(b)
  {
    if b == [] {
      assert a + b == a;
    } else {
      var init := b[..|b| - 1];
      PendingCountAppend(a, init);
      assert (a + b)[..|a + b| - 1] == a + init;
    }
  }

  lemma {:induction false} PendingCountSort(rs: seq<Request>, le: (Request, Request) -> bool)
    ensures PendingCount(SortBy(rs, le)) == PendingCount(rs)
  {
    if rs != [] {
      var init, x := rs[..|rs| - 1], rs[|rs| - 1];
      PendingCountSort(init, le);
      var s := SortBy(init, le);
      var p := InsertPos(x, s, le);
      PendingCountAppend(s[..p] + [x], s[p..]);
      PendingCountAppend(s[..p], [x]);
      PendingCountAppend(s[..p], s[p..]);
      assert s[..p] + s[p..] == s;
      assert [x][..0] == [];
    }
  }

  lemma {:induction false} PendingCountBound(rs: seq<Request>)
    ensures PendingCount(rs) <= |rs|
  {
    if rs != [] {
      PendingCountBound(rs[..|rs| - 1]);
    }
  }
}
