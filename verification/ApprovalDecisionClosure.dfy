/** Committing an admitted decision: the build never fails, its results are the batch item by item,
    and the reader accepts the new state exactly when the commit is timely. */
module ApprovalDecisionClosure {
  import opened Basics
  import opened ApprovalModels
  import opened ApprovalReader
  import opened ApprovalProjection
  import opened ApprovalWriter
  import opened ApprovalIndex
  import opened ApprovalConservation

  // ------------------------------------------------------------------ what admission means

  predicate ItemAdmitted(m: map<string, Request>, item: DecisionItem, at: Time) {
    && item.requestId in m
    && var r := m[item.requestId];
       && r.state == Pending
       && item.expectedRevision == r.requestRevision
       && item.actionDigest == r.actionDigest
       && r.createdAt <= at < r.expiresAt
  }

  /** Who may decide: anybody allowed to reject may reject; approving takes a verified, live authority that
      holds the scope of the request. */
  predicate MayDecide(a: Actor, r: Request, d: Decision, at: Time) {
    && (d == Reject ==> "reject:any" in a.scopes)
    && (d == Approve ==>
          && a.verified && a.revocation == NotRevoked
          && a.authorityExpiresAt.Some? && at < a.authorityExpiresAt.value
          && r.requiredScope in a.scopes)
  }

  /** No two items name the same request. */
  predicate ItemsApart(items: seq<DecisionItem>) {
    forall i, j :: 0 <= i < j < |items| ==> items[i].requestId != items[j].requestId
  }

  ghost predicate DecisionAdmissible(s: State, b: DecisionBatch, resolved: Option<Snapshot>, observedRun: int,
                                     at: Time) {
    var m := Index(s.files.ledger.requests);
    && (forall i :: 0 <= i < |s.files.decisions| ==>
          s.files.decisions[i].idempotencyKey != b.idempotencyKey && s.files.decisions[i].decisionId != b.decisionId)
    && b.runId == s.files.ledger.runId
    && b.expectedRunRevision == observedRun
    && b.expectedLedgerRevision == s.files.ledger.ledgerRevision
    && ItemsApart(b.items)
    && (forall i :: 0 <= i < |b.items| ==> ItemAdmitted(m, b.items[i], at))
    && resolved.Some? && resolved.value.actor == b.actor
    && (b.items != [] ==> b.actor.revocation != Revoked)
    && (forall i :: 0 <= i < |b.items| ==> MayDecide(b.actor, m[b.items[i].requestId], b.items[i].decision, at))
  }

  lemma {:induction false} FirstFaultNone(items: seq<DecisionItem>, fault: DecisionItem -> Option<FailureCode>)
    ensures FirstFault(items, fault) == None <==> forall i :: 0 <= i < |items| ==> fault(items[i]) == None
  {
    if items != [] {
      FirstFaultNone(items[1..], fault);
      assert forall i :: 0 < i < |items| ==> items[i] == items[1..][i - 1];
      assert items == [items[0]] + items[1..];
    }
  }

  lemma {:induction false} FindDecisionNone(ds: seq<DecisionRecord>, key: string)
    ensures FindDecision(ds, key) == None <==> forall i :: 0 <= i < |ds| ==> ds[i].idempotencyKey != key
  {
    if ds != [] {
      FindDecisionNone(ds[1..], key);
      assert ds == [ds[0]] + ds[1..];
      assert forall i :: 0 < i < |ds| ==> ds[i] == ds[1..][i - 1];
    }
  }

  lemma {:induction false} ItemFaultsNone(m: map<string, Request>, items: seq<DecisionItem>, at: Time)
    ensures FirstFault(items, item => ItemFault(m, item, at)) == None <==>
              forall i :: 0 <= i < |items| ==> ItemAdmitted(m, items[i], at)
  {
    var fault := item => ItemFault(m, item, at);
    FirstFaultNone(items, fault);
    forall i | 0 <= i < |items|
      ensures fault(items[i]) == None <==> ItemAdmitted(m, items[i], at)
    {
    }
  }

  lemma {:induction false} AuthorityFaultsNone(m: map<string, Request>, a: Actor, items: seq<DecisionItem>, at: Time)
    requires forall i :: 0 <= i < |items| ==> items[i].requestId in m
    ensures FirstFault(items, item => AuthorityFault(m, a, item, at)) == None <==>
              && (items != [] ==> a.revocation != Revoked)
              && forall i :: 0 <= i < |items| ==> Authorized(a, m[items[i].requestId], items[i].decision, at)
  {
    var fault := item => AuthorityFault(m, a, item, at);
    FirstFaultNone(items, fault);
    forall i | 0 <= i < |items|
      ensures fault(items[i]) == None <==> a.revocation != Revoked && Authorized(a, m[items[i].requestId], items[i].decision, at)
    {
    }
    if items != [] && FirstFault(items, fault) == None { assert fault(items[0]) == None; }
  }

  lemma {:induction false} AuthorizedMayDecide(a: Actor, r: Request, d: Decision, at: Time)
    ensures Authorized(a, r, d, at) <==> MayDecide(a, r, d, at)
  {
  }

  lemma {:induction false} ApartIsNoDuplicate(items: seq<DecisionItem>)
    ensures ItemsApart(items) <==> !DuplicateItems(items)
  {
  }

  /** The fixed sequence of rejections lets a batch through as new exactly when all of its
      independent conditions hold. */
  lemma {:induction false} AdmittedExactlyWhen(h: Hasher, s: State, b: DecisionBatch, resolved: Option<Snapshot>,
                                        observedRun: int, at: Time)
    ensures DecisionVerdictFor(h, s, b, resolved, observedRun, at).NewDecision? <==>
            DecisionAdmissible(s, b, resolved, observedRun, at)
  {
    hide ItemFault, AuthorityFault, FirstFault, Authorized, MayDecide, FindDecision, Index;
    var m := Index(s.files.ledger.requests);
    FindDecisionNone(s.files.decisions, b.idempotencyKey);
    ItemFaultsNone(m, b.items, at);
    ApartIsNoDuplicate(b.items);
    forall r, d ensures Authorized(b.actor, r, d, at) <==> MayDecide(b.actor, r, d, at) {
      AuthorizedMayDecide(b.actor, r, d, at);
    }
    assert ConflictingItems(b.items) ==> DuplicateItems(b.items);
    if forall i :: 0 <= i < |b.items| ==> ItemAdmitted(m, b.items[i], at) {
      forall i | 0 <= i < |b.items| ensures b.items[i].requestId in m { assert ItemAdmitted(m, b.items[i], at); }
      AuthorityFaultsNone(m, b.actor, b.items, at);
    }
  }

  // ------------------------------------------------------------------ the results are the batch

  function ResultFromItem(i: DecisionItem): DecisionResult {
    DecisionResult(i.requestId, i.expectedRevision + 1, i.actionDigest, i.decision)
  }

  function BatchResults(items: seq<DecisionItem>): seq<DecisionResult> {
    seq(|items|, i requires 0 <= i < |items| => ResultFromItem(items[i]))
  }

  lemma {:induction false} DecisionMapExact(items: seq<DecisionItem>)
    requires !DuplicateItems(items)
    ensures forall i :: 0 <= i < |items| ==>
              items[i].requestId in DecisionMap(items) && DecisionMap(items)[items[i].requestId] == items[i].decision
    ensures forall id :: id in DecisionMap(items) ==> exists i :: 0 <= i < |items| && items[i].requestId == id
  {
    if items != [] {
      var init := items[..|items| - 1];
      assert !DuplicateItems(init) by {
        if i, j :| 0 <= i < j < |init| && init[i].requestId == init[j].requestId {
          assert items[i].requestId == items[j].requestId;
        }
      }
      DecisionMapExact(init);
      forall i | 0 <= i < |items|
        ensures items[i].requestId in DecisionMap(items) && DecisionMap(items)[items[i].requestId] == items[i].decision
      {
        if i < |init| { assert init[i] == items[i]; }
      }
      forall id | id in DecisionMap(items)
        ensures exists i :: 0 <= i < |items| && items[i].requestId == id
      {
        if id in DecisionMap(init) {
          var i :| 0 <= i < |init| && init[i].requestId == id;
          assert items[i].requestId == id;
        } else {
          assert items[|items| - 1].requestId == id;
        }
      }
    }
  }

  lemma {:induction false} ResultsForMember(rs: seq<Request>, d: map<string, Decision>, x: DecisionResult)
    ensures x in ResultsFor(rs, d) <==> exists r :: r in rs && x in ResultOf(r, d)
  {
    if rs != [] {
      var init, last := rs[..|rs| - 1], rs[|rs| - 1];
      ResultsForMember(init, d, x);
      assert rs == init + [last];
    }
  }

  lemma {:induction false} ResultsForDistinct(rs: seq<Request>, d: map<string, Decision>)
    requires DistinctRequests(rs)
    ensures DistinctResults(ResultsFor(rs, d))
  {
    if rs != [] {
      var init, last := rs[..|rs| - 1], rs[|rs| - 1];
      ResultsForDistinct(init, d);
      var s := ResultsFor(init, d);
      forall i | 0 <= i < |s|
        ensures s[i].requestId != last.requestId
      {
        ResultsForMember(init, d, s[i]);
        var r :| r in init && s[i] in ResultOf(r, d);
        var k :| 0 <= k < |init| && init[k] == r;
        assert rs[k].requestId != rs[|rs| - 1].requestId;
      }
    }
  }

  lemma {:induction false} ResultOrder()
    ensures TotalPreorder(ResultLe)
  {
    forall x, y ensures ResultLe(x, y) || ResultLe(y, x) { StringLeTotal(x.requestId, y.requestId); }
    forall x, y, z | ResultLe(x, y) && ResultLe(y, z) ensures ResultLe(x, z) {
      StringLeTransitive(x.requestId, y.requestId, z.requestId);
    }
  }

  lemma {:induction false} BatchResultsOrdered(items: seq<DecisionItem>)
    requires IsSorted(items, ItemLe) && !DuplicateItems(items)
    ensures IsSorted(BatchResults(items), ResultLe)
    ensures DistinctResults(BatchResults(items))
  {
  }

  lemma {:induction false} DistinctResultsAreDistinct(rs: seq<DecisionResult>)
    requires DistinctResults(rs)
    ensures Distinct(rs)
    ensures TiesAreEqual(rs, ResultLe)
  {
    forall x, y {:trigger ResultLe(x, y), ResultLe(y, x)} | x in rs && y in rs && ResultLe(x, y) && ResultLe(y, x)
      ensures x == y
    {
      StringLeAntisymmetric(x.requestId, y.requestId);
      var i :| 0 <= i < |rs| && rs[i] == x;
      var j :| 0 <= j < |rs| && rs[j] == y;
    }
  }

  lemma {:induction false} ResultInBatch(rs: seq<Request>, items: seq<DecisionItem>, at: Time, x: DecisionResult)
    requires DistinctRequests(rs) && !DuplicateItems(items)
    requires forall i :: 0 <= i < |items| ==> ItemAdmitted(Index(rs), items[i], at)
    requires x in ResultsFor(rs, DecisionMap(items))
    ensures x in BatchResults(items)
  {
    var d := DecisionMap(items);
    ResultsForMember(rs, d, x);
    var r :| r in rs && x in ResultOf(r, d);
    DecisionMapExact(items);
    var i :| 0 <= i < |items| && items[i].requestId == r.requestId;
    IndexComplete(rs, r);
    assert ItemAdmitted(Index(rs), items[i], at);
    assert BatchResults(items)[i] == x;
  }

  lemma {:induction false} BatchInResults(rs: seq<Request>, items: seq<DecisionItem>, at: Time, i: nat)
    requires DistinctRequests(rs) && !DuplicateItems(items) && i < |items|
    requires ItemAdmitted(Index(rs), items[i], at)
    ensures BatchResults(items)[i] in ResultsFor(rs, DecisionMap(items))
  {
    var d := DecisionMap(items);
    DecisionMapExact(items);
    IndexSound(rs, items[i].requestId);
    var r := Index(rs)[items[i].requestId];
    assert ResultOf(r, d) == [BatchResults(items)[i]];
    ResultsForMember(rs, d, BatchResults(items)[i]);
  }

  /** Filtering the ledger, bumping revisions and sorting gives back the batch, item by item. */
  lemma {:induction false} ResultsAreTheBatch(rs: seq<Request>, items: seq<DecisionItem>, at: Time)
    requires DistinctRequests(rs) && IsSorted(items, ItemLe) && !DuplicateItems(items)
    requires forall i :: 0 <= i < |items| ==> ItemAdmitted(Index(rs), items[i], at)
    ensures SortBy(ResultsFor(rs, DecisionMap(items)), ResultLe) == BatchResults(items)
  {
    var found, expected := ResultsFor(rs, DecisionMap(items)), BatchResults(items);
    ResultsForDistinct(rs, DecisionMap(items));
    BatchResultsOrdered(items);
    forall x
      ensures x in found <==> x in expected
    {
      if x in found { ResultInBatch(rs, items, at, x); }
      if x in expected {
        var i :| 0 <= i < |items| && expected[i] == x;
        BatchInResults(rs, items, at, i);
      }
    }
    DistinctResultsAreDistinct(found);
    DistinctResultsAreDistinct(expected);
    SameElements(found, expected);
    ResultOrder();
    SortBySorted(found, ResultLe);
    SortedUnique(expected, SortBy(found, ResultLe), ResultLe);
  }

  // ------------------------------------------------------------------ the build never fails

  lemma {:induction false} NewAdmission(h: Hasher, s: State, b: DecisionBatch, resolved: Option<Snapshot>,
                                        observedRun: int, at: Time)
    requires DecisionVerdictFor(h, s, b, resolved, observedRun, at).NewDecision?
    ensures resolved.Some?
    ensures DecisionVerdictFor(h, s, b, resolved, observedRun, at)
         == NewDecision(Admission(s, b, resolved.value, h(ActorP(b.actor)), h(DecisionBatchP(b))))
  {
  }

  /** What the checks establish, besides the state being one the reader accepts. */
  ghost predicate Checked(h: Hasher, a: Admission, at: Time) {
    var f, b := a.state.files, a.batch;
    && BatchValid(b)
    && SnapshotValid(h, a.snapshot) && a.snapshot.actor == b.actor
    && a.actorSha == h(ActorP(b.actor))
    && a.batchSha == h(DecisionBatchP(b))
    && b.runId == f.ledger.runId
    && b.expectedLedgerRevision == f.ledger.ledgerRevision
    && (forall i :: 0 <= i < |f.decisions| ==>
          f.decisions[i].idempotencyKey != b.idempotencyKey && f.decisions[i].decisionId != b.decisionId)
    && !DuplicateItems(b.items)
    && (forall i :: 0 <= i < |b.items| ==> ItemAdmitted(Index(f.ledger.requests), b.items[i], at))
  }

  lemma {:induction false} AdmissionIsChecked(h: Hasher, s: State, b: DecisionBatch, resolved: Option<Snapshot>,
                                        observedRun: int, at: Time)
    requires BatchValid(b)
    requires resolved.Some? ==> SnapshotValid(h, resolved.value)
    requires DecisionVerdictFor(h, s, b, resolved, observedRun, at).NewDecision?
    ensures Checked(h, DecisionVerdictFor(h, s, b, resolved, observedRun, at).admission, at)
    ensures b.expectedRunRevision == observedRun
  {
    AdmittedExactlyWhen(h, s, b, resolved, observedRun, at);
    ApartIsNoDuplicate(b.items);
    NewAdmission(h, s, b, resolved, observedRun, at);
  }

  lemma {:induction false} ResultsOfAdmission(h: Hasher, a: Admission, at: Time)
    requires Checked(h, a, at) && DistinctRequests(a.state.files.ledger.requests)
    ensures DecisionOutcomeFor(h, a).results == BatchResults(a.batch.items)
  {
    ResultsAreTheBatch(a.state.files.ledger.requests, a.batch.items, at);
  }

  lemma {:induction false} OutcomeBuilds(h: Hasher, a: Admission, at: Time)
    requires Checked(h, a, at) && LedgerValid(h, a.state.files.ledger)
    ensures OutcomeValid(DecisionOutcomeFor(h, a))
  {
    ResultsOfAdmission(h, a, at);
    BatchResultsOrdered(a.batch.items);
    PendingCountBound(DecidedRequests(a));
  }

  lemma {:induction false} LedgerIsDistinct(h: Hasher, l: Ledger)
    requires LedgerValid(h, l)
    ensures DistinctRequests(l.requests)
    ensures (l.decisionCount == 0 <==> l.decisionHead == None) && (l.auditCount == 0 <==> l.auditHead == None)
  {
  }

  lemma {:induction false} RecordBuilds(h: Hasher, a: Admission, at: Time)
    requires Checked(h, a, at) && LedgerValid(h, a.state.files.ledger)
    requires a.state.files.ledger.decisionHead == DecisionHead(a.state.files.decisions)
    ensures DecisionRecordValid(h, DecisionRecordFor(h, a))
  {
    hide LedgerValid, OutcomeValid, BatchValid, DuplicateItems, ItemAdmitted, DecidedRequests, IsSorted;
    LedgerIsDistinct(h, a.state.files.ledger);
    OutcomeBuilds(h, a, at);
    ResultsOfAdmission(h, a, at);
    var r := DecisionRecordFor(h, a);
    assert r.(recordSha := "") == r.(recordSha := "").(recordSha := "");
  }

  lemma {:induction false} EventBuilds(h: Hasher, a: Admission, at: Time)
    requires Checked(h, a, at) && LedgerValid(h, a.state.files.ledger)
    requires a.state.files.ledger.auditHead == AuditHead(a.state.files.events)
    ensures AuditEventValid(h, AuditEventFor(h, a))
  {
  }

  lemma {:induction false} DecidedIndexOf(h: Hasher, a: Admission)
    requires DistinctRequests(a.state.files.ledger.requests)
    ensures DistinctRequests(DecidedRequests(a))
    ensures Index(DecidedRequests(a)) ==
              DecidedIndex(Index(a.state.files.ledger.requests), DecisionMap(a.batch.items), a.state.files.ledger.ledgerRevision + 1)
  {
    var rs, d, rev := a.state.files.ledger.requests, DecisionMap(a.batch.items), a.state.files.ledger.ledgerRevision + 1;
    DecideAllDistinct(rs, d, rev);
    DistinctRequestsPermutation(DecideAll(rs, d, rev), DecidedRequests(a));
    IndexPermutation(DecideAll(rs, d, rev), DecidedRequests(a));
    IndexDecideAll(rs, d, rev);
  }

  /** Only pending requests are named. */
  lemma {:induction false} NamedArePending(rs: seq<Request>, items: seq<DecisionItem>, at: Time, id: string)
    requires !DuplicateItems(items) && id in DecisionMap(items)
    requires forall i :: 0 <= i < |items| ==> ItemAdmitted(Index(rs), items[i], at)
    ensures id in Index(rs) && Index(rs)[id].state == Pending
  {
    DecisionMapExact(items);
    var k :| 0 <= k < |items| && items[k].requestId == id;
    assert ItemAdmitted(Index(rs), items[k], at);
  }

  lemma {:induction false} DecidedRequestValid(h: Hasher, l: Ledger, items: seq<DecisionItem>, at: Time, i: nat)
    requires LedgerValid(h, l) && !DuplicateItems(items) && i < |l.requests|
    requires forall k :: 0 <= k < |items| ==> ItemAdmitted(Index(l.requests), items[k], at)
    ensures var r := DecideAll(l.requests, DecisionMap(items), l.ledgerRevision + 1)[i];
            RequestValid(h, r) && r.ledgerRevision <= l.ledgerRevision + 1
  {
    hide Index, DecisionMap, DuplicateItems, DistinctRequests, IsSorted;
    var q := l.requests[i];
    assert q in l.requests && RequestValid(h, q);
    if q.requestId in DecisionMap(items) {
      NamedArePending(l.requests, items, at, q.requestId);
      IndexComplete(l.requests, q);
    }
  }

  lemma {:induction false} CheckedItems(h: Hasher, a: Admission, at: Time)
    requires Checked(h, a, at)
    ensures !DuplicateItems(a.batch.items)
    ensures forall k :: 0 <= k < |a.batch.items| ==> ItemAdmitted(Index(a.state.files.ledger.requests), a.batch.items[k], at)
  {
  }

  lemma {:induction false} DecidedMembersValid(h: Hasher, a: Admission, at: Time, r: Request)
    requires LedgerValid(h, a.state.files.ledger) && !DuplicateItems(a.batch.items)
    requires forall k :: 0 <= k < |a.batch.items| ==> ItemAdmitted(Index(a.state.files.ledger.requests), a.batch.items[k], at)
    requires r in DecidedRequests(a)
    ensures RequestValid(h, r) && r.ledgerRevision <= a.state.files.ledger.ledgerRevision + 1
  {
    hide LedgerValid, RequestValid, ItemAdmitted, DuplicateItems;
    var l := a.state.files.ledger;
    var all := DecideAll(l.requests, DecisionMap(a.batch.items), l.ledgerRevision + 1);
    MultisetMember(all, DecidedRequests(a));
    var i :| 0 <= i < |all| && all[i] == r;
    DecidedRequestValid(h, l, a.batch.items, at, i);
  }

  lemma {:induction false} DecidedShape(a: Admission)
    ensures IsSorted(DecidedRequests(a), RequestLe)
    ensures |DecidedRequests(a)| == |a.state.files.ledger.requests|
  {
    var l := a.state.files.ledger;
    RequestOrder();
    SortBySorted(DecideAll(l.requests, DecisionMap(a.batch.items), l.ledgerRevision + 1), RequestLe);
  }

  lemma {:induction false} LedgerBuilds(h: Hasher, a: Admission, at: Time)
    requires Checked(h, a, at) && LedgerValid(h, a.state.files.ledger)
    requires |a.state.files.decisions| == |a.state.files.events| <= |a.state.files.ledger.requests|
    ensures LedgerValid(h, DecisionFiles(h, a).ledger)
  {
    hide Checked, RequestValid, ItemAdmitted, DuplicateItems, DecidedRequests, DecisionRecordFor, AuditEventFor, IsSorted,
         RequestLe, DistinctRequests;
    var l := a.state.files.ledger;
    var l' := DecisionFiles(h, a).ledger;
    CheckedItems(h, a, at);
    DecidedShape(a);
    DecidedIndexOf(h, a);
    forall r | r in l'.requests
      ensures RequestValid(h, r) && r.ledgerRevision <= l'.ledgerRevision
    {
      DecidedMembersValid(h, a, at, r);
    }
  }

  lemma {:induction false} AcceptedBasics(h: Hasher, f: Files)
    requires Accepts(h, f)
    ensures LedgerValid(h, f.ledger)
    ensures f.ledger.decisionHead == DecisionHead(f.decisions) && f.ledger.auditHead == AuditHead(f.events)
    ensures |f.decisions| == |f.events| <= |f.ledger.requests|
  {
    DecisionsAreFew(h, f);
  }

  /** Every record the builder constructs passes its own validator: a new admission made from an
      accepted state always commits. */
  lemma {:induction false} DecisionBuildIsTotal(h: Hasher, s: State, b: DecisionBatch, resolved: Option<Snapshot>,
                                        observedRun: int, at: Time)
    requires Accepts(h, s.files) && BatchValid(b)
    requires resolved.Some? ==> SnapshotValid(h, resolved.value)
    requires DecisionVerdictFor(h, s, b, resolved, observedRun, at).NewDecision?
    ensures var a := DecisionVerdictFor(h, s, b, resolved, observedRun, at).admission;
            DecisionBuilds(h, a) && DecisionOutcomeFor(h, a).results == BatchResults(b.items)
  {
    AdmissionIsChecked(h, s, b, resolved, observedRun, at);
    NewAdmission(h, s, b, resolved, observedRun, at);
    AcceptedBasics(h, s.files);
    CheckedBuilds(h, DecisionVerdictFor(h, s, b, resolved, observedRun, at).admission, at);
  }

  lemma {:induction false} CheckedBuilds(h: Hasher, a: Admission, at: Time)
    requires Checked(h, a, at) && LedgerValid(h, a.state.files.ledger)
    requires a.state.files.ledger.decisionHead == DecisionHead(a.state.files.decisions)
    requires a.state.files.ledger.auditHead == AuditHead(a.state.files.events)
    requires |a.state.files.decisions| == |a.state.files.events| <= |a.state.files.ledger.requests|
    ensures DecisionBuilds(h, a) && DecisionOutcomeFor(h, a).results == BatchResults(a.batch.items)
  {
    ResultsOfAdmission(h, a, at);
    OutcomeBuilds(h, a, at);
    RecordBuilds(h, a, at);
    EventBuilds(h, a, at);
    LedgerBuilds(h, a, at);
  }
}
