/** The reissue loop as a whole. */
module ApprovalReissueFold {
  import opened Basics
  import opened ApprovalModels
  import opened ApprovalProjection
  import opened ApprovalWriter
  import opened ApprovalReissue
  import opened ApprovalIndex
  import opened ApprovalEvolution
  import opened ApprovalReissueStep

  /** A source the loop can process: the exact pending request of the starting ledger, or a
      historical request whose snapshot is in the projection. */
  ghost predicate SourceReady(h: Hasher, runId: string, legacy: seq<V1Snapshot>, l: Ledger, item: ReissueItem,
                              source: Source) {
    match source
    case V2Source(r) =>
      item.kind == ApprovalV2 && r in l.requests && r.requestId == item.sourceId && r.state == Pending
    case V1Source(v) =>
      && item.kind == HistoricalV1 && v.approvalId == item.sourceId
      && FindSnapshot(legacy, v.approvalId).Some?
  }

  /** What the checks establish for the loop. */
  ghost predicate LoopReady(h: Hasher, a: ReissueAdmission, legacy: seq<V1Snapshot>, l: Ledger) {
    && ReissueBatchValid(a.batch)
    && a.observedRun >= 1
    && LedgerValid(h, l) && l.runId == a.batch.runId
    && |a.sources| == |a.batch.items|
    && (forall s :: s in legacy ==> V1SnapshotValid(h, s) && s.runId == a.batch.runId)
    && (forall i :: 0 <= i < |a.batch.items| ==> SourceReady(h, a.batch.runId, legacy, l, a.batch.items[i], a.sources[i]))
    && (forall i :: 0 <= i < |a.batch.items| ==> a.batch.items[i].successor.actionPlan.expiresAt > a.batch.reissuedAt)
  }

  lemma {:induction false} SuccessorIsValid(h: Hasher, a: ReissueAdmission, legacy: seq<V1Snapshot>, l: Ledger,
                                        l': Ledger, k: nat)
    requires LoopReady(h, a, legacy, l) && k < |a.batch.items| && l'.ledgerRevision >= 0
    ensures RequestValid(h, SuccessorFor(h, a, l', a.batch.items[k]))
  {
  }

  lemma {:induction false} FindSnapshotSound(ss: seq<V1Snapshot>, id: string)
    requires FindSnapshot(ss, id).Some?
    ensures FindSnapshot(ss, id).value in ss && FindSnapshot(ss, id).value.request.approvalId == id
  {
    if ss[0].request.approvalId != id {
      FindSnapshotSound(ss[1..], id);
    }
  }

  predicate Unclashing(rs: seq<Request>, s: Request) {
    forall q :: q in rs ==> !Clash(q, s)
  }

  lemma {:induction false} AddedFacts(h: Hasher, l: Ledger, s: Request)
    requires LedgerValid(h, l) && RequestValid(h, s) && s.ledgerRevision == l.ledgerRevision + 1
    requires AddRequest(h, l, s).Added?
    ensures s.requestId !in Index(l.requests)
    ensures AddRequest(h, l, s).ledger == Appended(l, s) && LedgerValid(h, Appended(l, s))
    ensures Index(Appended(l, s).requests) == Index(l.requests)[s.requestId := s]
  {
    AddNext(h, l, s);
    IndexAppend(l.requests, s);
  }

  lemma {:induction false} SourceUntouched(h: Hasher, a: ReissueAdmission, legacy: seq<V1Snapshot>, l: Ledger,
                                        p: Progress, k: nat, r: Request)
    requires LoopReady(h, a, legacy, l) && k < |a.batch.items| && Advanced(h, a, legacy, l, p, k)
    requires a.sources[k] == V2Source(r)
    ensures r.requestId in Index(p.ledger.requests) && Index(p.ledger.requests)[r.requestId] == r
    ensures r.requestId in Index(l.requests) && Index(l.requests)[r.requestId] == r
    ensures r in p.ledger.requests && r.state == Pending && r.supersessionReference == None && RequestValid(h, r)
    ensures r.ledgerRevision <= p.ledger.ledgerRevision
  {
    assert SourceReady(h, a.batch.runId, legacy, l, a.batch.items[k], a.sources[k]);
    IndexComplete(l.requests, r);
    assert forall i :: 0 <= i < k ==> a.batch.items[i].sourceId != r.requestId;
    IndexSound(p.ledger.requests, r.requestId);
  }

  function Marked(l: Ledger, s: Request, r: Request): Ledger {
    var appended := Appended(l, s);
    appended.(requests := SortBy(Replace(appended.requests, Supersede(r, s.ledgerRevision, s.requestId)), RequestLe))
  }

  lemma {:induction false} MarkedFacts(h: Hasher, l: Ledger, s: Request, r: Request)
    requires LedgerValid(h, l) && RequestValid(h, s) && s.ledgerRevision == l.ledgerRevision + 1
    requires AddRequest(h, l, s).Added? && r in l.requests && r.state == Pending
    ensures r.requestId != s.requestId && r.requestId in Index(l.requests)
    ensures LedgerValid(h, Marked(l, s, r)) && |Marked(l, s, r).requests| == |l.requests| + 1
    ensures Index(Marked(l, s, r).requests)
         == Index(l.requests)[s.requestId := s][r.requestId := Supersede(r, s.ledgerRevision, s.requestId)]
  {
    AddedFacts(h, l, s);
    IndexComplete(l.requests, r);
    SupersedeValid(h, Appended(l, s), r, s.requestId);
  }

  lemma {:induction false} UntouchedStep(a: ReissueAdmission, m: map<string, Request>, m1: map<string, Request>,
                                        m2: map<string, Request>, k: nat)
    requires k < |a.batch.items| && Untouched(a, m, m1, k)
    requires forall id :: id in m1 && id != a.batch.items[k].sourceId && id in m ==> id in m2 && m2[id] == m1[id]
    ensures Untouched(a, m, m2, k + 1)
  {
    forall id | id in m && (forall i :: 0 <= i < k + 1 ==> a.batch.items[i].sourceId != id)
      ensures id in m2 && m2[id] == m[id]
    {
      assert a.batch.items[k].sourceId != id;
    }
  }

  lemma {:induction false} PlacedSuccessors(h: Hasher, a: ReissueAdmission, legacy: seq<V1Snapshot>, p: Progress,
                                        k: nat)
    requires k <= |a.batch.items| && |p.results| == k && Placed(h, a, legacy, p, k)
    ensures forall i :: 0 <= i < k ==> p.results[i].successorId in Index(p.ledger.requests)
  {
    forall i | 0 <= i < k
      ensures p.results[i].successorId in Index(p.ledger.requests)
    {
      assert SuccessorProjected(h, Index(p.ledger.requests), p.results[i]);
    }
  }

  /** What one pass must deliver to move the loop state forward. */
  ghost predicate Moves(h: Hasher, a: ReissueAdmission, legacy: seq<V1Snapshot>, m: map<string, Request>,
                        p: Progress, p': Progress, k: nat, x: ReissueResult)
    requires k < |a.batch.items|
  {
    var m1, m2 := Index(p.ledger.requests), Index(p'.ledger.requests);
    && LedgerValid(h, p'.ledger)
    && p'.ledger == p.ledger.(ledgerRevision := p.ledger.ledgerRevision + 1, requests := p'.ledger.requests)
    && |p'.ledger.requests| == |p.ledger.requests| + 1
    && p'.results == p.results + [x]
    && Evolves(m1, m2)
    && x.successorId !in m1
    && m2.Keys == m1.Keys + {x.successorId} && m2[x.successorId].state == Pending
    && (forall id :: id in m1 && (id != a.batch.items[k].sourceId || id !in m) ==> m2[id] == m1[id])
    && ReissueResultValid(h, x)
    && PairProjected(h, a.batch.runId, m2, legacy, a.batch.items[k], x)
  }

  lemma {:induction false} AdvancedMoves(h: Hasher, a: ReissueAdmission, legacy: seq<V1Snapshot>, l: Ledger,
                      p: Progress, p': Progress, k: nat, x: ReissueResult)
    requires k < |a.batch.items| && Advanced(h, a, legacy, l, p, k)
    requires Moves(h, a, legacy, Index(l.requests), p, p', k, x)
    ensures Advanced(h, a, legacy, l, p', k + 1)
  {
    var m, m1, m2 := Index(l.requests), Index(p.ledger.requests), Index(p'.ledger.requests);
    EvolvesTransitive(m, m1, m2);
    PlacedEvolves(h, a, legacy, p, p', k);
    UntouchedStep(a, m, m1, m2, k);
    PlacedSuccessors(h, a, legacy, p, k);
    FreshGrows(m, m1, m2, p.results, x);
  }

  lemma {:induction false} V2ResultPlaced(h: Hasher, runId: string, legacy: seq<V1Snapshot>, m1: map<string,
                                        Request>, m2: map<string, Request>,
                       item: ReissueItem, r: Request, s: Request)
    requires item.kind == ApprovalV2 && item.sourceId == r.requestId && r.requestId != s.requestId
    requires r.state == Pending && RequestValid(h, r)
    requires s.state == Pending && RequestValid(h, s) && s.createdRunRevision >= 2
    requires m2 == m1[s.requestId := s][r.requestId := Supersede(r, s.ledgerRevision, s.requestId)]
    ensures ReissueResultValid(h, ResultFor(h, V2Binding(h, r), s))
    ensures PairProjected(h, runId, m2, legacy, item, ResultFor(h, V2Binding(h, r), s))
  {
    SuccessorProjectedNow(h, m2, V2Binding(h, r), s);
    SourceProjectedNow(h, runId, m2, legacy, r, Supersede(r, s.ledgerRevision, s.requestId), s);
  }

  lemma {:induction false} PendingMemberValid(h: Hasher, l: Ledger, r: Request)
    requires LedgerValid(h, l) && r in l.requests
    ensures RequestValid(h, r) && DistinctRequests(l.requests) && r.ledgerRevision <= l.ledgerRevision
  {
  }

  lemma {:induction false} V2Moves(h: Hasher, a: ReissueAdmission, legacy: seq<V1Snapshot>, m: map<string, Request>,
                p: Progress, k: nat, r: Request, s: Request)
    requires k < |a.batch.items| && LedgerValid(h, p.ledger)
    requires RequestValid(h, s) && s.state == Pending && s.createdRunRevision >= 2
    requires s.ledgerRevision == p.ledger.ledgerRevision + 1 && AddRequest(h, p.ledger, s).Added?
    requires r in p.ledger.requests && r.state == Pending && r.requestId in m
    requires a.batch.items[k].kind == ApprovalV2 && a.batch.items[k].sourceId == r.requestId
    ensures Moves(h, a, legacy, m, p, Progress(Marked(p.ledger, s, r), p.results + [ResultFor(h, V2Binding(h, r), s)]), k,
                  ResultFor(h, V2Binding(h, r), s))
  {
    hide LedgerValid, AddRequest, Index, Evolves, PairProjected, ReissueResultValid, SortBy, Replace;
    var u := Supersede(r, s.ledgerRevision, s.requestId);
    var m1, m2 := Index(p.ledger.requests), Index(Marked(p.ledger, s, r).requests);
    PendingMemberValid(h, p.ledger, r);
    assert r.requestId != s.requestId && m2 == m1[s.requestId := s][r.requestId := u]
        && LedgerValid(h, Marked(p.ledger, s, r)) && |Marked(p.ledger, s, r).requests| == |p.ledger.requests| + 1 by {
      MarkedFacts(h, p.ledger, s, r);
    }
    assert s.requestId !in m1 by { AddedFacts(h, p.ledger, s); }
    assert r.requestId in m1 && m1[r.requestId] == r by { IndexComplete(p.ledger.requests, r); }
    StepEvolves(m1, s, r, u);
    V2ResultPlaced(h, a.batch.runId, legacy, m1, m2, a.batch.items[k], r, s);
  }

  lemma {:induction false} V1Moves(h: Hasher, a: ReissueAdmission, legacy: seq<V1Snapshot>, m: map<string, Request>,
                p: Progress, k: nat, snapshot: V1Snapshot, s: Request)
    requires k < |a.batch.items| && LedgerValid(h, p.ledger)
    requires RequestValid(h, s) && s.state == Pending && s.requestRevision == 1 && s.createdRunRevision >= 2
    requires s.ledgerRevision == p.ledger.ledgerRevision + 1 && AddRequest(h, p.ledger, s).Added?
    requires snapshot in legacy && snapshot.runId == a.batch.runId && V1SnapshotValid(h, snapshot)
    requires a.batch.items[k].kind == HistoricalV1 && a.batch.items[k].sourceId == snapshot.request.approvalId
    ensures Moves(h, a, legacy, m, p, Progress(Appended(p.ledger, s), p.results + [ResultFor(h, V1Binding(snapshot), s)]), k,
                  ResultFor(h, V1Binding(snapshot), s))
  {
    hide LedgerValid, AddRequest;
    AddedFacts(h, p.ledger, s);
    SuccessorProjectedNow(h, Index(Appended(p.ledger, s).requests), V1Binding(snapshot), s);
  }

  lemma {:induction false} AddedLedger(h: Hasher, l: Ledger, s: Request)
    requires AddRequest(h, l, s).Added?
    ensures AddRequest(h, l, s) == Added(Appended(l, s)) && s.ledgerRevision == l.ledgerRevision + 1
  {
  }

  lemma {:induction false} OnePass(h: Hasher, a: ReissueAdmission, legacy: seq<V1Snapshot>, p: Progress,
                                   item: ReissueItem, source: Source)
    requires RequestValid(h, SuccessorFor(h, a, p.ledger, item))
    requires AddRequest(h, p.ledger, SuccessorFor(h, a, p.ledger, item)).Added?
    ensures source.V2Source? ==>
              ReissueOne(h, a, legacy, p, item, source)
              == Ok(Progress(Marked(p.ledger, SuccessorFor(h, a, p.ledger, item), source.request),
                             p.results + [ResultFor(h, V2Binding(h, source.request), SuccessorFor(h, a, p.ledger, item))]))
    ensures source.V1Source? && FindSnapshot(legacy, source.v1.approvalId).Some? ==>
              ReissueOne(h, a, legacy, p, item, source)
              == Ok(Progress(Appended(p.ledger, SuccessorFor(h, a, p.ledger, item)),
                             p.results + [ResultFor(h, V1Binding(FindSnapshot(legacy, source.v1.approvalId).value),
                                                    SuccessorFor(h, a, p.ledger, item))]))
  {
    AddedLedger(h, p.ledger, SuccessorFor(h, a, p.ledger, item));
  }

  lemma {:induction false} StepV2(h: Hasher, a: ReissueAdmission, legacy: seq<V1Snapshot>, l: Ledger, p: Progress,
                                  k: nat, r: Request)
    requires LoopReady(h, a, legacy, l) && k < |a.batch.items| && Advanced(h, a, legacy, l, p, k)
    requires a.sources[k] == V2Source(r)
    requires AddRequest(h, p.ledger, SuccessorFor(h, a, p.ledger, a.batch.items[k])).Added?
    ensures var one := ReissueOne(h, a, legacy, p, a.batch.items[k], a.sources[k]);
            one.Ok? && Advanced(h, a, legacy, l, one.value, k + 1)
  {
    var s := SuccessorFor(h, a, p.ledger, a.batch.items[k]);
    var x := ResultFor(h, V2Binding(h, r), s);
    SuccessorIsValid(h, a, legacy, l, p.ledger, k);
    OnePass(h, a, legacy, p, a.batch.items[k], a.sources[k]);
    assert Moves(h, a, legacy, Index(l.requests), p, Progress(Marked(p.ledger, s, r), p.results + [x]), k, x) by {
      SourceUntouched(h, a, legacy, l, p, k, r);
      assert SourceReady(h, a.batch.runId, legacy, l, a.batch.items[k], a.sources[k]);
      V2Moves(h, a, legacy, Index(l.requests), p, k, r, s);
    }
    AdvancedMoves(h, a, legacy, l, p, Progress(Marked(p.ledger, s, r), p.results + [x]), k, x);
  }

  lemma {:induction false} StepV1(h: Hasher, a: ReissueAdmission, legacy: seq<V1Snapshot>, l: Ledger, p: Progress,
                                  k: nat, v: V1Request)
    requires LoopReady(h, a, legacy, l) && k < |a.batch.items| && Advanced(h, a, legacy, l, p, k)
    requires a.sources[k] == V1Source(v)
    requires AddRequest(h, p.ledger, SuccessorFor(h, a, p.ledger, a.batch.items[k])).Added?
    ensures var one := ReissueOne(h, a, legacy, p, a.batch.items[k], a.sources[k]);
            one.Ok? && Advanced(h, a, legacy, l, one.value, k + 1)
  {
    var s := SuccessorFor(h, a, p.ledger, a.batch.items[k]);
    SuccessorIsValid(h, a, legacy, l, p.ledger, k);
    OnePass(h, a, legacy, p, a.batch.items[k], a.sources[k]);
    assert SourceReady(h, a.batch.runId, legacy, l, a.batch.items[k], a.sources[k]);
    FindSnapshotSound(legacy, v.approvalId);
    var snapshot := FindSnapshot(legacy, v.approvalId).value;
    var x := ResultFor(h, V1Binding(snapshot), s);
    V1Moves(h, a, legacy, Index(l.requests), p, k, snapshot, s);
    AdvancedMoves(h, a, legacy, l, p, Progress(Appended(p.ledger, s), p.results + [x]), k, x);
  }

  lemma {:induction false} AdvancedStart(h: Hasher, a: ReissueAdmission, legacy: seq<V1Snapshot>, l: Ledger)
    requires LoopReady(h, a, legacy, l)
    ensures Advanced(h, a, legacy, l, Progress(l, []), 0)
  {
  }

  /** A pass fails only where the new request is refused. */
  lemma {:induction false} PassOutcome(h: Hasher, a: ReissueAdmission, legacy: seq<V1Snapshot>, l: Ledger,
                                       p: Progress, k: nat)
    requires LoopReady(h, a, legacy, l) && k < |a.batch.items| && Advanced(h, a, legacy, l, p, k)
    ensures var s := SuccessorFor(h, a, p.ledger, a.batch.items[k]);
            var one := ReissueOne(h, a, legacy, p, a.batch.items[k], a.sources[k]);
            && (one.Ok? <==> Unclashing(p.ledger.requests, s) && |p.ledger.requests| < MAX_REQUESTS)
            && (one.Ok? ==> Advanced(h, a, legacy, l, one.value, k + 1))
  {
    var s := SuccessorFor(h, a, p.ledger, a.batch.items[k]);
    SuccessorIsValid(h, a, legacy, l, p.ledger, k);
    AddNext(h, p.ledger, s);
    if AddRequest(h, p.ledger, s).Added? {
      match a.sources[k]
      case V2Source(r) => StepV2(h, a, legacy, l, p, k, r);
      case V1Source(v) => StepV1(h, a, legacy, l, p, k, v);
    }
  }

  lemma {:induction false} LoopAdvances(h: Hasher, a: ReissueAdmission, legacy: seq<V1Snapshot>, l: Ledger, k: nat)
    requires LoopReady(h, a, legacy, l) && k <= |a.batch.items|
    ensures ReissueAll(h, a, legacy, l, k).Ok? ==> Advanced(h, a, legacy, l, ReissueAll(h, a, legacy, l, k).value, k)
  {
    if k == 0 {
      AdvancedStart(h, a, legacy, l);
    } else {
      LoopAdvances(h, a, legacy, l, k - 1);
      if ReissueAll(h, a, legacy, l, k - 1).Ok? {
        PassOutcome(h, a, legacy, l, ReissueAll(h, a, legacy, l, k - 1).value, k - 1);
      }
    }
  }
}
