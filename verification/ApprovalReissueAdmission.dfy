/** From the reissue checks to the committed state, and exactly when a reissue can be built. */
module ApprovalReissueAdmission {
  import opened Basics
  import opened ApprovalModels
  import opened ApprovalProjection
  import opened ApprovalWriter
  import opened ApprovalReissue
  import opened ApprovalIndex
  import opened ApprovalReissueFold
  import opened ApprovalReissueCommit

  // ------------------------------------------------------------------ sources of a V2 reissue

  lemma {:induction false} FirstSourceFaultNone(m: map<string, Request>, items: seq<ReissueItem>, at: Time)
    ensures FirstSourceFault(m, items, at) == None <==> forall i :: 0 <= i < |items| ==> SourceFault(m, items[i], at) == None
  {
    if items != [] {
      FirstSourceFaultNone(m, items[1..], at);
      assert items == [items[0]] + items[1..];
      assert forall i :: 0 < i < |items| ==> items[i] == items[1..][i - 1];
    }
  }

  lemma {:induction false} V2SourcesExact(m: map<string, Request>, items: seq<ReissueItem>)
    requires forall i :: 0 <= i < |items| ==> items[i].sourceId in m
    ensures |V2Sources(m, items)| == |items|
    ensures forall i :: 0 <= i < |items| ==> V2Sources(m, items)[i] == V2Source(m[items[i].sourceId])
  {
    if items != [] {
      var init := items[..|items| - 1];
      assert forall i :: 0 <= i < |init| ==> init[i] == items[i];
      V2SourcesExact(m, init);
      assert items[|items| - 1].sourceId in m;
    }
  }

  lemma {:induction false} V1SourcesExact(m: map<string, V1Request>, items: seq<ReissueItem>)
    requires forall i :: 0 <= i < |items| ==> items[i].sourceId in m
    ensures |V1Sources(m, items)| == |items|
    ensures forall i :: 0 <= i < |items| ==> V1Sources(m, items)[i] == V1Source(m[items[i].sourceId])
  {
    if items != [] {
      var init := items[..|items| - 1];
      assert forall i :: 0 <= i < |init| ==> init[i] == items[i];
      V1SourcesExact(m, init);
      assert items[|items| - 1].sourceId in m;
    }
  }

  lemma {:induction false} FindReissueNone(rs: seq<ReissueRecord>, key: string)
    ensures FindReissue(rs, key) == None <==> forall i :: 0 <= i < |rs| ==> rs[i].idempotencyKey != key
  {
    if rs != [] {
      FindReissueNone(rs[1..], key);
      assert rs == [rs[0]] + rs[1..];
      assert forall i :: 0 < i < |rs| ==> rs[i] == rs[1..][i - 1];
    }
  }

  /** What a caller holds after `ValidateReissue` says "new" for an existing state. */
  lemma {:induction false} V2AdmissionIsReady(h: Hasher, s: State, legacy: seq<V1Request>, b: ReissueBatch, run: int,
                                        ms: Sha, ps: Sha)
    requires LedgerValid(h, s.files.ledger) && ReissueBatchValid(b)
    requires ReissueVerdictFor(h, Some(s), legacy, b, run, ms, ps).NewReissue?
    ensures var a := ReissueVerdictFor(h, Some(s), legacy, b, run, ms, ps).admission;
            && a.state == Some(s) && a.legacy == [] && a.batch == b && a.observedRun == run
            && LoopReady(h, a, [], s.files.ledger) && ReissueChecked(h, a, [])
  {
    var m := Index(s.files.ledger.requests);
    FindReissueNone(s.files.reissues, b.idempotencyKey);
    FirstSourceFaultNone(m, b.items, b.reissuedAt);
    var a := ReissueVerdictFor(h, Some(s), legacy, b, run, ms, ps).admission;
    assert StateFault(s.files, legacy, b) == None;
    forall i | 0 <= i < |b.items|
      ensures b.items[i].sourceId in m && m[b.items[i].sourceId].state == Pending
    {
      assert SourceFault(m, b.items[i], b.reissuedAt) == None;
    }
    V2SourcesExact(m, b.items);
    forall i | 0 <= i < |b.items|
      ensures SourceReady(h, b.runId, [], s.files.ledger, b.items[i], a.sources[i])
    {
      IndexSound(s.files.ledger.requests, b.items[i].sourceId);
    }
  }

  // ------------------------------------------------------------------ sources of a historical reissue

  lemma {:induction false} PendingLegacySound(legacy: seq<V1Request>, id: string)
    requires id in PendingLegacy(legacy)
    ensures PendingLegacy(legacy)[id] in legacy && PendingLegacy(legacy)[id].approvalId == id
  {
    var init, last := legacy[..|legacy| - 1], legacy[|legacy| - 1];
    assert legacy == init + [last];
    if !(last.status == V1Pending && last.approvalId == id) {
      PendingLegacySound(init, id);
    }
  }

  lemma {:induction false} FindSnapshotComplete(ss: seq<V1Snapshot>, x: V1Snapshot)
    requires x in ss
    ensures FindSnapshot(ss, x.request.approvalId).Some?
  {
    if ss[0].request.approvalId != x.request.approvalId {
      assert x in ss[1..] by { assert ss == [ss[0]] + ss[1..]; }
      FindSnapshotComplete(ss[1..], x);
    }
  }

  lemma {:induction false} SnapshotOrder()
    ensures TotalPreorder(SnapshotLe)
  {
    forall x, y ensures SnapshotLe(x, y) || SnapshotLe(y, x) { StringLeTotal(x.request.approvalId, y.request.approvalId); }
    forall x, y, z | SnapshotLe(x, y) && SnapshotLe(y, z) ensures SnapshotLe(x, z) {
      StringLeTransitive(x.request.approvalId, y.request.approvalId, z.request.approvalId);
    }
  }

  function Snapshots(h: Hasher, runId: string, legacy: seq<V1Request>): seq<V1Snapshot> {
    seq(|legacy|, i requires 0 <= i < |legacy| => SnapshotOf(h, runId, legacy[i]))
  }

  lemma {:induction false} LegacyProjectionWellFormed(h: Hasher, runId: string, legacy: seq<V1Request>)
    requires DistinctLegacy(legacy) && |legacy| <= MAX_REQUESTS
    ensures LegacyWellFormed(h, LegacyProjection(h, runId, legacy))
    ensures forall v :: v in legacy ==> SnapshotOf(h, runId, v) in LegacyProjection(h, runId, legacy)
    ensures forall s :: s in LegacyProjection(h, runId, legacy) ==> s.runId == runId && V1SnapshotValid(h, s)
    ensures |LegacyProjection(h, runId, legacy)| == |legacy|
  {
    var all, sorted := Snapshots(h, runId, legacy), LegacyProjection(h, runId, legacy);
    assert sorted == SortBy(all, SnapshotLe);
    SnapshotOrder();
    SortBySorted(all, SnapshotLe);
    MultisetMember(all, sorted);
    assert Distinct(all);
    DistinctPermutation(all, sorted);
    forall v | v in legacy ensures SnapshotOf(h, runId, v) in sorted {
      var i :| 0 <= i < |legacy| && legacy[i] == v;
      assert all[i] == SnapshotOf(h, runId, v);
    }
    forall i, j | 0 <= i < j < |sorted|
      ensures sorted[i].request.approvalId != sorted[j].request.approvalId
      ensures StringLe(sorted[i].request.approvalId, sorted[j].request.approvalId)
    {
      assert SnapshotLe(sorted[i], sorted[j]);
      assert sorted[i] in all && sorted[j] in all && sorted[i] != sorted[j];
      DistinctIds(h, runId, legacy, sorted[i], sorted[j]);
    }
  }

  lemma {:induction false} DistinctIds(h: Hasher, runId: string, legacy: seq<V1Request>, x: V1Snapshot, y: V1Snapshot)
    requires DistinctLegacy(legacy) && x in Snapshots(h, runId, legacy) && y in Snapshots(h, runId, legacy) && x != y
    ensures x.request.approvalId != y.request.approvalId
  {
    var all := Snapshots(h, runId, legacy);
    var i :| 0 <= i < |all| && all[i] == x;
    var j :| 0 <= j < |all| && all[j] == y;
    assert if i < j then legacy[i].approvalId != legacy[j].approvalId else legacy[j].approvalId != legacy[i].approvalId;
  }

  lemma {:induction false} V1SourcesMatch(h: Hasher, legacy: seq<V1Request>, b: ReissueBatch, run: int, ms: Sha,
                                        ps: Sha)
    requires ReissueVerdictFor(h, None, legacy, b, run, ms, ps).NewReissue?
    ensures var a := ReissueVerdictFor(h, None, legacy, b, run, ms, ps).admission;
            && a == ReissueAdmission(b, run, ms, ps, None, legacy, V1Sources(PendingLegacy(legacy), b.items))
            && |a.sources| == |b.items|
            && forall i :: 0 <= i < |b.items| ==>
                 && b.items[i].sourceId in PendingLegacy(legacy)
                 && a.sources[i] == V1Source(PendingLegacy(legacy)[b.items[i].sourceId])
  {
    assert LegacyFault(legacy, b) == None;
    forall i | 0 <= i < |b.items|
      ensures b.items[i].sourceId in PendingLegacy(legacy)
    {
      assert b.items[i].sourceId in SelectedIds(b);
    }
    V1SourcesExact(PendingLegacy(legacy), b.items);
  }

  lemma {:induction false} V1AdmissionIsReady(h: Hasher, legacy: seq<V1Request>, b: ReissueBatch, run: int, ms: Sha,
                                        ps: Sha)
    requires ReissueBatchValid(b) && |legacy| <= MAX_REQUESTS
    requires ReissueVerdictFor(h, None, legacy, b, run, ms, ps).NewReissue?
    ensures var a := ReissueVerdictFor(h, None, legacy, b, run, ms, ps).admission;
            && a.state == None && a.legacy == legacy && a.batch == b && a.observedRun == run
            && LoopReady(h, a, LegacyProjection(h, b.runId, legacy), EmptyLedger(b.runId))
            && ReissueChecked(h, a, LegacyProjection(h, b.runId, legacy))
  {
    hide LegacyProjection, PendingLegacy, V1SnapshotValid, DistinctLegacy, BehindLegacy, SelectedIds;
    var a := ReissueVerdictFor(h, None, legacy, b, run, ms, ps).admission;
    var projection, pending := LegacyProjection(h, b.runId, legacy), PendingLegacy(legacy);
    assert LegacyFault(legacy, b) == None;
    LegacyProjectionWellFormed(h, b.runId, legacy);
    V1SourcesMatch(h, legacy, b, run, ms, ps);
    forall i | 0 <= i < |b.items|
      ensures SourceReady(h, b.runId, projection, EmptyLedger(b.runId), b.items[i], a.sources[i])
    {
      PendingLegacySound(legacy, b.items[i].sourceId);
      FindSnapshotComplete(projection, SnapshotOf(h, b.runId, pending[b.items[i].sourceId]));
    }
  }
}
