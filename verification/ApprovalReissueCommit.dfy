/** The reader accepts a committed reissue exactly when its run revision continues from the last commit. */
module ApprovalReissueCommit {
  import opened Basics
  import opened ApprovalModels
  import opened ApprovalReader
  import opened ApprovalProjection
  import opened ApprovalWriter
  import opened ApprovalReissue
  import opened ApprovalIndex
  import opened ApprovalConservation
  import opened ApprovalEvolution
  import opened ApprovalDecisionCommit
  import opened ApprovalReissueStep
  import opened ApprovalReissueFold

  /** The files a reissue starts from: none at all for a historical V1 run. */
  function BaseFiles(a: ReissueAdmission): Files {
    if a.state == None then EmptyFiles(a.batch.runId) else a.state.value.files
  }

  lemma {:induction false} EmptyIsAccepted(h: Hasher, runId: string)
    ensures Accepts(h, EmptyFiles(runId))
    ensures Timeline(EmptyFiles(runId).decisions, EmptyFiles(runId).reissues) == []
  {
    hide RequestValid, DecisionRecordValid, AuditEventValid, ReissueRecordValid, Explained, ReissueProjected, DecisionProjected;
  }

  /** What the checks establish about the batch, besides the readiness of the loop. */
  ghost predicate ReissueChecked(h: Hasher, a: ReissueAdmission, legacy: seq<V1Snapshot>) {
    var f, b := BaseFiles(a), a.batch;
    && ReissueBatchValid(b)
    && b.runId == f.ledger.runId
    && b.expectedRunRevision == a.observedRun
    && b.expectedLedgerRevision == f.ledger.ledgerRevision
    && (forall i :: 0 <= i < |f.reissues| ==>
          f.reissues[i].idempotencyKey != b.idempotencyKey && f.reissues[i].reissueId != b.reissueId)
    && !BehindTimeline(f, b.reissuedAt)
    && (legacy != [] <==> a.state == None)
    && (a.state == None ==> AllHistorical(b))
    && (a.state.Some? ==> AllV2(b))
    && LegacyWellFormed(h, legacy)
  }

  ghost predicate LegacyWellFormed(h: Hasher, legacy: seq<V1Snapshot>) {
    && |legacy| <= MAX_REQUESTS
    && (forall s :: s in legacy ==> V1SnapshotValid(h, s))
    && (forall i, j :: 0 <= i < j < |legacy| ==>
          && legacy[i].request.approvalId != legacy[j].request.approvalId
          && StringLe(legacy[i].request.approvalId, legacy[j].request.approvalId))
  }

  // ------------------------------------------------------------------ the outcome and the record

  lemma {:induction false} ResultsFollowItems(h: Hasher, a: ReissueAdmission, legacy: seq<V1Snapshot>, p: Progress)
    requires ReissueBatchValid(a.batch) && |p.results| == |a.batch.items|
    requires Placed(h, a, legacy, p, |a.batch.items|)
    ensures SortBy(p.results, ReissueResultLe) == p.results
    ensures forall i, j :: 0 <= i < j < |p.results| ==>
              && p.results[i].source.sourceId != p.results[j].source.sourceId
              && StringLe(p.results[i].source.sourceId, p.results[j].source.sourceId)
  {
    var items := a.batch.items;
    forall i | 0 <= i < |items|
      ensures p.results[i].source.sourceId == items[i].sourceId
    {
      assert PairProjected(h, a.batch.runId, Index(p.ledger.requests), legacy, items[i], p.results[i]);
    }
    SortByFixed(p.results, ReissueResultLe);
  }

  lemma {:induction false} PendingCountPositive(rs: seq<Request>, r: Request)
    requires r in rs && r.state == Pending
    ensures PendingCount(rs) >= 1
  {
    var init, last := rs[..|rs| - 1], rs[|rs| - 1];
    if last != r {
      assert r in init by { assert rs == init + [last]; }
      PendingCountPositive(init, r);
    }
  }

  lemma {:induction false} SomethingIsPending(h: Hasher, a: ReissueAdmission, legacy: seq<V1Snapshot>, l: Ledger,
                                        p: Progress)
    requires a.batch.items != [] && Advanced(h, a, legacy, l, p, |a.batch.items|)
    ensures PendingCount(p.ledger.requests) >= 1
  {
    PlacedSuccessors(h, a, legacy, p, |a.batch.items|);
    var id := p.results[0].successorId;
    IndexSound(p.ledger.requests, id);
    PendingCountPositive(p.ledger.requests, Index(p.ledger.requests)[id]);
  }

  lemma {:induction false} ReissueRecordBuilds(h: Hasher, a: ReissueAdmission, legacy: seq<V1Snapshot>, p: Progress)
    requires ReissueChecked(h, a, legacy) && a.observedRun >= 1
    requires LedgerValid(h, BaseFiles(a).ledger) && LedgerValid(h, p.ledger)
    requires Advanced(h, a, legacy, BaseFiles(a).ledger, p, |a.batch.items|)
    requires a.state.Some? ==> a.state.value.files.reissues == BaseFiles(a).reissues
    ensures ReissueOutcomeValid(h, ReissueOutcomeFrom(h, a, p))
    ensures ReissueRecordValid(h, ReissueRecordFrom(h, a, legacy, p))
    ensures ReissueRecordFrom(h, a, legacy, p).outcome.results == p.results
  {
    ResultsFollowItems(h, a, legacy, p);
    SomethingIsPending(h, a, legacy, BaseFiles(a).ledger, p);
    PendingCountBound(p.ledger.requests);
    OutcomeFromProgress(h, a, p);
    RecordFromOutcome(h, a, legacy, p);
  }

  lemma {:induction false} OutcomeFromProgress(h: Hasher, a: ReissueAdmission, p: Progress)
    requires a.observedRun >= 1 && StartLedger(a).ledgerRevision >= 0
    requires p.ledger.ledgerRevision == StartLedger(a).ledgerRevision + |p.results| && 1 <= |p.results| <= MAX_ITEMS
    requires 1 <= PendingCount(p.ledger.requests) <= MAX_REQUESTS
    requires SortBy(p.results, ReissueResultLe) == p.results
    requires forall i :: 0 <= i < |p.results| ==> ReissueResultValid(h, p.results[i])
    requires forall i, j :: 0 <= i < j < |p.results| ==>
               && p.results[i].source.sourceId != p.results[j].source.sourceId
               && StringLe(p.results[i].source.sourceId, p.results[j].source.sourceId)
    ensures ReissueOutcomeValid(h, ReissueOutcomeFrom(h, a, p))
  {
  }

  lemma {:induction false} RecordFromOutcome(h: Hasher, a: ReissueAdmission, legacy: seq<V1Snapshot>, p: Progress)
    requires ReissueOutcomeValid(h, ReissueOutcomeFrom(h, a, p))
    requires ReissueBatchValid(a.batch) && LegacyWellFormed(h, legacy)
    requires a.batch.expectedRunRevision == a.observedRun && a.batch.expectedLedgerRevision == StartLedger(a).ledgerRevision
    requires legacy != [] <==> a.state == None
    ensures ReissueRecordValid(h, ReissueRecordFrom(h, a, legacy, p))
  {
    var r := ReissueRecordFrom(h, a, legacy, p);
    assert r.(recordSha := "") == r.(recordSha := "").(recordSha := "");
  }

  // ------------------------------------------------------------------ the timeline

  lemma {:induction false} TimelineWithReissue(l: Ledger, ds: seq<DecisionRecord>, rs: seq<ReissueRecord>,
                                        l': Ledger, r: ReissueRecord)
    requires TimelineOk(l, ds, rs) && StepsByOne(Timeline(ds, rs))
    requires Timeline(ds, rs) == [] ==> RootCount(l, rs) == l.ledgerRevision
    requires Timeline(ds, rs) != [] ==> RootCount(l, rs) < l.ledgerRevision
    requires |r.outcome.results| >= 1 && |l'.requests| == |l.requests| + |r.outcome.results|
    requires l'.ledgerRevision == l.ledgerRevision + |r.outcome.results|
    requires r.outcome.previousLedgerRevision == l.ledgerRevision && r.outcome.currentLedgerRevision == l'.ledgerRevision
    requires r.outcome.currentRunRevision == r.outcome.previousRunRevision + 1
    ensures TimelineOk(l', ds, rs + [r]) <==>
              var s := Timeline(ds, rs);
              s == [] || (s[|s| - 1].currentRun == r.outcome.previousRunRevision && s[|s| - 1].committedAt <= r.committedAt)
    ensures TimelineOk(l', ds, rs + [r]) ==> Timeline(ds, rs + [r]) == Timeline(ds, rs) + [ReissueMutation(r)]
  {
    MutationsAfterReissue(ds, rs, r);
    FlatMapSnoc(ReissueResultsOf, rs, r);
    TimelineStep(l, ds, rs, l', ds, rs + [r], ReissueMutation(r));
  }

  lemma {:induction false} NotBehindAny(f: Files, at: Time, k: nat)
    requires !BehindTimeline(f, at) && k < |Mutations(f.decisions, f.reissues)|
    ensures Mutations(f.decisions, f.reissues)[k].committedAt <= at
  {
    if k < |f.decisions| {
      assert !(at < f.decisions[k].committedAt);
    } else {
      assert !(at < f.reissues[k - |f.decisions|].committedAt);
    }
  }

  /** The reissue checks include the clock: the new commit is not before the last one. */
  lemma {:induction false} ReissueClock(f: Files, at: Time)
    requires !BehindTimeline(f, at)
    ensures var s := Timeline(f.decisions, f.reissues); s != [] ==> s[|s| - 1].committedAt <= at
  {
    var s, all := Timeline(f.decisions, f.reissues), Mutations(f.decisions, f.reissues);
    if s != [] {
      assert s[|s| - 1] in multiset(s);
      assert s[|s| - 1] in all;
      var k :| 0 <= k < |all| && all[k] == s[|s| - 1];
      NotBehindAny(f, at, k);
    }
  }

  predicate Continues(f: Files, observedRun: int) {
    var s := Timeline(f.decisions, f.reissues);
    s == [] || s[|s| - 1].currentRun == observedRun
  }

  // ------------------------------------------------------------------ the projection

  lemma {:induction false} OldSuccessorsKnown(h: Hasher, f: Files, i: nat)
    requires ProjectionOk(h, f.ledger, f.decisions, f.reissues) && i < |ReissueResults(f.reissues)|
    ensures ReissueResults(f.reissues)[i].successorId in Index(f.ledger.requests)
    ensures ReissueResults(f.reissues)[i].source.kind == ApprovalV2 ==>
              var id := ReissueResults(f.reissues)[i].source.sourceId;
              id in Index(f.ledger.requests) && Index(f.ledger.requests)[id].state == Superseded
  {
    var _ := ReissueResultHome(h, f, ReissueResults(f.reissues)[i]);
  }

  lemma {:induction false} NewSourcePending(h: Hasher, a: ReissueAdmission, legacy: seq<V1Snapshot>, l: Ledger, i: nat)
    requires LoopReady(h, a, legacy, l) && i < |a.batch.items| && a.batch.items[i].kind == ApprovalV2
    ensures var id := a.batch.items[i].sourceId; id in Index(l.requests) && Index(l.requests)[id].state == Pending
  {
    assert SourceReady(h, a.batch.runId, legacy, l, a.batch.items[i], a.sources[i]);
    match a.sources[i]
    case V2Source(r) => IndexComplete(l.requests, r);
    case V1Source(v) =>
  }

  lemma {:induction false} ResultsStayDistinct(h: Hasher, a: ReissueAdmission, legacy: seq<V1Snapshot>, f: Files,
                                        p: Progress)
    requires LoopReady(h, a, legacy, f.ledger) && Advanced(h, a, legacy, f.ledger, p, |a.batch.items|)
    requires ProjectionOk(h, f.ledger, f.decisions, f.reissues)
    ensures DistinctSuccessors(ReissueResults(f.reissues) + p.results)
    ensures DistinctSources(ReissueResults(f.reissues) + p.results)
  {
    var old_, items := ReissueResults(f.reissues), a.batch.items;
    forall i | 0 <= i < |items|
      ensures ItemIdentifies(items[i], p.results[i])
    {
      assert PairProjected(h, a.batch.runId, Index(p.ledger.requests), legacy, items[i], p.results[i]);
    }
    forall i, j | 0 <= i < |old_| && 0 <= j < |p.results|
      ensures old_[i].successorId != p.results[j].successorId
      ensures old_[i].source.kind == ApprovalV2 && p.results[j].source.kind == ApprovalV2 ==>
                old_[i].source.sourceId != p.results[j].source.sourceId
    {
      OldSuccessorsKnown(h, f, i);
      if p.results[j].source.kind == ApprovalV2 { NewSourcePending(h, a, legacy, f.ledger, j); }
    }
  }

  lemma {:induction false} SupersededIdsConcat(a: seq<ReissueResult>, b: seq<ReissueResult>)
    ensures SupersededIds(a + b) == SupersededIds(a) + SupersededIds(b)
  {
    var t := a + b;
    forall i | 0 <= i < |a| && a[i].source.kind == ApprovalV2 ensures a[i].source.sourceId in SupersededIds(t) { assert t[i] == a[i]; }
    forall i | 0 <= i < |b| && b[i].source.kind == ApprovalV2 ensures b[i].source.sourceId in SupersededIds(t) { assert t[|a| + i] == b[i]; }
  }

  lemma {:induction false} RequestExplained(h: Hasher, a: ReissueAdmission, legacy: seq<V1Snapshot>, f: Files,
                                        p: Progress, r: Request)
    requires LoopReady(h, a, legacy, f.ledger) && Advanced(h, a, legacy, f.ledger, p, |a.batch.items|)
    requires ProjectionOk(h, f.ledger, f.decisions, f.reissues)
    requires f.ledger.requests != [] ==> AllV2(a.batch)
    requires r in p.ledger.requests
    ensures Explained(r, DecidedIds(DecisionResults(f.decisions)), SupersededIds(ReissueResults(f.reissues)) + SupersededIds(p.results))
  {
    var m, m', id := Index(f.ledger.requests), Index(p.ledger.requests), r.requestId;
    var D, S := DecidedIds(DecisionResults(f.decisions)), SupersededIds(ReissueResults(f.reissues));
    IndexComplete(p.ledger.requests, r);
    if id in D { DecidedAreSettled(m, DecisionResults(f.decisions), id); }
    if id in m {
      IndexSound(f.ledger.requests, id);
      assert Explained(m[id], D, S);
      if i :| 0 <= i < |a.batch.items| && a.batch.items[i].sourceId == id {
        NewSourcePending(h, a, legacy, f.ledger, i);
        SourceIsSuperseded(h, a, legacy, p, i);
      } else {
        assert m'[id] == m[id];
        if id in SupersededIds(p.results) { SupersededAreSources(h, a, legacy, p, id); }
      }
    }
  }

  lemma {:induction false} SourceIsSuperseded(h: Hasher, a: ReissueAdmission, legacy: seq<V1Snapshot>, p: Progress,
                                        i: nat)
    requires |p.results| == |a.batch.items| && Placed(h, a, legacy, p, |a.batch.items|)
    requires i < |a.batch.items| && a.batch.items[i].kind == ApprovalV2
    ensures var id := a.batch.items[i].sourceId;
            && id in SupersededIds(p.results)
            && id in Index(p.ledger.requests) && Index(p.ledger.requests)[id].state == Superseded
  {
    assert PairProjected(h, a.batch.runId, Index(p.ledger.requests), legacy, a.batch.items[i], p.results[i]);
  }

  lemma {:induction false} SupersededAreSources(h: Hasher, a: ReissueAdmission, legacy: seq<V1Snapshot>, p: Progress,
                                        id: string)
    requires |p.results| == |a.batch.items| && Placed(h, a, legacy, p, |a.batch.items|)
    requires id in SupersededIds(p.results)
    ensures exists i :: 0 <= i < |a.batch.items| && a.batch.items[i].sourceId == id
  {
    var i :| 0 <= i < |p.results| && p.results[i].source.kind == ApprovalV2 && p.results[i].source.sourceId == id;
    assert PairProjected(h, a.batch.runId, Index(p.ledger.requests), legacy, a.batch.items[i], p.results[i]);
    assert a.batch.items[i].sourceId == id;
  }

  ghost predicate ProjectedAfter(h: Hasher, a: ReissueAdmission, legacy: seq<V1Snapshot>, f: Files, p: Progress) {
    && LoopReady(h, a, legacy, f.ledger)
    && Advanced(h, a, legacy, f.ledger, p, |a.batch.items|)
    && ProjectionOk(h, f.ledger, f.decisions, f.reissues)
    && (f.ledger.requests != [] ==> AllV2(a.batch))
  }

  lemma {:induction false} NewRecordProjected(h: Hasher, a: ReissueAdmission, legacy: seq<V1Snapshot>, p: Progress,
                                        r: ReissueRecord)
    requires |p.results| == |a.batch.items| && Placed(h, a, legacy, p, |a.batch.items|)
    requires r.batch == a.batch && r.outcome.results == p.results && r.legacyProjection == legacy
    ensures ReissueProjected(h, a.batch.runId, Index(p.ledger.requests), r)
  {
  }

  lemma {:induction false} ReissueProjection(h: Hasher, a: ReissueAdmission, legacy: seq<V1Snapshot>, f: Files,
                                        p: Progress, r: ReissueRecord)
    requires ProjectedAfter(h, a, legacy, f, p)
    requires r.batch == a.batch && r.outcome.results == p.results && r.legacyProjection == legacy
    ensures ProjectionOk(h, p.ledger, f.decisions, f.reissues + [r])
  {
    var m, m' := Index(f.ledger.requests), Index(p.ledger.requests);
    hide SourceReady, Evolves, Placed, Untouched, Fresh, LedgerValid, ReissueProjected, Explained, AllDecisionsProjected, DistinctResults,
         DistinctSuccessors, DistinctSources, DecidedIds, SupersededIds;
    FlatMapSnoc(ReissueResultsOf, f.reissues, r);
    SupersededIdsConcat(ReissueResults(f.reissues), p.results);
    ResultsStayDistinct(h, a, legacy, f, p);
    RecordsEvolve(h, f.ledger.runId, m, m', f.reissues);
    NewRecordProjected(h, a, legacy, p, r);
    DecisionsEvolve(m, m', DecisionResults(f.decisions));
    forall q | q in p.ledger.requests
      ensures Explained(q, DecidedIds(DecisionResults(f.decisions)), SupersededIds(ReissueResults(f.reissues)) + SupersededIds(p.results))
    {
      RequestExplained(h, a, legacy, f, p, q);
    }
  }

  lemma {:induction false} DecisionsEvolve(m: map<string, Request>, m': map<string, Request>, flat: seq<DecisionResult>)
    requires Evolves(m, m') && AllDecisionsProjected(m, flat)
    ensures AllDecisionsProjected(m', flat)
  {
    forall i | 0 <= i < |flat| ensures DecisionProjected(m', flat[i]) { EvolvedDecision(m, m', flat[i]); }
  }

  // ------------------------------------------------------------------ the whole reader

  lemma {:induction false} ReissueTimeline(h: Hasher, a: ReissueAdmission, f: Files, p: Progress, r: ReissueRecord)
    requires Accepts(h, f) && !BehindTimeline(f, a.batch.reissuedAt)
    requires |p.results| >= 1 && |p.ledger.requests| == |f.ledger.requests| + |p.results|
    requires p.ledger.ledgerRevision == f.ledger.ledgerRevision + |p.results|
    requires r.outcome.results == p.results && r.committedAt == a.batch.reissuedAt
    requires r.outcome.previousLedgerRevision == f.ledger.ledgerRevision && r.outcome.currentLedgerRevision == p.ledger.ledgerRevision
    requires r.outcome.previousRunRevision == a.observedRun && r.outcome.currentRunRevision == a.observedRun + 1
    ensures TimelineOk(p.ledger, f.decisions, f.reissues + [r]) <==> Continues(f, a.observedRun)
    ensures TimelineOk(p.ledger, f.decisions, f.reissues + [r]) ==>
              Timeline(f.decisions, f.reissues + [r]) == Timeline(f.decisions, f.reissues) + [ReissueMutation(r)]
  {
    TimelineSteps(h, f);
    RootsAndHead(h, f);
    ReissueClock(f, a.batch.reissuedAt);
    TimelineWithReissue(f.ledger, f.decisions, f.reissues, p.ledger, r);
  }

  lemma {:induction false} ReissueChains(h: Hasher, a: ReissueAdmission, legacy: seq<V1Snapshot>, p: Progress)
    requires Accepts(h, BaseFiles(a)) && ReissueChecked(h, a, legacy)
    requires Advanced(h, a, legacy, BaseFiles(a).ledger, p, |a.batch.items|)
    ensures var f' := ReissueFilesFrom(h, a, legacy, p);
            && DecisionChainOk(f'.ledger, f'.decisions)
            && AuditChainOk(f'.ledger, f'.decisions, f'.events)
            && ReissueChainOk(h, f'.ledger, f'.reissues)
  {
    hide Accepts, Evolves, Placed, Untouched, Fresh, LedgerValid, DecisionChainOk, AuditChainOk, ReissueChainOk, LegacyWellFormed,
         PendingCount;
    var f, r := BaseFiles(a), ReissueRecordFrom(h, a, legacy, p);
    AcceptedChains(h, f);
    assert a.batch.items != [];
    LedgerMovesOn(f, p.ledger);
    if f.reissues != [] {
      assert !(a.batch.reissuedAt < f.reissues[|f.reissues| - 1].committedAt);
    }
    ReissueChainExtends(h, f.ledger, f.reissues, p.ledger, r);
  }

  lemma {:induction false} LedgerMovesOn(f: Files, l': Ledger)
    requires DecisionChainOk(f.ledger, f.decisions) && AuditChainOk(f.ledger, f.decisions, f.events)
    requires l' == f.ledger.(ledgerRevision := l'.ledgerRevision, requests := l'.requests)
    requires l'.ledgerRevision >= f.ledger.ledgerRevision
    ensures DecisionChainOk(l', f.decisions) && AuditChainOk(l', f.decisions, f.events)
  {
    forall i | 0 <= i < |f.decisions| ensures DecisionLinked(l', f.decisions, i) { assert DecisionLinked(f.ledger, f.decisions, i); }
    forall i | 0 <= i < |f.events| ensures EventLinked(l', f.decisions, f.events, i) { assert EventLinked(f.ledger, f.decisions, f.events, i); }
  }

  lemma {:induction false} ReissueModels(h: Hasher, a: ReissueAdmission, legacy: seq<V1Snapshot>, p: Progress)
    requires ModelsValid(h, BaseFiles(a)) && LedgerValid(h, p.ledger)
    requires ReissueRecordValid(h, ReissueRecordFrom(h, a, legacy, p))
    ensures ModelsValid(h, ReissueFilesFrom(h, a, legacy, p))
  {
  }

  lemma {:induction false} CommitTimeline(h: Hasher, a: ReissueAdmission, legacy: seq<V1Snapshot>, p: Progress)
    requires Accepts(h, BaseFiles(a)) && ReissueChecked(h, a, legacy)
    requires Advanced(h, a, legacy, BaseFiles(a).ledger, p, |a.batch.items|)
    requires ReissueRecordFrom(h, a, legacy, p).outcome.results == p.results
    ensures var f, f' := BaseFiles(a), ReissueFilesFrom(h, a, legacy, p);
            && (TimelineOk(f'.ledger, f'.decisions, f'.reissues) <==> Continues(f, a.observedRun))
            && (TimelineOk(f'.ledger, f'.decisions, f'.reissues) ==>
                  Timeline(f'.decisions, f'.reissues)
                  == Timeline(f.decisions, f.reissues) + [ReissueMutation(ReissueRecordFrom(h, a, legacy, p))])
  {
    ReissueTimeline(h, a, BaseFiles(a), p, ReissueRecordFrom(h, a, legacy, p));
  }

  lemma {:induction false} CommitProjection(h: Hasher, a: ReissueAdmission, legacy: seq<V1Snapshot>, p: Progress)
    requires ProjectionOk(h, BaseFiles(a).ledger, BaseFiles(a).decisions, BaseFiles(a).reissues)
    requires ReissueChecked(h, a, legacy) && LoopReady(h, a, legacy, BaseFiles(a).ledger)
    requires Advanced(h, a, legacy, BaseFiles(a).ledger, p, |a.batch.items|)
    requires ReissueRecordFrom(h, a, legacy, p).outcome.results == p.results
    ensures var f' := ReissueFilesFrom(h, a, legacy, p); ProjectionOk(h, f'.ledger, f'.decisions, f'.reissues)
  {
    ReissueProjection(h, a, legacy, BaseFiles(a), p, ReissueRecordFrom(h, a, legacy, p));
  }

  /** If the loop goes through, the update is built, and the reader accepts it exactly when the
      observed run revision is the one the last commit left. */
  lemma {:induction false} CommitReissueAccepted(h: Hasher, a: ReissueAdmission, legacy: seq<V1Snapshot>, p: Progress)
    requires Accepts(h, BaseFiles(a)) && ReissueChecked(h, a, legacy)
    requires LoopReady(h, a, legacy, BaseFiles(a).ledger)
    requires Advanced(h, a, legacy, BaseFiles(a).ledger, p, |a.batch.items|)
    ensures ReissueOutcomeValid(h, ReissueOutcomeFrom(h, a, p)) && ReissueRecordValid(h, ReissueRecordFrom(h, a, legacy, p))
    ensures Accepts(h, ReissueFilesFrom(h, a, legacy, p)) <==> Continues(BaseFiles(a), a.observedRun)
    ensures Accepts(h, ReissueFilesFrom(h, a, legacy, p)) ==>
              Timeline(ReissueFilesFrom(h, a, legacy, p).decisions, ReissueFilesFrom(h, a, legacy, p).reissues)
              == Timeline(BaseFiles(a).decisions, BaseFiles(a).reissues) + [ReissueMutation(ReissueRecordFrom(h, a, legacy, p))]
  {
    ReissueRecordBuilds(h, a, legacy, p);
    CommitTimeline(h, a, legacy, p);
    ReissueModels(h, a, legacy, p);
    ReissueChains(h, a, legacy, p);
    CommitProjection(h, a, legacy, p);
  }
}
