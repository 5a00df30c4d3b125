/** How the number of pending requests moves: a decision lowers it by its items, a V2 reissue leaves it. */
module ApprovalBalance {
  import opened Basics
  import opened ApprovalModels
  import opened ApprovalReader
  import opened ApprovalProjection
  import opened ApprovalWriter
  import opened ApprovalReissue
  import opened ApprovalConservation
  import opened ApprovalDecisionClosure
  import opened ApprovalDecisionCommit
  import opened ApprovalReissueStep
  import opened ApprovalReissueFold
  import opened ApprovalReissueCommit
  import opened ApprovalReissueAdmission
  import opened ApprovalReissueTheorems

  lemma {:induction false} DecisionLowersPending(h: Hasher, s: State, b: DecisionBatch, resolved: Option<Snapshot>,
                                        observedRun: int, at: Time)
    requires Accepts(h, s.files) && BatchValid(b)
    requires resolved.Some? ==> SnapshotValid(h, resolved.value)
    requires DecisionVerdictFor(h, s, b, resolved, observedRun, at).NewDecision?
    requires Timely(s.files, observedRun, b.decisionAt)
    ensures var f' := DecisionFiles(h, DecisionVerdictFor(h, s, b, resolved, observedRun, at).admission);
            PendingCount(f'.ledger.requests) == PendingCount(s.files.ledger.requests) - |b.items|
  {
    hide Accepts, Checked, DecisionVerdictFor, BatchValid, SnapshotValid, DecisionBuilds, Timely, PendingCount, LedgerValid,
         TimelineOk, ProjectionOk, DistinctRequests, DistinctResults, DistinctSources;
    var a := DecisionVerdictFor(h, s, b, resolved, observedRun, at).admission;
    NewAdmission(h, s, b, resolved, observedRun, at);
    AdmissionIsChecked(h, s, b, resolved, observedRun, at);
    DecisionCommitAccepted(h, s, b, resolved, observedRun, at);
    AcceptedParts(h, s.files);
    DecisionIndexAndResults(h, a, at);
    Conservation(h, s.files);
    Conservation(h, DecisionFiles(h, a));
  }

  lemma {:induction false} V2CountConcat(a: seq<ReissueResult>, b: seq<ReissueResult>)
    requires forall i :: 0 <= i < |b| ==> b[i].source.kind == ApprovalV2
    ensures V2Count(a + b) == V2Count(a) + |b|
  {
    if b == [] {
      assert a + b == a;
    } else {
      var init := b[..|b| - 1];
      V2CountConcat(a, init);
      assert (a + b)[..|a + b| - 1] == a + init;
    }
  }

  lemma {:induction false} NewResultsAreV2(h: Hasher, a: ReissueAdmission, legacy: seq<V1Snapshot>, p: Progress)
    requires |p.results| == |a.batch.items| && Placed(h, a, legacy, p, |a.batch.items|) && AllV2(a.batch)
    ensures forall i :: 0 <= i < |p.results| ==> p.results[i].source.kind == ApprovalV2
  {
    forall i | 0 <= i < |p.results| ensures p.results[i].source.kind == ApprovalV2 {
      assert PairProjected(h, a.batch.runId, Index(p.ledger.requests), legacy, a.batch.items[i], p.results[i]);
    }
  }

  lemma {:induction false} AdvancedParts(h: Hasher, a: ReissueAdmission, legacy: seq<V1Snapshot>, l: Ledger,
                                        p: Progress)
    requires Advanced(h, a, legacy, l, p, |a.batch.items|) && ReissueBatchValid(a.batch)
    ensures |p.results| == |a.batch.items| && Placed(h, a, legacy, p, |a.batch.items|)
    ensures |p.ledger.requests| == |l.requests| + |a.batch.items|
    ensures SortBy(p.results, ReissueResultLe) == p.results
  {
    ResultsFollowItems(h, a, legacy, p);
  }

  lemma {:induction false} ReissueKeepsPending(h: Hasher, s: State, b: ReissueBatch, run: int, ms: Sha, ps: Sha)
    requires Accepts(h, s.files) && ReissueBatchValid(b)
    requires ReissueVerdictFor(h, Some(s), [], b, run, ms, ps).NewReissue?
    ensures var a := ReissueVerdictFor(h, Some(s), [], b, run, ms, ps).admission;
            && |a.sources| == |a.batch.items|
            && (ReissueFiles(h, a).Ok? && Continues(s.files, run) ==>
                  PendingCount(ReissueFiles(h, a).value.ledger.requests) == PendingCount(s.files.ledger.requests))
  {
    hide Accepts, LoopReady, ReissueBatchValid, ReissueVerdictFor, Advanced, ReissueAll, ReissueOutcomeValid, ReissueRecordValid, Placed, PendingCount, LedgerValid,
         Continues, RoomForSuccessors, V2Count;
    var a := ReissueVerdictFor(h, Some(s), [], b, run, ms, ps).admission;
    AcceptedParts(h, s.files);
    V2AdmissionIsReady(h, s, [], b, run, ms, ps);
    NoLegacy(h, b.runId);
    ReissueBuildsAndCommits(h, a, []);
    if ReissueFiles(h, a).Ok? && Continues(s.files, run) {
      var p := ReissueAll(h, a, [], s.files.ledger, |b.items|).value;
      AdvancedParts(h, a, [], s.files.ledger, p);
      NewResultsAreV2(h, a, [], p);
      V2CountConcat(ReissueResults(s.files.reissues), p.results);
      FlatMapSnoc(ReissueResultsOf, s.files.reissues, ReissueRecordFrom(h, a, [], p));
      Conservation(h, s.files);
      Conservation(h, ReissueFiles(h, a).value);
    }
  }
}
