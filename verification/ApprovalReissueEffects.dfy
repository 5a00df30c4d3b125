/** What a committed reissue changes, field by field, and that it changes nothing else. */
module ApprovalReissueEffects {
  import opened Basics
  import opened ApprovalModels
  import opened ApprovalProjection
  import opened ApprovalWriter
  import opened ApprovalReissue
  import opened ApprovalIndex
  import opened ApprovalConservation
  import opened ApprovalReissueStep
  import opened ApprovalReissueFold
  import opened ApprovalReissueCommit
  import opened ApprovalReissueAdmission
  import opened ApprovalReissueTheorems

  // ------------------------------------------------------------------ what the loop leaves behind

  /** The pending request an item asks for; its name is made from what it is about. */
  function SuccessorOf(h: Hasher, b: ReissueBatch, i: nat, base: int): Request
    requires i < |b.items|
  {
    var p := b.items[i].successor;
    var digest := h(ActionPlanP(p.actionPlan));
    var key := h(RequestKeyP(b.runId, p.sourcePhaseId, p.stableProposalId, p.actionPlan.category, digest));
    Request("request-" + (if |key| > 32 then key[..32] else key), 1, base + i + 1, b.expectedRunRevision + 1, p.stableProposalId,
            p.actionPlan, digest, p.display, "approve:" + p.actionPlan.category, b.reissuedAt, p.actionPlan.expiresAt,
            p.sourcePhaseId, p.sourceAttemptId, key, Pending, None)
  }

  /** The source after it was replaced: superseded by that request, one revision on, nothing else. */
  function Replaced(r: Request, ledgerRevision: int, successor: string): Request {
    Request(r.requestId, r.requestRevision + 1, ledgerRevision, r.createdRunRevision, r.stableProposalId, r.actionPlan,
            r.actionDigest, r.display, r.requiredScope, r.createdAt, r.expiresAt, r.sourcePhaseId, r.sourceAttemptId,
            r.idempotencyKey, Superseded, Some(successor))
  }

  /** How a source is named in the result: a request exactly as it was, a historical one with its snapshot. */
  function BindingOf(h: Hasher, runId: string, source: Source): SourceBinding {
    match source
    case V2Source(r) =>
      SourceBinding(ApprovalV2, r.requestId, Some(r.requestRevision), Some(r.ledgerRevision), Some(r.actionDigest),
                    h(RequestP(r)), None)
    case V1Source(v) =>
      SourceBinding(HistoricalV1, v.approvalId, None, None, None, h(V1RequestP(v)),
                    Some(V1Snapshot(v, runId, v.approvalId, h(V1RequestP(v)), v.status)))
  }

  function ResultOfItem(h: Hasher, a: ReissueAdmission, i: nat, base: int): ReissueResult
    requires i < |a.batch.items| == |a.sources|
  {
    var s := SuccessorOf(h, a.batch, i, base);
    ReissueResult(BindingOf(h, a.batch.runId, a.sources[i]), s.requestId, 1, base + i + 1, a.batch.expectedRunRevision + 1,
                  s.actionDigest, h(RequestP(s)))
  }

  ghost predicate Left(h: Hasher, a: ReissueAdmission, base: int, m: map<string, Request>, results: seq<ReissueResult>, i: nat)
    requires i < |a.batch.items| == |a.sources|
  {
    var s := SuccessorOf(h, a.batch, i, base);
    && s.requestId in m && m[s.requestId] == s
    && (a.sources[i].V2Source? ==>
          var r := a.sources[i].request;
          r.requestId in m && m[r.requestId] == Replaced(r, base + i + 1, s.requestId))
    && i < |results| && results[i] == ResultOfItem(h, a, i, base)
  }

  ghost predicate AllLeft(h: Hasher, a: ReissueAdmission, base: int, m: map<string, Request>, results: seq<ReissueResult>, k: nat)
    requires k <= |a.batch.items| == |a.sources|
  {
    forall i :: 0 <= i < k ==> Left(h, a, base, m, results, i)
  }

  /** Snapshots of historical sources are those of the history, taken in this run. */
  ghost predicate SnapshotsTaken(h: Hasher, a: ReissueAdmission, legacy: seq<V1Snapshot>) {
    && |a.batch.items| == |a.sources| && a.observedRun == a.batch.expectedRunRevision
    && forall i :: 0 <= i < |a.sources| && a.sources[i].V1Source? ==>
         var v := a.sources[i].v1;
         FindSnapshot(legacy, v.approvalId) == Some(V1Snapshot(v, a.batch.runId, v.approvalId, h(V1RequestP(v)), v.status))
  }

  lemma {:induction false} SuccessorIs(h: Hasher, a: ReissueAdmission, l: Ledger, k: nat, base: int)
    requires k < |a.batch.items| && a.observedRun == a.batch.expectedRunRevision && l.ledgerRevision == base + k
    ensures SuccessorFor(h, a, l, a.batch.items[k]) == SuccessorOf(h, a.batch, k, base)
  {
  }

  /** The state of the dictionary and of the results after item `k`. */
  ghost predicate StepTaken(h: Hasher, a: ReissueAdmission, base: int, p: Progress, q: Progress, k: nat)
    requires k < |a.batch.items| == |a.sources|
  {
    var m1, m2, s := Index(p.ledger.requests), Index(q.ledger.requests), SuccessorOf(h, a.batch, k, base);
    && s.requestId !in m1 && q.results == p.results + [ResultOfItem(h, a, k, base)]
    && match a.sources[k]
       case V2Source(r) =>
         r.requestId in m1 && r.requestId != s.requestId
         && m2 == m1[s.requestId := s][r.requestId := Replaced(r, base + k + 1, s.requestId)]
       case V1Source(_) => m2 == m1[s.requestId := s]
  }

  lemma {:induction false} SuccessorAdded(h: Hasher, a: ReissueAdmission, legacy: seq<V1Snapshot>, l: Ledger, p: Progress, k: nat)
    requires LoopReady(h, a, legacy, l) && SnapshotsTaken(h, a, legacy) && k < |a.batch.items|
    requires Advanced(h, a, legacy, l, p, k)
    requires ReissueOne(h, a, legacy, p, a.batch.items[k], a.sources[k]).Ok?
    ensures var s := SuccessorOf(h, a.batch, k, l.ledgerRevision);
            && SuccessorFor(h, a, p.ledger, a.batch.items[k]) == s && RequestValid(h, s)
            && LedgerValid(h, p.ledger) && s.ledgerRevision == p.ledger.ledgerRevision + 1
            && AddRequest(h, p.ledger, s).Added? && |p.results| == k
  {
    hide AddRequest;
    SuccessorIs(h, a, p.ledger, k, l.ledgerRevision);
    SuccessorIsValid(h, a, legacy, l, p.ledger, k);
    AddNext(h, p.ledger, SuccessorFor(h, a, p.ledger, a.batch.items[k]));
  }

  lemma {:induction false} ReplacedIs(r: Request, ledgerRevision: int, id: string)
    ensures Supersede(r, ledgerRevision, id) == Replaced(r, ledgerRevision, id)
  {
  }

  lemma {:induction false} ResultIs(h: Hasher, a: ReissueAdmission, legacy: seq<V1Snapshot>, k: nat, base: int)
    requires SnapshotsTaken(h, a, legacy) && k < |a.batch.items|
    ensures var s := SuccessorOf(h, a.batch, k, base);
            match a.sources[k]
            case V2Source(r) => ResultFor(h, V2Binding(h, r), s) == ResultOfItem(h, a, k, base)
            case V1Source(v) =>
              FindSnapshot(legacy, v.approvalId).Some?
              && ResultFor(h, V1Binding(FindSnapshot(legacy, v.approvalId).value), s) == ResultOfItem(h, a, k, base)
  {
  }

  lemma {:induction false} MarkedDictionary(h: Hasher, l: Ledger, s: Request, r: Request)
    requires LedgerValid(h, l) && RequestValid(h, s) && s.ledgerRevision == l.ledgerRevision + 1
    requires AddRequest(h, l, s).Added? && r in l.requests && r.state == Pending
    ensures s.requestId !in Index(l.requests) && r.requestId in Index(l.requests) && r.requestId != s.requestId
    ensures Index(Marked(l, s, r).requests)
         == Index(l.requests)[s.requestId := s][r.requestId := Replaced(r, s.ledgerRevision, s.requestId)]
  {
    hide AddRequest, Index, LedgerValid, RequestValid, Replaced, Supersede, Marked;
    AddedFacts(h, l, s);
    MarkedFacts(h, l, s, r);
    ReplacedIs(r, s.ledgerRevision, s.requestId);
  }

  lemma {:induction false} MarkedIsTaken(h: Hasher, a: ReissueAdmission, base: int, p: Progress, k: nat, q: Progress, r: Request)
    requires k < |a.batch.items| == |a.sources| && a.sources[k] == V2Source(r)
    requires var m1, s := Index(p.ledger.requests), SuccessorOf(h, a.batch, k, base);
             && s.requestId !in m1 && r.requestId in m1 && r.requestId != s.requestId
             && Index(q.ledger.requests) == m1[s.requestId := s][r.requestId := Replaced(r, base + k + 1, s.requestId)]
    requires q.results == p.results + [ResultOfItem(h, a, k, base)]
    ensures StepTaken(h, a, base, p, q, k)
  {
    hide Index, SuccessorOf, ResultOfItem, Replaced;
  }

  lemma {:induction false} V2Pass(h: Hasher, a: ReissueAdmission, legacy: seq<V1Snapshot>, l: Ledger, p: Progress, k: nat,
                                  r: Request, s: Request)
    requires LoopReady(h, a, legacy, l) && SnapshotsTaken(h, a, legacy) && k < |a.batch.items|
    requires Advanced(h, a, legacy, l, p, k) && a.sources[k] == V2Source(r)
    requires ReissueOne(h, a, legacy, p, a.batch.items[k], a.sources[k]).Ok?
    requires s == SuccessorOf(h, a.batch, k, l.ledgerRevision)
    ensures LedgerValid(h, p.ledger) && RequestValid(h, s) && s.ledgerRevision == p.ledger.ledgerRevision + 1
    ensures AddRequest(h, p.ledger, s).Added? && r in p.ledger.requests && r.state == Pending
    ensures ReissueOne(h, a, legacy, p, a.batch.items[k], a.sources[k])
         == Ok(Progress(Marked(p.ledger, s, r), p.results + [ResultFor(h, V2Binding(h, r), s)]))
  {
    hide LoopReady, Advanced, ReissueOne, AddRequest, LedgerValid, RequestValid, SuccessorOf, SuccessorFor, SnapshotsTaken, Marked,
         ResultFor, V2Binding, Index;
    ReadyCounts(h, a, legacy, l);
    SuccessorAdded(h, a, legacy, l, p, k);
    SourceUntouched(h, a, legacy, l, p, k, r);
    OnePass(h, a, legacy, p, a.batch.items[k], a.sources[k]);
  }

  lemma {:induction false} StepLeavesV2(h: Hasher, a: ReissueAdmission, legacy: seq<V1Snapshot>, l: Ledger, p: Progress, k: nat,
                                        r: Request)
    requires LoopReady(h, a, legacy, l) && SnapshotsTaken(h, a, legacy) && k < |a.batch.items|
    requires Advanced(h, a, legacy, l, p, k) && a.sources[k] == V2Source(r)
    requires ReissueOne(h, a, legacy, p, a.batch.items[k], a.sources[k]).Ok?
    ensures StepTaken(h, a, l.ledgerRevision, p, ReissueOne(h, a, legacy, p, a.batch.items[k], a.sources[k]).value, k)
  {
    hide LoopReady, Advanced, ReissueOne, AddRequest, Index, LedgerValid, RequestValid, SuccessorOf, ResultOfItem, SnapshotsTaken,
         ResultFor, V2Binding, StepTaken, Marked, Replaced;
    ReadyCounts(h, a, legacy, l);
    var s := SuccessorOf(h, a.batch, k, l.ledgerRevision);
    V2Pass(h, a, legacy, l, p, k, r, s);
    ResultIs(h, a, legacy, k, l.ledgerRevision);
    SuccessorRevision(h, a.batch, k, l.ledgerRevision);
    var q := Progress(Marked(p.ledger, s, r), p.results + [ResultFor(h, V2Binding(h, r), s)]);
    MarkedDictionary(h, p.ledger, s, r);
    MarkedIsTaken(h, a, l.ledgerRevision, p, k, q, r);
  }

  lemma {:induction false} StepLeavesV1(h: Hasher, a: ReissueAdmission, legacy: seq<V1Snapshot>, l: Ledger, p: Progress, k: nat,
                                        v: V1Request)
    requires LoopReady(h, a, legacy, l) && SnapshotsTaken(h, a, legacy) && k < |a.batch.items|
    requires Advanced(h, a, legacy, l, p, k) && a.sources[k] == V1Source(v)
    requires ReissueOne(h, a, legacy, p, a.batch.items[k], a.sources[k]).Ok?
    ensures StepTaken(h, a, l.ledgerRevision, p, ReissueOne(h, a, legacy, p, a.batch.items[k], a.sources[k]).value, k)
  {
    var s := SuccessorOf(h, a.batch, k, l.ledgerRevision);
    SuccessorAdded(h, a, legacy, l, p, k);
    ResultIs(h, a, legacy, k, l.ledgerRevision);
    hide LoopReady, Advanced, ReissueOne, AddRequest, Index, LedgerValid, RequestValid, SuccessorOf, SuccessorFor, ResultOfItem,
         SnapshotsTaken, ResultFor, V1Binding, Marked, Appended;
    OnePass(h, a, legacy, p, a.batch.items[k], a.sources[k]);
    AddedFacts(h, p.ledger, s);
  }

  lemma {:induction false} SuccessorRevision(h: Hasher, b: ReissueBatch, k: nat, base: int)
    requires k < |b.items|
    ensures SuccessorOf(h, b, k, base).ledgerRevision == base + k + 1
  {
  }

  /** Different items have different sources, and no successor is a source. */
  lemma {:induction false} ItemsApart(h: Hasher, a: ReissueAdmission, legacy: seq<V1Snapshot>, l: Ledger, p: Progress, k: nat, i: nat)
    requires LoopReady(h, a, legacy, l) && i < k < |a.batch.items|
    requires Advanced(h, a, legacy, l, p, k) && a.sources[k].V2Source?
    ensures p.results[i].successorId != a.sources[k].request.requestId
    ensures a.sources[i].V2Source? ==> a.sources[i].request.requestId != a.sources[k].request.requestId
  {
    assert Fresh(Index(l.requests), Index(p.ledger.requests), p.results);
    assert SourceReady(h, a.batch.runId, legacy, l, a.batch.items[i], a.sources[i]);
    assert SourceReady(h, a.batch.runId, legacy, l, a.batch.items[k], a.sources[k]);
    IndexComplete(l.requests, a.sources[k].request);
    assert a.batch.items[i].sourceId != a.batch.items[k].sourceId;
  }

  lemma {:induction false} StepLeaves(h: Hasher, a: ReissueAdmission, legacy: seq<V1Snapshot>, l: Ledger, p: Progress, k: nat)
    requires LoopReady(h, a, legacy, l) && SnapshotsTaken(h, a, legacy) && k < |a.batch.items|
    requires Advanced(h, a, legacy, l, p, k)
    requires ReissueOne(h, a, legacy, p, a.batch.items[k], a.sources[k]).Ok?
    ensures StepTaken(h, a, l.ledgerRevision, p, ReissueOne(h, a, legacy, p, a.batch.items[k], a.sources[k]).value, k)
    ensures |p.results| == k
  {
    ReadyCounts(h, a, legacy, l);
    assert |p.results| == k;
    hide LoopReady, Advanced, ReissueOne, StepTaken, SnapshotsTaken;
    match a.sources[k]
    case V2Source(r) => StepLeavesV2(h, a, legacy, l, p, k, r);
    case V1Source(v) => StepLeavesV1(h, a, legacy, l, p, k, v);
  }

  lemma {:induction false} LeftStays(h: Hasher, a: ReissueAdmission, base: int, p: Progress, q: Progress, k: nat, i: nat)
    requires i < k < |a.batch.items| == |a.sources| && |p.results| == k
    requires StepTaken(h, a, base, p, q, k) && Left(h, a, base, Index(p.ledger.requests), p.results, i)
    requires a.sources[k].V2Source? ==>
               && p.results[i].successorId != a.sources[k].request.requestId
               && (a.sources[i].V2Source? ==> a.sources[i].request.requestId != a.sources[k].request.requestId)
    ensures Left(h, a, base, Index(q.ledger.requests), q.results, i)
  {
    hide Index, SuccessorOf, BindingOf, Replaced;
    assert q.results[i] == p.results[i];
  }

  lemma {:induction false} LoopLeaves(h: Hasher, a: ReissueAdmission, legacy: seq<V1Snapshot>, l: Ledger, k: nat)
    requires LoopReady(h, a, legacy, l) && SnapshotsTaken(h, a, legacy) && k <= |a.batch.items|
    ensures ReissueAll(h, a, legacy, l, k).Ok? ==>
              var p := ReissueAll(h, a, legacy, l, k).value;
              AllLeft(h, a, l.ledgerRevision, Index(p.ledger.requests), p.results, k)
  {
    hide LoopReady, SnapshotsTaken, ReissueOne, Index, Advanced, Left, StepTaken;
    if k > 0 {
      LoopLeaves(h, a, legacy, l, k - 1);
      ReadyCounts(h, a, legacy, l);
      ReissueAllNext(h, a, legacy, l, k - 1);
      LoopAdvances(h, a, legacy, l, k - 1);
      if ReissueAll(h, a, legacy, l, k).Ok? {
        var p := ReissueAll(h, a, legacy, l, k - 1).value;
        var q := ReissueAll(h, a, legacy, l, k).value;
        StepLeaves(h, a, legacy, l, p, k - 1);
        forall i | 0 <= i < k
          ensures Left(h, a, l.ledgerRevision, Index(q.ledger.requests), q.results, i)
        {
          if i < k - 1 {
            if a.sources[k - 1].V2Source? { ItemsApart(h, a, legacy, l, p, k - 1, i); }
            LeftStays(h, a, l.ledgerRevision, p, q, k - 1, i);
          } else {
            LeftNow(h, a, l.ledgerRevision, p, q, i);
          }
        }
      }
    }
  }

  lemma {:induction false} LeftNow(h: Hasher, a: ReissueAdmission, base: int, p: Progress, q: Progress, k: nat)
    requires k < |a.batch.items| == |a.sources| && |p.results| == k && StepTaken(h, a, base, p, q, k)
    ensures Left(h, a, base, Index(q.ledger.requests), q.results, k)
  {
    hide Index, SuccessorOf, BindingOf, Replaced;
  }

  lemma {:induction false} ReadyCounts(h: Hasher, a: ReissueAdmission, legacy: seq<V1Snapshot>, l: Ledger)
    requires LoopReady(h, a, legacy, l)
    ensures |a.batch.items| == |a.sources|
  {
  }

  // ------------------------------------------------------------------ the committed reissue

  /** A reissue admitted on an accepted state, or on a V1 history, and built. */
  ghost predicate Built(h: Hasher, state: Option<State>, legacy: seq<V1Request>, b: ReissueBatch, run: int, ms: Sha, ps: Sha,
                        a: ReissueAdmission) {
    && ReissueVerdictFor(h, state, legacy, b, run, ms, ps) == NewReissue(a) && ReissueBatchValid(b)
    && (state.Some? ==> Accepts(h, state.value.files))
    && |a.sources| == |a.batch.items| && ReissueFiles(h, a).Ok?
  }

  lemma {:induction false} V1SnapshotIs(h: Hasher, legacy: seq<V1Request>, runId: string, v: V1Request)
    requires DistinctLegacy(legacy) && |legacy| <= MAX_REQUESTS && v in legacy
    ensures FindSnapshot(LegacyProjection(h, runId, legacy), v.approvalId)
         == Some(V1Snapshot(v, runId, v.approvalId, h(V1RequestP(v)), v.status))
  {
    var x, projection := SnapshotOf(h, runId, v), LegacyProjection(h, runId, legacy);
    LegacyProjectionWellFormed(h, runId, legacy);
    FindSnapshotComplete(projection, x);
    FindSnapshotSound(projection, v.approvalId);
    var y := FindSnapshot(projection, v.approvalId).value;
    MultisetMember(Snapshots(h, runId, legacy), projection);
    if x != y {
      DistinctIds(h, runId, legacy, x, y);
    }
  }

  /** What the theorems below need to know of a built reissue. */
  ghost predicate Ran(h: Hasher, a: ReissueAdmission, legacy: seq<V1Snapshot>, p: Progress) {
    && LoopReady(h, a, legacy, BaseFiles(a).ledger) && SnapshotsTaken(h, a, legacy)
    && Accepts(h, BaseFiles(a)) && ReissueChecked(h, a, legacy)
    && ReissueAll(h, a, legacy, BaseFiles(a).ledger, |a.batch.items|) == Ok(p)
    && Advanced(h, a, legacy, BaseFiles(a).ledger, p, |a.batch.items|)
    && ReissueFiles(h, a) == Ok(ReissueFilesFrom(h, a, legacy, p))
  }

  lemma {:induction false} ReadyRan(h: Hasher, a: ReissueAdmission, legacy: seq<V1Snapshot>)
    requires legacy == LegacyProjection(h, a.batch.runId, a.legacy)
    requires Accepts(h, BaseFiles(a)) && ReissueChecked(h, a, legacy) && SnapshotsTaken(h, a, legacy)
    requires LoopReady(h, a, legacy, BaseFiles(a).ledger) && ReissueFiles(h, a).Ok?
    ensures Ran(h, a, legacy, ReissueAll(h, a, legacy, BaseFiles(a).ledger, |a.batch.items|).value)
  {
    hide Accepts, ReissueChecked, LoopReady, Advanced, RoomForSuccessors, LegacyProjection, SnapshotsTaken, ReissueFiles, ReissueFilesFrom,
         LedgerValid, SuccessorsFree, NamesKnown, Continues;
    assert |a.batch.items| == |a.sources| by { ReadyCounts(h, a, legacy, BaseFiles(a).ledger); }
    ReissueBuildsAndCommits(h, a, legacy);
    BuiltIsLooped(h, a, legacy);
    assert StartLedger(a) == BaseFiles(a).ledger;
  }

  lemma {:induction false} BuiltIsLooped(h: Hasher, a: ReissueAdmission, legacy: seq<V1Snapshot>)
    requires |a.batch.items| == |a.sources| && legacy == LegacyProjection(h, a.batch.runId, a.legacy) && ReissueFiles(h, a).Ok?
    ensures ReissueAll(h, a, legacy, StartLedger(a), |a.batch.items|).Ok?
  {
    hide LedgerValid, ReissueOutcomeValid, ReissueRecordValid, ReissueAll, LegacyProjection;
  }

  lemma {:induction false} BuiltV2Ran(h: Hasher, s: State, legacy: seq<V1Request>, b: ReissueBatch, run: int, ms: Sha, ps: Sha,
                                      a: ReissueAdmission)
    requires Built(h, Some(s), legacy, b, run, ms, ps, a)
    ensures a == ReissueAdmission(b, run, ms, ps, Some(s), [], a.sources) && b.expectedRunRevision == run
    ensures Ran(h, a, [], ReissueAll(h, a, [], s.files.ledger, |b.items|).value)
  {
    hide Accepts, ReissueChecked, LoopReady, Ran, ReissueFiles, ReissueBatchValid;
    AcceptedParts(h, s.files);
    V2AdmissionIsReady(h, s, legacy, b, run, ms, ps);
    NoLegacy(h, b.runId);
    SourcesAreV2(h, a, s.files.ledger);
    ReadyRan(h, a, []);
  }

  lemma {:induction false} SourcesAreV2(h: Hasher, a: ReissueAdmission, l: Ledger)
    requires LoopReady(h, a, [], l) && a.observedRun == a.batch.expectedRunRevision
    ensures SnapshotsTaken(h, a, [])
  {
    forall i | 0 <= i < |a.sources|
      ensures a.sources[i].V2Source?
    {
      assert SourceReady(h, a.batch.runId, [], l, a.batch.items[i], a.sources[i]);
    }
  }

  lemma {:induction false} BuiltV1Ran(h: Hasher, legacy: seq<V1Request>, b: ReissueBatch, run: int, ms: Sha, ps: Sha,
                                      a: ReissueAdmission)
    requires Built(h, None, legacy, b, run, ms, ps, a)
    ensures a == ReissueAdmission(b, run, ms, ps, None, legacy, a.sources) && b.expectedRunRevision == run
    ensures DistinctLegacy(legacy) && |legacy| <= MAX_REQUESTS
    ensures var snapshots := LegacyProjection(h, b.runId, legacy);
            Ran(h, a, snapshots, ReissueAll(h, a, snapshots, EmptyLedger(b.runId), |b.items|).value)
  {
    hide Accepts, ReissueChecked, LoopReady, Ran, ReissueFiles, ReissueBatchValid, LegacyProjection, RoomForSuccessors;
    LegacyReissueAccepted(h, legacy, b, run, ms, ps);
    V1SourcesMatch(h, legacy, b, run, ms, ps);
    V1AdmissionIsReady(h, legacy, b, run, ms, ps);
    EmptyIsAccepted(h, b.runId);
    var snapshots := LegacyProjection(h, b.runId, legacy);
    forall i | 0 <= i < |a.sources|
      ensures a.sources[i].V1Source?
      ensures var v := a.sources[i].v1;
              FindSnapshot(snapshots, v.approvalId) == Some(V1Snapshot(v, b.runId, v.approvalId, h(V1RequestP(v)), v.status))
    {
      PendingLegacySound(legacy, b.items[i].sourceId);
      V1SnapshotIs(h, legacy, b.runId, a.sources[i].v1);
    }
    ReadyRan(h, a, snapshots);
  }

  /** Successors are added, exactly as the items ask; V2 sources are superseded by them; every other request
      is as it was, and nothing else is there. */
  ghost predicate SourcesReplaced(h: Hasher, f: Files, a: ReissueAdmission, f': Files)
    requires |a.sources| == |a.batch.items|
  {
    var base, items := f.ledger.ledgerRevision, a.batch.items;
    && DistinctRequests(f'.ledger.requests) && |f'.ledger.requests| == |f.ledger.requests| + |items|
    && (forall i :: 0 <= i < |items| ==>
          var s := SuccessorOf(h, a.batch, i, base);
          && s in f'.ledger.requests
          && match a.sources[i]
             case V2Source(r) =>
               r in f.ledger.requests && r.requestId == items[i].sourceId
               && Replaced(r, base + i + 1, s.requestId) in f'.ledger.requests
             case V1Source(v) => v.approvalId == items[i].sourceId)
    && (forall r :: r in f.ledger.requests && (forall i :: 0 <= i < |items| ==> items[i].sourceId != r.requestId) ==>
          r in f'.ledger.requests)
  }

  /** The facts of a run of the loop that the theorems rest on. */
  lemma {:induction false} RanFacts(h: Hasher, a: ReissueAdmission, legacy: seq<V1Snapshot>, p: Progress)
    requires Ran(h, a, legacy, p) && |a.sources| == |a.batch.items|
    ensures DistinctRequests(BaseFiles(a).ledger.requests) && LedgerValid(h, p.ledger)
    ensures AllLeft(h, a, BaseFiles(a).ledger.ledgerRevision, Index(p.ledger.requests), p.results, |a.batch.items|)
    ensures a.observedRun == a.batch.expectedRunRevision && |p.results| == |a.batch.items|
    ensures p.ledger == BaseFiles(a).ledger.(ledgerRevision := BaseFiles(a).ledger.ledgerRevision + |a.batch.items|,
                                             requests := p.ledger.requests)
    ensures |p.ledger.requests| == |BaseFiles(a).ledger.requests| + |a.batch.items|
    ensures Untouched(a, Index(BaseFiles(a).ledger.requests), Index(p.ledger.requests), |a.batch.items|)
    ensures Placed(h, a, legacy, p, |a.batch.items|) && ReissueBatchValid(a.batch)
  {
    hide LoopReady, SnapshotsTaken, Accepts, ReissueAll, LedgerValid, Untouched, Fresh, Placed, AllLeft, Index, ReissueBatchValid,
         DistinctRequests, ReissueFiles;
    LoopLeaves(h, a, legacy, BaseFiles(a).ledger, |a.batch.items|);
    AcceptedParts(h, BaseFiles(a));
  }

  lemma {:induction false} RanReplaces(h: Hasher, a: ReissueAdmission, legacy: seq<V1Snapshot>, p: Progress)
    requires Ran(h, a, legacy, p) && |a.sources| == |a.batch.items|
    ensures SourcesReplaced(h, BaseFiles(a), a, ReissueFilesFrom(h, a, legacy, p))
  {
    hide Ran, Index, LedgerValid, DistinctRequests, SuccessorOf, Replaced, ReissueRecordFrom, Untouched, BaseFiles, Placed, ResultOfItem,
         ReissueBatchValid;
    var l, items := BaseFiles(a).ledger, a.batch.items;
    RanFacts(h, a, legacy, p);
    PendingMemberDistinct(h, p.ledger);
    IndexExact(p.ledger.requests);
    forall i | 0 <= i < |items|
      ensures SuccessorOf(h, a.batch, i, l.ledgerRevision) in p.ledger.requests
      ensures match a.sources[i]
              case V2Source(r) =>
                r in l.requests && r.requestId == items[i].sourceId
                && Replaced(r, l.ledgerRevision + i + 1, SuccessorOf(h, a.batch, i, l.ledgerRevision).requestId) in p.ledger.requests
              case V1Source(v) => v.approvalId == items[i].sourceId
    {
      assert Left(h, a, l.ledgerRevision, Index(p.ledger.requests), p.results, i);
      RanSource(h, a, legacy, p, i);
      if a.sources[i].V2Source? {
        ReplacedId(a.sources[i].request, l.ledgerRevision + i + 1, SuccessorOf(h, a.batch, i, l.ledgerRevision).requestId);
      }
    }
    RanUntouched(h, a, legacy, p);
  }

  lemma {:induction false} ReplacedId(r: Request, ledgerRevision: int, successor: string)
    ensures Replaced(r, ledgerRevision, successor).requestId == r.requestId
  {
  }

  lemma {:induction false} PendingMemberDistinct(h: Hasher, l: Ledger)
    ensures LedgerValid(h, l) ==> DistinctRequests(l.requests)
  {
  }

  lemma {:induction false} RanSource(h: Hasher, a: ReissueAdmission, legacy: seq<V1Snapshot>, p: Progress, i: nat)
    requires Ran(h, a, legacy, p) && i < |a.batch.items| == |a.sources|
    ensures match a.sources[i]
            case V2Source(r) => r in BaseFiles(a).ledger.requests && r.requestId == a.batch.items[i].sourceId
            case V1Source(v) => v.approvalId == a.batch.items[i].sourceId
  {
    hide Accepts, ReissueChecked, Advanced;
    assert SourceReady(h, a.batch.runId, legacy, BaseFiles(a).ledger, a.batch.items[i], a.sources[i]);
  }

  lemma {:induction false} RanUntouched(h: Hasher, a: ReissueAdmission, legacy: seq<V1Snapshot>, p: Progress)
    requires Ran(h, a, legacy, p) && |a.sources| == |a.batch.items|
    ensures forall r :: r in BaseFiles(a).ledger.requests
                        && (forall i :: 0 <= i < |a.batch.items| ==> a.batch.items[i].sourceId != r.requestId) ==>
              r in p.ledger.requests
  {
    hide Ran, LedgerValid, DistinctRequests, BaseFiles, Placed, AllLeft, ReissueBatchValid, Index;
    var l := BaseFiles(a).ledger;
    RanFacts(h, a, legacy, p);
    forall r | r in l.requests && (forall i :: 0 <= i < |a.batch.items| ==> a.batch.items[i].sourceId != r.requestId)
      ensures r in p.ledger.requests
    {
      IndexComplete(l.requests, r);
      IndexSound(p.ledger.requests, r.requestId);
    }
  }

  /** One record is appended, chained to the last one; its outcome lists sources and successors item by item
      and counts what is pending; decisions and audit log stay, and the ledger moves on by one per item. */
  ghost predicate ReissueRecorded(h: Hasher, f: Files, a: ReissueAdmission, f': Files)
    requires |a.sources| == |a.batch.items|
  {
    var b, base, n := a.batch, f.ledger.ledgerRevision, |f.reissues|;
    && f'.decisions == f.decisions && f'.events == f.events
    && |f'.reissues| == n + 1 && f'.reissues[..n] == f.reissues
    && f'.ledger == Ledger(f.ledger.runId, base + |b.items|, f'.ledger.requests, f.ledger.decisionCount, f.ledger.decisionHead,
                           f.ledger.auditCount, f.ledger.auditHead)
    && var d := f'.reissues[n];
       && d.sequence == n + 1 && d.previousSha == (if n == 0 then None else Some(f.reissues[n - 1].recordSha))
       && d.runId == b.runId && d.reissueId == b.reissueId && d.idempotencyKey == b.idempotencyKey
       && d.batch == b && d.batchSha == h(ReissueBatchP(b)) && d.committedAt == b.reissuedAt
       && d.previousManifestSha == a.manifestSha && d.previousPointerSha == a.pointerSha
       && d.previousLedgerSha == (if a.state == None then None else Some(a.state.value.ledgerSha))
       && d.currentLedgerSha == h(LedgerP(f'.ledger))
       && d.outcomeSha == h(ReissueOutcomeP(d.outcome)) && d.recordSha == h(ReissueRecordP(d.(recordSha := "")))
       && d.outcome == ReissueOutcome(b.runId, b.reissueId, b.idempotencyKey, h(ReissueBatchP(b)), b.expectedRunRevision,
                                      b.expectedRunRevision + 1, base, base + |b.items|, d.outcome.results,
                                      |PendingIds(f'.ledger.requests)|, b.reissuedAt)
       && |d.outcome.results| == |b.items|
       && forall i :: 0 <= i < |b.items| ==> d.outcome.results[i] == ResultOfItem(h, a, i, base)
  }

  lemma {:induction false} RanResults(h: Hasher, a: ReissueAdmission, legacy: seq<V1Snapshot>, p: Progress)
    requires Ran(h, a, legacy, p) && |a.sources| == |a.batch.items|
    ensures |p.results| == |a.batch.items|
    ensures forall i :: 0 <= i < |a.batch.items| ==> p.results[i] == ResultOfItem(h, a, i, BaseFiles(a).ledger.ledgerRevision)
  {
    hide Ran, ResultOfItem, LedgerValid, Index, DistinctRequests, Untouched, Placed, ReissueBatchValid, SuccessorOf, BaseFiles;
    RanFacts(h, a, legacy, p);
    forall i | 0 <= i < |a.batch.items|
      ensures p.results[i] == ResultOfItem(h, a, i, BaseFiles(a).ledger.ledgerRevision)
    {
      assert Left(h, a, BaseFiles(a).ledger.ledgerRevision, Index(p.ledger.requests), p.results, i);
    }
  }

  lemma {:induction false} RanOutcome(h: Hasher, a: ReissueAdmission, legacy: seq<V1Snapshot>, p: Progress)
    requires Ran(h, a, legacy, p) && |a.sources| == |a.batch.items|
    ensures ReissueOutcomeFrom(h, a, p) ==
            ReissueOutcome(a.batch.runId, a.batch.reissueId, a.batch.idempotencyKey, h(ReissueBatchP(a.batch)),
                           a.batch.expectedRunRevision, a.batch.expectedRunRevision + 1, BaseFiles(a).ledger.ledgerRevision,
                           BaseFiles(a).ledger.ledgerRevision + |a.batch.items|, p.results, |PendingIds(p.ledger.requests)|,
                           a.batch.reissuedAt)
  {
    hide Ran, PendingIds, PendingCount, LedgerValid, Index, DistinctRequests, Untouched, Placed, ReissueBatchValid, AllLeft, SortBy;
    RanFacts(h, a, legacy, p);
    PendingMemberDistinct(h, p.ledger);
    RequestCardinalities(p.ledger.requests);
    ResultsFollowItems(h, a, legacy, p);
  }

  lemma {:induction false} RanRecords(h: Hasher, a: ReissueAdmission, legacy: seq<V1Snapshot>, p: Progress)
    requires Ran(h, a, legacy, p) && |a.sources| == |a.batch.items|
    ensures ReissueRecorded(h, BaseFiles(a), a, ReissueFilesFrom(h, a, legacy, p))
  {
    hide Ran, ResultOfItem, PendingIds, PendingCount, LedgerValid, Index, DistinctRequests, Untouched, Placed, ReissueBatchValid,
         SuccessorOf, AllLeft, ReissueOutcomeFrom;
    RanFacts(h, a, legacy, p);
    RanResults(h, a, legacy, p);
    RanOutcome(h, a, legacy, p);
    var d := ReissueRecordFrom(h, a, legacy, p);
    assert d.(recordSha := "") == d.(recordSha := "").(recordSha := "");
  }

  /** A committed V2 reissue replaces its sources by their successors and records it. */
  lemma {:induction false} ReissueReplacesSources(h: Hasher, s: State, legacy: seq<V1Request>, b: ReissueBatch, run: int, ms: Sha,
                                       ps: Sha, a: ReissueAdmission)
    requires Built(h, Some(s), legacy, b, run, ms, ps, a)
    ensures SourcesReplaced(h, s.files, a, ReissueFiles(h, a).value) && ReissueRecorded(h, s.files, a, ReissueFiles(h, a).value)
    ensures ReissueFiles(h, a).value.reissues[|s.files.reissues|].legacyProjection == []
  {
    hide SourcesReplaced, ReissueRecorded, ReissueAll, ReissueVerdictFor;
    BuiltV2Ran(h, s, legacy, b, run, ms, ps, a);
    var p := ReissueAll(h, a, [], s.files.ledger, |b.items|).value;
    RanReplaces(h, a, [], p);
    RanRecords(h, a, [], p);
  }

  /** A committed V1 reissue opens the ledger with the successors and keeps the whole history in its record. */
  lemma {:induction false} LegacyReissueOpens(h: Hasher, legacy: seq<V1Request>, b: ReissueBatch, run: int, ms: Sha, ps: Sha,
                                   a: ReissueAdmission)
    requires Built(h, None, legacy, b, run, ms, ps, a)
    ensures SourcesReplaced(h, EmptyFiles(b.runId), a, ReissueFiles(h, a).value)
    ensures ReissueRecorded(h, EmptyFiles(b.runId), a, ReissueFiles(h, a).value)
    ensures var projection := ReissueFiles(h, a).value.reissues[0].legacyProjection;
            && |projection| == |legacy|
            && forall v :: v in legacy ==> V1Snapshot(v, b.runId, v.approvalId, h(V1RequestP(v)), v.status) in projection
  {
    hide SourcesReplaced, ReissueRecorded, ReissueAll, ReissueVerdictFor, LegacyProjection;
    BuiltV1Ran(h, legacy, b, run, ms, ps, a);
    var snapshots := LegacyProjection(h, b.runId, legacy);
    var p := ReissueAll(h, a, snapshots, EmptyLedger(b.runId), |b.items|).value;
    RanReplaces(h, a, snapshots, p);
    RanRecords(h, a, snapshots, p);
    LegacyProjectionWellFormed(h, b.runId, legacy);
  }
}
