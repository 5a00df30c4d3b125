/** The main results about reissue: when it can be built, and that it keeps the reader satisfied. */
module ApprovalReissueTheorems {
  import opened Basics
  import opened ApprovalModels
  import opened ApprovalProjection
  import opened ApprovalWriter
  import opened ApprovalReissue
  import opened ApprovalReissueStep
  import opened ApprovalReissueFold
  import opened ApprovalReissueCommit
  import opened ApprovalReissueAdmission

  // ------------------------------------------------------------------ which successors are free

  /** Identifier and idempotency key of the successor an item asks for; neither depends on the ledger. */
  function SuccessorName(h: Hasher, runId: string, item: ReissueItem): (string, Sha) {
    var s := item.successor;
    var key := h(RequestKeyP(runId, s.sourcePhaseId, s.stableProposalId, s.actionPlan.category, h(ActionPlanP(s.actionPlan))));
    ("request-" + First32(key), key)
  }

  predicate Apart(a: (string, Sha), b: (string, Sha)) {
    a.0 != b.0 && a.1 != b.1
  }

  /** The first `k` successors have names of their own. */
  predicate SuccessorsFree(h: Hasher, runId: string, rs: seq<Request>, items: seq<ReissueItem>, k: nat)
    requires k <= |items|
  {
    && (forall i, q :: 0 <= i < k && q in rs ==> Apart((q.requestId, q.idempotencyKey), SuccessorName(h, runId, items[i])))
    && (forall i, j :: 0 <= i < j < k ==> Apart(SuccessorName(h, runId, items[i]), SuccessorName(h, runId, items[j])))
  }

  function Names(rs: seq<Request>): set<(string, Sha)> {
    set q | q in rs :: (q.requestId, q.idempotencyKey)
  }

  lemma {:induction false} NamesAppend(rs: seq<Request>, s: Request)
    ensures Names(rs + [s]) == Names(rs) + {(s.requestId, s.idempotencyKey)}
  {
    assert forall q :: q in rs + [s] <==> q in rs || q == s;
  }

  lemma {:induction false} NamesReplace(rs: seq<Request>, k: nat, u: Request)
    requires DistinctRequests(rs) && k < |rs|
    requires u.requestId == rs[k].requestId && u.idempotencyKey == rs[k].idempotencyKey
    ensures Names(Replace(rs, u)) == Names(rs)
  {
    var replaced := Replace(rs, u);
    forall i | 0 <= i < |rs|
      ensures replaced[i].requestId == rs[i].requestId && replaced[i].idempotencyKey == rs[i].idempotencyKey
    {
      if rs[i].requestId == u.requestId { assert i == k; }
    }
    forall n
      ensures n in Names(replaced) <==> n in Names(rs)
    {
      if n in Names(replaced) {
        var i :| 0 <= i < |replaced| && (replaced[i].requestId, replaced[i].idempotencyKey) == n;
        assert rs[i] in rs;
      }
      if n in Names(rs) {
        var i :| 0 <= i < |rs| && (rs[i].requestId, rs[i].idempotencyKey) == n;
        assert replaced[i] in replaced;
      }
    }
  }

  lemma {:induction false} NamesMarked(l: Ledger, s: Request, r: Request)
    requires r in l.requests && DistinctRequests(l.requests + [s])
    ensures Names(Marked(l, s, r).requests) == Names(l.requests) + {(s.requestId, s.idempotencyKey)}
  {
    var rs, u := l.requests + [s], Supersede(r, s.ledgerRevision, s.requestId);
    NamesAppend(l.requests, s);
    var k :| 0 <= k < |l.requests| && l.requests[k] == r;
    assert rs[k] == r;
    NamesReplace(rs, k, u);
    MultisetMember(Replace(rs, u), SortBy(Replace(rs, u), RequestLe));
  }

  predicate ApartFrom(ns: set<(string, Sha)>, x: (string, Sha)) {
    forall n :: n in ns ==> Apart(n, x)
  }

  lemma {:induction false} UnclashingByName(rs: seq<Request>, s: Request)
    ensures Unclashing(rs, s) <==> ApartFrom(Names(rs), (s.requestId, s.idempotencyKey))
  {
    if ApartFrom(Names(rs), (s.requestId, s.idempotencyKey)) {
      forall q | q in rs ensures !Clash(q, s) { assert (q.requestId, q.idempotencyKey) in Names(rs); }
    }
  }

  function NamesUpTo(h: Hasher, runId: string, items: seq<ReissueItem>, k: nat): set<(string, Sha)>
    requires k <= |items|
  {
    set i | 0 <= i < k :: SuccessorName(h, runId, items[i])
  }

  lemma {:induction false} PassNames(h: Hasher, a: ReissueAdmission, legacy: seq<V1Snapshot>, l: Ledger, p: Progress,
                                     k: nat)
    requires LoopReady(h, a, legacy, l) && k < |a.batch.items| && Advanced(h, a, legacy, l, p, k)
    requires ReissueOne(h, a, legacy, p, a.batch.items[k], a.sources[k]).Ok?
    ensures Names(ReissueOne(h, a, legacy, p, a.batch.items[k], a.sources[k]).value.ledger.requests)
         == Names(p.ledger.requests) + {SuccessorName(h, a.batch.runId, a.batch.items[k])}
  {
    var s := SuccessorFor(h, a, p.ledger, a.batch.items[k]);
    SuccessorIsValid(h, a, legacy, l, p.ledger, k);
    AddNext(h, p.ledger, s);
    OnePass(h, a, legacy, p, a.batch.items[k], a.sources[k]);
    match a.sources[k]
    case V2Source(r) =>
      SourceUntouched(h, a, legacy, l, p, k, r);
      NamesMarked(p.ledger, s, r);
    case V1Source(v) =>
      assert SourceReady(h, a.batch.runId, legacy, l, a.batch.items[k], a.sources[k]);
      NamesAppend(p.ledger.requests, s);
  }

  lemma {:induction false} FreeStep(h: Hasher, runId: string, rs: seq<Request>, items: seq<ReissueItem>, k: nat)
    requires k < |items|
    ensures SuccessorsFree(h, runId, rs, items, k + 1) <==>
              && SuccessorsFree(h, runId, rs, items, k)
              && ApartFrom(Names(rs) + NamesUpTo(h, runId, items, k), SuccessorName(h, runId, items[k]))
  {
    if SuccessorsFree(h, runId, rs, items, k + 1) {
      forall n | n in Names(rs) + NamesUpTo(h, runId, items, k)
        ensures Apart(n, SuccessorName(h, runId, items[k]))
      {
        if n in NamesUpTo(h, runId, items, k) {
          var i :| 0 <= i < k && SuccessorName(h, runId, items[i]) == n;
        }
      }
    }
    if SuccessorsFree(h, runId, rs, items, k)
       && ApartFrom(Names(rs) + NamesUpTo(h, runId, items, k), SuccessorName(h, runId, items[k])) {
      forall q | q in rs
        ensures Apart((q.requestId, q.idempotencyKey), SuccessorName(h, runId, items[k]))
      {
        assert (q.requestId, q.idempotencyKey) in Names(rs);
      }
      forall i | 0 <= i < k
        ensures Apart(SuccessorName(h, runId, items[i]), SuccessorName(h, runId, items[k]))
      {
        assert SuccessorName(h, runId, items[i]) in NamesUpTo(h, runId, items, k);
      }
    }
  }

  ghost predicate NamesKnown(h: Hasher, runId: string, l: Ledger, l': Ledger, items: seq<ReissueItem>, k: nat)
    requires k <= |items|
  {
    && |l'.requests| == |l.requests| + k
    && Names(l'.requests) == Names(l.requests) + NamesUpTo(h, runId, items, k)
  }

  lemma {:induction false} NamesUpToNext(h: Hasher, runId: string, items: seq<ReissueItem>, k: nat)
    requires k < |items|
    ensures NamesUpTo(h, runId, items, k + 1) == NamesUpTo(h, runId, items, k) + {SuccessorName(h, runId, items[k])}
  {
  }

  lemma {:induction false} ClashByName(h: Hasher, a: ReissueAdmission, l: Ledger, l': Ledger, k: nat)
    requires k < |a.batch.items| && NamesKnown(h, a.batch.runId, l, l', a.batch.items, k)
    requires SuccessorsFree(h, a.batch.runId, l.requests, a.batch.items, k)
    ensures Unclashing(l'.requests, SuccessorFor(h, a, l', a.batch.items[k])) <==>
              SuccessorsFree(h, a.batch.runId, l.requests, a.batch.items, k + 1)
  {
    var s := SuccessorFor(h, a, l', a.batch.items[k]);
    assert (s.requestId, s.idempotencyKey) == SuccessorName(h, a.batch.runId, a.batch.items[k]);
    FreeStep(h, a.batch.runId, l.requests, a.batch.items, k);
    UnclashingByName(l'.requests, s);
  }

  /** One more item goes through exactly when its name is apart from all names so far. */
  lemma {:induction false} PassSucceeds(h: Hasher, a: ReissueAdmission, legacy: seq<V1Snapshot>, l: Ledger,
                                        p: Progress, k: nat)
    requires LoopReady(h, a, legacy, l) && k < |a.batch.items| && Advanced(h, a, legacy, l, p, k)
    requires NamesKnown(h, a.batch.runId, l, p.ledger, a.batch.items, k)
    requires SuccessorsFree(h, a.batch.runId, l.requests, a.batch.items, k)
    ensures var one := ReissueOne(h, a, legacy, p, a.batch.items[k], a.sources[k]);
            && (one.Ok? <==> SuccessorsFree(h, a.batch.runId, l.requests, a.batch.items, k + 1) && |l.requests| + k < MAX_REQUESTS)
            && (one.Ok? ==> NamesKnown(h, a.batch.runId, l, one.value.ledger, a.batch.items, k + 1))
  {
    ClashByName(h, a, l, p.ledger, k);
    PassOutcome(h, a, legacy, l, p, k);
    var one := ReissueOne(h, a, legacy, p, a.batch.items[k], a.sources[k]);
    if one.Ok? {
      assert |one.value.ledger.requests| == |l.requests| + k + 1;
      PassNames(h, a, legacy, l, p, k);
      NamesUpToNext(h, a.batch.runId, a.batch.items, k);
    }
  }

  lemma {:induction false} ReissueAllNext(h: Hasher, a: ReissueAdmission, legacy: seq<V1Snapshot>, l: Ledger, k: nat)
    requires k < |a.batch.items| == |a.sources|
    ensures ReissueAll(h, a, legacy, l, k).Err? ==> ReissueAll(h, a, legacy, l, k + 1).Err?
    ensures ReissueAll(h, a, legacy, l, k).Ok? ==>
              ReissueAll(h, a, legacy, l, k + 1)
              == ReissueOne(h, a, legacy, ReissueAll(h, a, legacy, l, k).value, a.batch.items[k], a.sources[k])
  {
  }

  ghost predicate LoopFact(h: Hasher, a: ReissueAdmission, legacy: seq<V1Snapshot>, l: Ledger, k: nat)
    requires k <= |a.batch.items| == |a.sources|
  {
    var r := ReissueAll(h, a, legacy, l, k);
    && (r.Ok? <==> SuccessorsFree(h, a.batch.runId, l.requests, a.batch.items, k) && |l.requests| + k <= MAX_REQUESTS)
    && (r.Ok? ==> NamesKnown(h, a.batch.runId, l, r.value.ledger, a.batch.items, k))
  }

  lemma {:induction false} FreeEarlier(h: Hasher, runId: string, rs: seq<Request>, items: seq<ReissueItem>, k: nat)
    requires k < |items| && SuccessorsFree(h, runId, rs, items, k + 1)
    ensures SuccessorsFree(h, runId, rs, items, k)
  {
  }

  lemma {:induction false} LoopFactNext(h: Hasher, a: ReissueAdmission, legacy: seq<V1Snapshot>, l: Ledger, k: nat)
    requires LoopReady(h, a, legacy, l) && k < |a.batch.items| && LoopFact(h, a, legacy, l, k)
    ensures LoopFact(h, a, legacy, l, k + 1)
  {
    ReissueAllNext(h, a, legacy, l, k);
    if ReissueAll(h, a, legacy, l, k).Ok? {
      LoopAdvances(h, a, legacy, l, k);
      PassSucceeds(h, a, legacy, l, ReissueAll(h, a, legacy, l, k).value, k);
    } else if SuccessorsFree(h, a.batch.runId, l.requests, a.batch.items, k + 1) {
      FreeEarlier(h, a.batch.runId, l.requests, a.batch.items, k);
    }
  }

  lemma {:induction false} LoopFactStart(h: Hasher, a: ReissueAdmission, legacy: seq<V1Snapshot>, l: Ledger)
    requires LoopReady(h, a, legacy, l)
    ensures LoopFact(h, a, legacy, l, 0)
  {
    hide SourceReady, V1SnapshotValid, ReissueBatchValid;
    assert NamesUpTo(h, a.batch.runId, a.batch.items, 0) == {};
  }

  /** The loop goes through exactly when the ledger has room and every successor has a name of its own. */
  lemma {:induction false} LoopSucceeds(h: Hasher, a: ReissueAdmission, legacy: seq<V1Snapshot>, l: Ledger, k: nat)
    requires LoopReady(h, a, legacy, l) && k <= |a.batch.items|
    ensures LoopFact(h, a, legacy, l, k)
  {
    hide LoopFact;
    if k == 0 {
      LoopFactStart(h, a, legacy, l);
    } else {
      LoopSucceeds(h, a, legacy, l, k - 1);
      LoopFactNext(h, a, legacy, l, k - 1);
    }
  }

  // ------------------------------------------------------------------ main results

  /** What the caller can check before building: room in the ledger and unused successor names. */
  predicate RoomForSuccessors(h: Hasher, l: Ledger, b: ReissueBatch) {
    |l.requests| + |b.items| <= MAX_REQUESTS && SuccessorsFree(h, b.runId, l.requests, b.items, |b.items|)
  }

  lemma {:induction false} ReissueBuildsAndCommits(h: Hasher, a: ReissueAdmission, legacy: seq<V1Snapshot>)
    requires legacy == LegacyProjection(h, a.batch.runId, a.legacy)
    requires Accepts(h, BaseFiles(a)) && ReissueChecked(h, a, legacy)
    requires LoopReady(h, a, legacy, BaseFiles(a).ledger)
    ensures ReissueFiles(h, a).Ok? <==> RoomForSuccessors(h, BaseFiles(a).ledger, a.batch)
    ensures ReissueFiles(h, a).Ok? ==>
              && (Accepts(h, ReissueFiles(h, a).value) <==> Continues(BaseFiles(a), a.observedRun))
              && Advanced(h, a, legacy, BaseFiles(a).ledger,
                          ReissueAll(h, a, legacy, BaseFiles(a).ledger, |a.batch.items|).value, |a.batch.items|)
              && ReissueFiles(h, a).value
                 == ReissueFilesFrom(h, a, legacy, ReissueAll(h, a, legacy, BaseFiles(a).ledger, |a.batch.items|).value)
  {
    var n := |a.batch.items|;
    LoopSucceeds(h, a, legacy, BaseFiles(a).ledger, n);
    LoopAdvances(h, a, legacy, BaseFiles(a).ledger, n);
    assert StartLedger(a) == BaseFiles(a).ledger;
    if ReissueAll(h, a, legacy, BaseFiles(a).ledger, n).Ok? {
      CommitReissueAccepted(h, a, legacy, ReissueAll(h, a, legacy, BaseFiles(a).ledger, n).value);
    }
  }

  lemma {:induction false} NoLegacy(h: Hasher, runId: string)
    ensures LegacyProjection(h, runId, []) == []
  {
  }

  /** The closure of the reader under reissue. From any state it accepts, an admitted batch builds
      if and only if there is room for its successors; once built, the reader accepts the result
      if and only if the observed run revision continues from the last commit. */
  lemma {:induction false} ReissueCommitAccepted(h: Hasher, s: State, legacy: seq<V1Request>, b: ReissueBatch,
                                        run: int, ms: Sha, ps: Sha)
    requires Accepts(h, s.files) && ReissueBatchValid(b)
    requires ReissueVerdictFor(h, Some(s), legacy, b, run, ms, ps).NewReissue?
    ensures var a := ReissueVerdictFor(h, Some(s), legacy, b, run, ms, ps).admission;
            && |a.sources| == |a.batch.items|
            && (ReissueFiles(h, a).Ok? <==> RoomForSuccessors(h, s.files.ledger, b))
            && (ReissueFiles(h, a).Ok? ==> (Accepts(h, ReissueFiles(h, a).value) <==> Continues(s.files, run)))
  {
    V2AdmissionIsReady(h, s, legacy, b, run, ms, ps);
    NoLegacy(h, b.runId);
    ReissueBuildsAndCommits(h, ReissueVerdictFor(h, Some(s), legacy, b, run, ms, ps).admission, []);
  }

  /** A historical V1 run enters the V2 ledger in a state the reader accepts. */
  lemma {:induction false} LegacyReissueAccepted(h: Hasher, legacy: seq<V1Request>, b: ReissueBatch, run: int,
                                        ms: Sha, ps: Sha)
    requires ReissueBatchValid(b)
    requires ReissueVerdictFor(h, None, legacy, b, run, ms, ps).NewReissue?
    ensures var a := ReissueVerdictFor(h, None, legacy, b, run, ms, ps).admission;
            && |a.sources| == |a.batch.items|
            && (ReissueFiles(h, a).Ok? <==> |legacy| <= MAX_REQUESTS && RoomForSuccessors(h, EmptyLedger(b.runId), b))
            && (ReissueFiles(h, a).Ok? ==> Accepts(h, ReissueFiles(h, a).value))
  {
    V1SourcesMatch(h, legacy, b, run, ms, ps);
    if |legacy| <= MAX_REQUESTS {
      V1AdmissionIsReady(h, legacy, b, run, ms, ps);
      EmptyIsAccepted(h, b.runId);
      ReissueBuildsAndCommits(h, ReissueVerdictFor(h, None, legacy, b, run, ms, ps).admission, LegacyProjection(h, b.runId, legacy));
    }
  }
}
