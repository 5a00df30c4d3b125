/** The reader accepts a committed decision exactly when the commit is timely. */
module ApprovalDecisionCommit {
  import opened Basics
  import opened ApprovalModels
  import opened ApprovalReader
  import opened ApprovalProjection
  import opened ApprovalWriter
  import opened ApprovalIndex
  import opened ApprovalConservation
  import opened ApprovalEvolution
  import opened ApprovalDecisionClosure

  /** What a caller can check before committing: the run revision continues from the last commit
      of either kind and the clock has not gone back behind it. */
  predicate Timely(f: Files, observedRun: int, at: Time) {
    var s := Timeline(f.decisions, f.reissues);
    s == [] || (s[|s| - 1].currentRun == observedRun && s[|s| - 1].committedAt <= at)
  }

  lemma {:induction false} AcceptedSteps(h: Hasher, f: Files)
    requires Accepts(h, f)
    ensures forall k :: 0 <= k < |f.decisions| ==>
              f.decisions[k].outcome.currentRunRevision == f.decisions[k].outcome.previousRunRevision + 1
    ensures forall k :: 0 <= k < |f.reissues| ==>
              f.reissues[k].outcome.currentRunRevision == f.reissues[k].outcome.previousRunRevision + 1
  {
    hide TimelineOk, ProjectionOk, AuditChainOk, ReissueChainOk, LedgerValid, DistinctDecisions, BatchValid, SnapshotValid;
    forall k | 0 <= k < |f.decisions|
      ensures f.decisions[k].outcome.currentRunRevision == f.decisions[k].outcome.previousRunRevision + 1
    {
      assert f.decisions[k] in f.decisions;
      assert DecisionLinked(f.ledger, f.decisions, k);
    }
    forall k | 0 <= k < |f.reissues|
      ensures f.reissues[k].outcome.currentRunRevision == f.reissues[k].outcome.previousRunRevision + 1
    {
      assert f.reissues[k] in f.reissues;
    }
  }

  lemma {:induction false} StepsOf(ds: seq<DecisionRecord>, rs: seq<ReissueRecord>)
    requires forall k :: 0 <= k < |ds| ==> ds[k].outcome.currentRunRevision == ds[k].outcome.previousRunRevision + 1
    requires forall k :: 0 <= k < |rs| ==> rs[k].outcome.currentRunRevision == rs[k].outcome.previousRunRevision + 1
    ensures StepsByOne(Timeline(ds, rs))
  {
    var s, all := Timeline(ds, rs), Mutations(ds, rs);
    forall i | 0 <= i < |s|
      ensures s[i].currentRun == s[i].previousRun + 1
    {
      assert s[i] in multiset(s);
      assert s[i] in all;
    }
  }

  lemma {:induction false} TimelineSteps(h: Hasher, f: Files)
    requires Accepts(h, f)
    ensures StepsByOne(Timeline(f.decisions, f.reissues))
    ensures TimelineOk(f.ledger, f.decisions, f.reissues)
  {
    AcceptedSteps(h, f);
    StepsOf(f.decisions, f.reissues);
  }

  lemma {:induction false} ReissuesAreNonEmpty(rs: seq<ReissueRecord>)
    requires forall r :: r in rs ==> r.outcome.results != []
    ensures rs != [] ==> ReissueResults(rs) != []
  {
    if rs != [] {
      assert rs[|rs| - 1] in rs;
    }
  }

  lemma {:induction false} MutationCount(ds: seq<DecisionRecord>, rs: seq<ReissueRecord>)
    ensures |Timeline(ds, rs)| == |ds| + |rs|
  {
  }

  /** Before the first commit every request is a root; afterwards the head is past the roots. */
  lemma {:induction false} RootsAndHead(h: Hasher, f: Files)
    requires Accepts(h, f)
    ensures Timeline(f.decisions, f.reissues) == [] ==> RootCount(f.ledger, f.reissues) == f.ledger.ledgerRevision
    ensures Timeline(f.decisions, f.reissues) != [] ==> RootCount(f.ledger, f.reissues) < f.ledger.ledgerRevision
  {
    MutationCount(f.decisions, f.reissues);
    forall r | r in f.reissues ensures r.outcome.results != [] { assert ReissueRecordValid(h, r); }
    ReissuesAreNonEmpty(f.reissues);
  }

  lemma {:induction false} LastDecisionPrecedes(ds: seq<DecisionRecord>, rs: seq<ReissueRecord>)
    requires ds != [] && Contiguous(Timeline(ds, rs)) && StepsByOne(Timeline(ds, rs))
    ensures var s, last := Timeline(ds, rs), ds[|ds| - 1];
            && s != []
            && last.committedAt <= s[|s| - 1].committedAt
            && last.outcome.currentRunRevision <= s[|s| - 1].currentRun
  {
    var s, all, m := Timeline(ds, rs), Mutations(ds, rs), DecisionMutation(ds[|ds| - 1]);
    assert all[|ds| - 1] == m;
    assert m in multiset(all);
    assert m in s;
    var i :| 0 <= i < |s| && s[i] == m;
    ContiguousClock(s, i, |s| - 1);
  }

  lemma {:induction false} TimelineWithDecision(l: Ledger, ds: seq<DecisionRecord>, rs: seq<ReissueRecord>,
                                        l': Ledger, r: DecisionRecord)
    requires TimelineOk(l, ds, rs) && StepsByOne(Timeline(ds, rs))
    requires Timeline(ds, rs) == [] ==> RootCount(l, rs) == l.ledgerRevision
    requires Timeline(ds, rs) != [] ==> RootCount(l, rs) < l.ledgerRevision
    requires |l'.requests| == |l.requests| && l'.ledgerRevision == l.ledgerRevision + 1
    requires r.outcome.previousLedgerRevision == l.ledgerRevision && r.outcome.currentLedgerRevision == l'.ledgerRevision
    requires r.outcome.currentRunRevision == r.outcome.previousRunRevision + 1
    ensures TimelineOk(l', ds + [r], rs) <==>
              var s := Timeline(ds, rs);
              s == [] || (s[|s| - 1].currentRun == r.outcome.previousRunRevision && s[|s| - 1].committedAt <= r.committedAt)
    ensures TimelineOk(l', ds + [r], rs) ==> Timeline(ds + [r], rs) == Timeline(ds, rs) + [DecisionMutation(r)]
  {
    MutationsAfterDecision(ds, rs, r);
    TimelineStep(l, ds, rs, l', ds + [r], rs, DecisionMutation(r));
  }

  lemma {:induction false} DecisionTimeline(h: Hasher, a: Admission)
    requires Accepts(h, a.state.files)
    ensures TimelineOk(DecisionFiles(h, a).ledger, DecisionFiles(h, a).decisions, a.state.files.reissues) <==>
              Timely(a.state.files, a.batch.expectedRunRevision, a.batch.decisionAt)
    ensures TimelineOk(DecisionFiles(h, a).ledger, DecisionFiles(h, a).decisions, a.state.files.reissues) ==>
              Timeline(DecisionFiles(h, a).decisions, a.state.files.reissues)
              == Timeline(a.state.files.decisions, a.state.files.reissues) + [DecisionMutation(DecisionRecordFor(h, a))]
  {
    hide Accepts, TimelineOk, Timeline, RootCount, StepsByOne;
    var f := a.state.files;
    TimelineSteps(h, f);
    RootsAndHead(h, f);
    TimelineWithDecision(f.ledger, f.decisions, f.reissues, DecisionFiles(h, a).ledger, DecisionRecordFor(h, a));
  }

  // ------------------------------------------------------------------ projection

  lemma {:induction false} DecidedEvolves(l: Ledger, items: seq<DecisionItem>, at: Time)
    requires forall r :: r in l.requests ==> r.ledgerRevision <= l.ledgerRevision
    requires forall i :: 0 <= i < |items| ==> ItemAdmitted(Index(l.requests), items[i], at)
    requires !DuplicateItems(items)
    ensures Evolves(Index(l.requests), DecidedIndex(Index(l.requests), DecisionMap(items), l.ledgerRevision + 1))
  {
    var m := Index(l.requests);
    var m' := DecidedIndex(m, DecisionMap(items), l.ledgerRevision + 1);
    forall id | id in m
      ensures m[id].state != Pending ==> m'[id] == m[id]
      ensures m'[id].requestRevision >= m[id].requestRevision
      ensures m'[id].ledgerRevision >= m[id].ledgerRevision
      ensures AsPending(m'[id], 1, 1) == AsPending(m[id], 1, 1)
    {
      IndexSound(l.requests, id);
      if id in DecisionMap(items) {
        NamedArePending(l.requests, items, at, id);
        PendingHasNoSuccessor(m[id], m'[id]);
      }
    }
  }

  lemma {:induction false} PendingHasNoSuccessor(r: Request, r': Request)
    requires r' == r.(requestRevision := r'.requestRevision, ledgerRevision := r'.ledgerRevision, state := r'.state)
    ensures AsPending(r', 1, 1) == AsPending(r, 1, 1)
  {
  }

  lemma {:induction false} NewResultProjected(l: Ledger, items: seq<DecisionItem>, at: Time, i: nat)
    requires !DuplicateItems(items) && i < |items| && ItemAdmitted(Index(l.requests), items[i], at)
    ensures DecisionProjected(DecidedIndex(Index(l.requests), DecisionMap(items), l.ledgerRevision + 1), BatchResults(items)[i])
  {
    DecisionMapExact(items);
    IndexSound(l.requests, items[i].requestId);
  }

  lemma {:induction false} NewResultsProjected(l: Ledger, items: seq<DecisionItem>, at: Time)
    requires DistinctRequests(l.requests) && !DuplicateItems(items)
    requires forall i :: 0 <= i < |items| ==> ItemAdmitted(Index(l.requests), items[i], at)
    ensures AllDecisionsProjected(DecidedIndex(Index(l.requests), DecisionMap(items), l.ledgerRevision + 1), BatchResults(items))
  {
    forall i | 0 <= i < |items|
      ensures DecisionProjected(DecidedIndex(Index(l.requests), DecisionMap(items), l.ledgerRevision + 1), BatchResults(items)[i])
    {
      NewResultProjected(l, items, at, i);
    }
  }

  lemma {:induction false} DecidedAreSettled(m: map<string, Request>, flat: seq<DecisionResult>, id: string)
    requires AllDecisionsProjected(m, flat) && id in DecidedIds(flat)
    ensures id in m && m[id].state != Pending && m[id].state != Superseded
  {
    var i :| 0 <= i < |flat| && flat[i].requestId == id;
    assert DecisionProjected(m, flat[i]);
  }

  lemma {:induction false} DecidedDistinctAfter(l: Ledger, flat: seq<DecisionResult>, items: seq<DecisionItem>,
                                        at: Time)
    requires AllDecisionsProjected(Index(l.requests), flat) && DistinctResults(flat)
    requires !DuplicateItems(items)
    requires forall i :: 0 <= i < |items| ==> ItemAdmitted(Index(l.requests), items[i], at)
    ensures DistinctResults(flat + BatchResults(items))
  {
    var batch := BatchResults(items);
    assert DistinctResults(batch);
    forall i, j | 0 <= i < |flat| && 0 <= j < |batch|
      ensures flat[i].requestId != batch[j].requestId
    {
      assert DecisionProjected(Index(l.requests), flat[i]);
      assert ItemAdmitted(Index(l.requests), items[j], at);
    }
  }

  /** The decided requests afterwards are those before and those of the batch. */
  lemma {:induction false} DecidedAfter(flat: seq<DecisionResult>, items: seq<DecisionItem>, id: string)
    requires !DuplicateItems(items)
    ensures id in DecidedIds(flat + BatchResults(items)) <==> id in DecidedIds(flat) || id in DecisionMap(items)
  {
    var all := flat + BatchResults(items);
    DecisionMapExact(items);
    if id in DecidedIds(all) {
      var i :| 0 <= i < |all| && all[i].requestId == id;
      if i >= |flat| { assert items[i - |flat|].requestId == id; }
    }
    if id in DecidedIds(flat) {
      var i :| 0 <= i < |flat| && flat[i].requestId == id;
      assert all[i].requestId == id;
    }
    if id in DecisionMap(items) {
      var i :| 0 <= i < |items| && items[i].requestId == id;
      assert all[|flat| + i].requestId == id;
    }
  }

  lemma {:induction false} ExplainedAfter(q: Request, flat: seq<DecisionResult>, S: set<string>,
                                        items: seq<DecisionItem>, rev: int)
    requires !DuplicateItems(items) && Explained(q, DecidedIds(flat), S)
    requires q.requestId in DecisionMap(items) ==> q.state == Pending && q.requestId !in S
    ensures Explained(DecideIfNamed(q, DecisionMap(items), rev), DecidedIds(flat + BatchResults(items)), S)
  {
    DecidedAfter(flat, items, q.requestId);
  }

  lemma {:induction false} SupersededIsNotPending(h: Hasher, f: Files, id: string)
    requires ProjectionOk(h, f.ledger, f.decisions, f.reissues)
    requires id in SupersededIds(ReissueResults(f.reissues))
    ensures id in Index(f.ledger.requests) && Index(f.ledger.requests)[id].state == Superseded
  {
    var reissued := ReissueResults(f.reissues);
    var i :| 0 <= i < |reissued| && reissued[i].source.kind == ApprovalV2 && reissued[i].source.sourceId == id;
    var _ := ReissueResultHome(h, f, reissued[i]);
  }

  lemma {:induction false} DecisionExplained(h: Hasher, f: Files, items: seq<DecisionItem>, at: Time, i: nat)
    requires DistinctRequests(f.ledger.requests) && i < |f.ledger.requests|
    requires ProjectionOk(h, f.ledger, f.decisions, f.reissues)
    requires !DuplicateItems(items)
    requires forall k :: 0 <= k < |items| ==> ItemAdmitted(Index(f.ledger.requests), items[k], at)
    ensures Explained(DecideIfNamed(f.ledger.requests[i], DecisionMap(items), f.ledger.ledgerRevision + 1),
                      DecidedIds(DecisionResults(f.decisions) + BatchResults(items)),
                      SupersededIds(ReissueResults(f.reissues)))
  {
    var q := f.ledger.requests[i];
    assert q in f.ledger.requests;
    IndexComplete(f.ledger.requests, q);
    if q.requestId in DecisionMap(items) {
      NamedArePending(f.ledger.requests, items, at, q.requestId);
      if q.requestId in SupersededIds(ReissueResults(f.reissues)) {
        SupersededIsNotPending(h, f, q.requestId);
      }
    }
    ExplainedAfter(q, DecisionResults(f.decisions), SupersededIds(ReissueResults(f.reissues)), items, f.ledger.ledgerRevision + 1);
  }

  lemma {:induction false} ResultsProjectedAfter(l: Ledger, flat: seq<DecisionResult>, items: seq<DecisionItem>,
                                        at: Time)
    requires DistinctRequests(l.requests) && (forall r :: r in l.requests ==> r.ledgerRevision <= l.ledgerRevision)
    requires AllDecisionsProjected(Index(l.requests), flat) && !DuplicateItems(items)
    requires forall i :: 0 <= i < |items| ==> ItemAdmitted(Index(l.requests), items[i], at)
    ensures AllDecisionsProjected(DecidedIndex(Index(l.requests), DecisionMap(items), l.ledgerRevision + 1),
                                  flat + BatchResults(items))
  {
    var m := Index(l.requests);
    var m' := DecidedIndex(m, DecisionMap(items), l.ledgerRevision + 1);
    DecidedEvolves(l, items, at);
    NewResultsProjected(l, items, at);
    forall i | 0 <= i < |flat + BatchResults(items)|
      ensures DecisionProjected(m', (flat + BatchResults(items))[i])
    {
      if i < |flat| {
        EvolvedDecision(m, m', flat[i]);
      } else {
        assert (flat + BatchResults(items))[i] == BatchResults(items)[i - |flat|];
      }
    }
  }

  lemma {:induction false} ExplainedMembers(h: Hasher, a: Admission, at: Time, r: Request)
    requires DistinctRequests(a.state.files.ledger.requests)
    requires ProjectionOk(h, a.state.files.ledger, a.state.files.decisions, a.state.files.reissues)
    requires !DuplicateItems(a.batch.items) && r in DecidedRequests(a)
    requires forall k :: 0 <= k < |a.batch.items| ==> ItemAdmitted(Index(a.state.files.ledger.requests), a.batch.items[k], at)
    ensures Explained(r, DecidedIds(DecisionResults(a.state.files.decisions) + BatchResults(a.batch.items)),
                      SupersededIds(ReissueResults(a.state.files.reissues)))
  {
    hide ProjectionOk, ItemAdmitted, DuplicateItems, Explained, DistinctRequests, DecidedIds, SupersededIds, BatchResults;
    var f := a.state.files;
    var all := DecideAll(f.ledger.requests, DecisionMap(a.batch.items), f.ledger.ledgerRevision + 1);
    MultisetMember(all, DecidedRequests(a));
    var i :| 0 <= i < |all| && all[i] == r;
    DecisionExplained(h, f, a.batch.items, at, i);
  }

  lemma {:induction false} RecordsEvolve(h: Hasher, runId: string, m: map<string, Request>, m': map<string, Request>,
                                        rs: seq<ReissueRecord>)
    requires Evolves(m, m')
    requires forall i :: 0 <= i < |rs| ==> ReissueProjected(h, runId, m, rs[i])
    ensures forall i :: 0 <= i < |rs| ==> ReissueProjected(h, runId, m', rs[i])
  {
    forall i | 0 <= i < |rs|
      ensures ReissueProjected(h, runId, m', rs[i])
    {
      EvolvedRecord(h, runId, m, m', rs[i]);
    }
  }

  lemma {:induction false} DecisionIndexAndResults(h: Hasher, a: Admission, at: Time)
    requires DistinctRequests(a.state.files.ledger.requests) && Checked(h, a, at)
    ensures Index(DecidedRequests(a)) ==
              DecidedIndex(Index(a.state.files.ledger.requests), DecisionMap(a.batch.items), a.state.files.ledger.ledgerRevision + 1)
    ensures DecisionResults(a.state.files.decisions + [DecisionRecordFor(h, a)])
         == DecisionResults(a.state.files.decisions) + BatchResults(a.batch.items)
  {
    DecidedIndexOf(h, a);
    FlatMapSnoc(DecisionResultsOf, a.state.files.decisions, DecisionRecordFor(h, a));
    ResultsOfAdmission(h, a, at);
  }

  lemma {:induction false} LedgerFacts(h: Hasher, l: Ledger)
    requires LedgerValid(h, l)
    ensures DistinctRequests(l.requests)
    ensures forall r :: r in l.requests ==> r.ledgerRevision <= l.ledgerRevision
  {
  }

  lemma {:induction false} DecisionProjection(h: Hasher, a: Admission, at: Time)
    requires LedgerValid(h, a.state.files.ledger)
    requires ProjectionOk(h, a.state.files.ledger, a.state.files.decisions, a.state.files.reissues)
    requires Checked(h, a, at)
    ensures ProjectionOk(h, DecisionFiles(h, a).ledger, DecisionFiles(h, a).decisions, a.state.files.reissues)
  {
    hide LedgerValid, Checked, Evolves, AllDecisionsProjected, ReissueProjected, DistinctResults, DistinctSuccessors,
         DistinctSources, DecidedIndex, DecisionMap, Explained, BatchResults, DecidedIds, SupersededIds;
    var f, items := a.state.files, a.batch.items;
    CheckedItems(h, a, at);
    LedgerFacts(h, f.ledger);
    DecisionIndexAndResults(h, a, at);
    ResultsProjectedAfter(f.ledger, DecisionResults(f.decisions), items, at);
    DecidedDistinctAfter(f.ledger, DecisionResults(f.decisions), items, at);
    DecidedEvolves(f.ledger, items, at);
    RecordsEvolve(h, f.ledger.runId, Index(f.ledger.requests), Index(DecidedRequests(a)), f.reissues);
    forall r | r in DecidedRequests(a)
      ensures Explained(r, DecidedIds(DecisionResults(f.decisions) + BatchResults(items)), SupersededIds(ReissueResults(f.reissues)))
    {
      ExplainedMembers(h, a, at, r);
    }
  }

  // ------------------------------------------------------------------ the whole reader

  lemma {:induction false} DecisionModels(h: Hasher, a: Admission)
    requires ModelsValid(h, a.state.files) && DecisionBuilds(h, a)
    ensures ModelsValid(h, DecisionFiles(h, a))
  {
    hide LedgerValid, DecisionRecordValid, AuditEventValid, ReissueRecordValid, OutcomeValid, DecisionRecordFor, AuditEventFor;
  }

  lemma {:induction false} AcceptedChains(h: Hasher, f: Files)
    requires Accepts(h, f)
    ensures DecisionChainOk(f.ledger, f.decisions) && AuditChainOk(f.ledger, f.decisions, f.events)
    ensures ReissueChainOk(h, f.ledger, f.reissues)
    ensures f.ledger.decisionHead == DecisionHead(f.decisions) && f.ledger.auditHead == AuditHead(f.events)
    ensures |f.decisions| == |f.events|
    ensures f.decisions != [] ==> f.decisions[|f.decisions| - 1].outcome.currentLedgerRevision <= f.ledger.ledgerRevision
  {
    hide TimelineOk, ProjectionOk, ModelsValid;
    if f.decisions != [] {
      assert DecisionLinked(f.ledger, f.decisions, |f.decisions| - 1);
    }
  }

  lemma {:induction false} NewDecisionFollows(h: Hasher, a: Admission)
    requires Accepts(h, a.state.files) && a.state.files.decisions != []
    requires Timely(a.state.files, a.batch.expectedRunRevision, a.batch.decisionAt)
    ensures DecisionFollows(a.state.files.decisions[|a.state.files.decisions| - 1], DecisionRecordFor(h, a))
  {
    hide Accepts, ModelsValid, ProjectionOk, DecisionChainOk, AuditChainOk, ReissueChainOk;
    var f := a.state.files;
    AcceptedChains(h, f);
    TimelineSteps(h, f);
    LastDecisionPrecedes(f.decisions, f.reissues);
  }

  lemma {:induction false} DecisionChains(h: Hasher, a: Admission, at: Time)
    requires Accepts(h, a.state.files) && Checked(h, a, at)
    requires Timely(a.state.files, a.batch.expectedRunRevision, a.batch.decisionAt)
    ensures var f' := DecisionFiles(h, a);
            && DecisionChainOk(f'.ledger, f'.decisions)
            && AuditChainOk(f'.ledger, f'.decisions, f'.events)
            && ReissueChainOk(h, f'.ledger, f'.reissues)
  {
    hide Accepts, Timely, DecisionChainOk, AuditChainOk, ReissueChainOk, DecisionFollows, DecidedRequests, BatchValid,
         SnapshotValid, DuplicateItems, ItemAdmitted, DecisionHead, AuditHead;
    var f, f', r := a.state.files, DecisionFiles(h, a), DecisionRecordFor(h, a);
    AcceptedChains(h, f);
    if f.decisions != [] { NewDecisionFollows(h, a); }
    DecisionChainExtends(f.ledger, f.decisions, f'.ledger, r);
    AuditChainExtends(f.ledger, f.decisions, f.events, f'.ledger, r, AuditEventFor(h, a));
    ReissueChainKeeps(h, f.ledger, f'.ledger, f.reissues);
  }

  /** The closure of the reader under decisions. From any state it accepts, an admitted batch
      always builds, and the reader accepts the result if and only if the commit is timely. */
  lemma {:induction false} DecisionCommitAccepted(h: Hasher, s: State, b: DecisionBatch, resolved: Option<Snapshot>,
                                        observedRun: int, at: Time)
    requires Accepts(h, s.files) && BatchValid(b)
    requires resolved.Some? ==> SnapshotValid(h, resolved.value)
    requires DecisionVerdictFor(h, s, b, resolved, observedRun, at).NewDecision?
    ensures var a := DecisionVerdictFor(h, s, b, resolved, observedRun, at).admission;
            && DecisionBuilds(h, a)
            && (Accepts(h, DecisionFiles(h, a)) <==> Timely(s.files, observedRun, b.decisionAt))
  {
    var a := DecisionVerdictFor(h, s, b, resolved, observedRun, at).admission;
    AdmissionIsChecked(h, s, b, resolved, observedRun, at);
    NewAdmission(h, s, b, resolved, observedRun, at);
    DecisionBuildIsTotal(h, s, b, resolved, observedRun, at);
    CommitAccepted(h, a, at);
  }

  lemma {:induction false} CommitAccepted(h: Hasher, a: Admission, at: Time)
    requires Accepts(h, a.state.files) && Checked(h, a, at) && DecisionBuilds(h, a)
    ensures Accepts(h, DecisionFiles(h, a)) <==> Timely(a.state.files, a.batch.expectedRunRevision, a.batch.decisionAt)
  {
    DecisionTimeline(h, a);
    if Timely(a.state.files, a.batch.expectedRunRevision, a.batch.decisionAt) {
      DecisionModels(h, a);
      DecisionChains(h, a, at);
      DecisionProjection(h, a, at);
    }
  }
}
