/** Facts shared by the two kinds of commit: how chains grow by one link, how the sorted timeline
    grows by one mutation, and what survives when pending requests evolve. */
module ApprovalEvolution {
  import opened Basics
  import opened ApprovalModels
  import opened ApprovalReader
  import opened ApprovalProjection

  // ------------------------------------------------------------------ chains

  lemma {:induction false} DecisionChainExtends(l: Ledger, ds: seq<DecisionRecord>, l': Ledger, r: DecisionRecord)
    requires DecisionChainOk(l, ds)
    requires l'.runId == l.runId && l'.ledgerRevision >= l.ledgerRevision
    requires l'.decisionCount == |ds| + 1 && l'.decisionHead == Some(r.recordSha)
    requires r.sequence == |ds| + 1 && r.previousSha == DecisionHead(ds) && r.runId == l.runId
    requires r.outcome.kind == Committed && r.outcome.currentLedgerRevision <= l'.ledgerRevision
    requires forall i :: 0 <= i < |ds| ==> ds[i].decisionId != r.decisionId && ds[i].idempotencyKey != r.idempotencyKey
    requires ds != [] ==> DecisionFollows(ds[|ds| - 1], r)
    ensures DecisionChainOk(l', ds + [r])
  {
    var t := ds + [r];
    forall i | 0 <= i < |t|
      ensures DecisionLinked(l', t, i)
    {
      if i < |ds| {
        assert t[..i] == ds[..i];
        assert DecisionLinked(l, ds, i);
      } else {
        assert t[..i] == ds;
      }
    }
  }

  lemma {:induction false} AuditChainExtends(l: Ledger, ds: seq<DecisionRecord>, es: seq<AuditEvent>, l': Ledger,
                                        r: DecisionRecord, e: AuditEvent)
    requires AuditChainOk(l, ds, es)
    requires l'.runId == l.runId
    requires l'.auditCount == |es| + 1 && l'.auditHead == Some(e.eventSha)
    requires e.sequence == |es| + 1 && e.previousSha == AuditHead(es) && EventMatches(l', r, e)
    ensures AuditChainOk(l', ds + [r], es + [e])
  {
    var t, u := ds + [r], es + [e];
    forall i | 0 <= i < |u|
      ensures EventLinked(l', t, u, i)
    {
      if i < |es| {
        assert u[..i] == es[..i];
        assert EventLinked(l, ds, es, i);
      } else {
        assert u[..i] == es;
      }
    }
  }

  /** The terminal hash check of older records no longer applies once the ledger moves on. */
  lemma {:induction false} ReissueChainKeeps(h: Hasher, l: Ledger, l': Ledger, rs: seq<ReissueRecord>)
    requires ReissueChainOk(h, l, rs)
    requires l'.runId == l.runId && l'.ledgerRevision > l.ledgerRevision
    ensures ReissueChainOk(h, l', rs)
  {
    forall i | 0 <= i < |rs|
      ensures ReissueLinked(h, l', rs, i)
    {
      assert ReissueLinked(h, l, rs, i);
    }
  }

  lemma {:induction false} ReissueChainExtends(h: Hasher, l: Ledger, rs: seq<ReissueRecord>, l': Ledger,
                                        r: ReissueRecord)
    requires ReissueChainOk(h, l, rs)
    requires l'.runId == l.runId && l'.ledgerRevision > l.ledgerRevision
    requires r.sequence == |rs| + 1 && r.previousSha == ReissueHead(rs) && r.runId == l.runId
    requires r.outcome.currentLedgerRevision == l'.ledgerRevision && r.currentLedgerSha == h(LedgerP(l'))
    requires r.legacyProjection != [] ==> rs == [] && AllHistorical(r.batch)
    requires r.legacyProjection == [] ==> !SomeHistorical(r.batch)
    requires forall i :: 0 <= i < |rs| ==> rs[i].reissueId != r.reissueId && rs[i].idempotencyKey != r.idempotencyKey
    requires rs != [] ==> rs[|rs| - 1].committedAt <= r.committedAt
    ensures ReissueChainOk(h, l', rs + [r])
  {
    var t := rs + [r];
    ReissueChainKeeps(h, l, l', rs);
    forall i | 0 <= i < |t|
      ensures ReissueLinked(h, l', t, i)
    {
      if i < |rs| {
        assert t[..i] == rs[..i];
        assert ReissueLinked(h, l', rs, i);
      } else {
        assert t[..i] == rs;
      }
    }
  }

  // ------------------------------------------------------------------ the timeline

  predicate StepsByOne(s: seq<Mutation>) {
    forall i :: 0 <= i < |s| ==> s[i].currentRun == s[i].previousRun + 1
  }

  lemma {:induction false} MutationOrder()
    ensures TotalPreorder(MutationLe)
    ensures forall x, y :: MutationLe(x, y) && MutationLe(y, x) ==> x == y
  {
  }

  lemma {:induction false} ContiguousRuns(s: seq<Mutation>, i: nat)
    requires Contiguous(s) && StepsByOne(s) && i < |s|
    ensures s[i].previousRun == s[0].previousRun + i
  {
    if i > 0 {
      ContiguousRuns(s, i - 1);
      assert Follows(s[i - 1], s[i]);
    }
  }

  lemma {:induction false} ContiguousClock(s: seq<Mutation>, i: nat, j: nat)
    requires Contiguous(s) && StepsByOne(s) && i <= j < |s|
    ensures s[i].committedAt <= s[j].committedAt
    ensures s[i].currentRun <= s[j].currentRun
  {
    if i < j {
      ContiguousClock(s, i, j - 1);
      assert Follows(s[j - 1], s[j]);
    }
  }

  lemma {:induction false} ContiguousIsSorted(s: seq<Mutation>)
    requires Contiguous(s) && StepsByOne(s)
    ensures IsSorted(s, MutationLe)
  {
    forall i, j | 0 <= i < j < |s|
      ensures MutationLe(s[i], s[j])
    {
      ContiguousRuns(s, i);
      ContiguousRuns(s, j);
    }
  }

  /** Sorting puts a timely new mutation last. */
  lemma {:induction false} TimelyIsLast(s: seq<Mutation>, m: Mutation, all: seq<Mutation>)
    requires Contiguous(s) && StepsByOne(s + [m])
    requires s != [] ==> Follows(s[|s| - 1], m)
    requires multiset(all) == multiset(s) + multiset{m}
    ensures Contiguous(s + [m])
    ensures SortBy(all, MutationLe) == s + [m]
  {
    var t := s + [m];
    forall i | 0 < i < |t|
      ensures Follows(t[i - 1], t[i])
    {
      if i < |s| { assert Follows(s[i - 1], s[i]); }
    }
    ContiguousIsSorted(t);
    MutationOrder();
    SortBySorted(all, MutationLe);
    SortedUnique(t, SortBy(all, MutationLe), MutationLe);
  }

  /** In a contiguous timeline an element's run revision fixes its position. */
  lemma {:induction false} PositionByRun(t: seq<Mutation>, x: Mutation) returns (p: nat)
    requires Contiguous(t) && StepsByOne(t) && x in t
    ensures p < |t| && t[p] == x && x.previousRun == t[0].previousRun + p
  {
    p :| 0 <= p < |t| && t[p] == x;
    ContiguousRuns(t, p);
  }

  /** Conversely, if the enlarged timeline is contiguous from the same root, then the new mutation
      follows the old last one. */
  lemma {:induction false} ContiguousIsTimely(s: seq<Mutation>, m: Mutation, t: seq<Mutation>)
    requires s != [] && Contiguous(s) && StepsByOne(s)
    requires Contiguous(t) && StepsByOne(t)
    requires multiset(t) == multiset(s) + multiset{m}
    requires t[0].previousLedger != m.previousLedger
    ensures Follows(s[|s| - 1], m)
  {
    var n := |s|;
    assert |t| == n + 1 by { assert |multiset(t)| == |t| && |multiset(s)| == |s|; }
    assert t[0] in multiset(t) && t[0] in multiset(s) + multiset{m};
    assert t[n] in multiset(t);
    assert s[0] in multiset(t) && s[n - 1] in multiset(t) && m in multiset(t);
    var first := PositionByRun(t, s[0]);
    var last := PositionByRun(t, s[n - 1]);
    ContiguousRuns(s, n - 1);
    assert last == first + (n - 1);
    assert t[0] in s;
    var a :| 0 <= a < n && s[a] == t[0];
    ContiguousRuns(s, a);
    assert first == 0;
    ContiguousRuns(t, n);
    if t[n] in s {
      var c :| 0 <= c < n && s[c] == t[n];
      ContiguousRuns(s, c);
    }
    assert t[n] == m;
    assert Follows(t[n - 1], t[n]);
  }

  /** A commit whose mutation starts at the current ledger head keeps the timeline acceptable
      exactly when it follows the last commit in run revision and clock. */
  lemma {:induction false} TimelineStep(l: Ledger, ds: seq<DecisionRecord>, rs: seq<ReissueRecord>,
                     l': Ledger, ds': seq<DecisionRecord>, rs': seq<ReissueRecord>, m: Mutation)
    requires TimelineOk(l, ds, rs)
    requires RootCount(l', rs') == RootCount(l, rs)
    requires l'.ledgerRevision == |l'.requests| + |ds'|
    requires m.previousLedger == l.ledgerRevision && m.currentLedger == l'.ledgerRevision
    requires m.currentRun == m.previousRun + 1 && StepsByOne(Timeline(ds, rs))
    requires multiset(Mutations(ds', rs')) == multiset(Mutations(ds, rs)) + multiset{m}
    requires Timeline(ds, rs) == [] ==> RootCount(l, rs) == l.ledgerRevision
    requires Timeline(ds, rs) != [] ==> RootCount(l, rs) < l.ledgerRevision
    ensures TimelineOk(l', ds', rs') <==>
              (Timeline(ds, rs) == [] || Follows(Timeline(ds, rs)[|Timeline(ds, rs)| - 1], m))
    ensures TimelineOk(l', ds', rs') ==> Timeline(ds', rs') == Timeline(ds, rs) + [m]
  {
    hide SortBy, Mutations, MutationLe;
    var s, t := Timeline(ds, rs), Timeline(ds', rs');
    assert multiset(t) == multiset(s) + multiset{m};
    if s == [] || Follows(s[|s| - 1], m) {
      TimelyIsLast(s, m, Mutations(ds', rs'));
      assert t == s + [m];
    } else if TimelineOk(l', ds', rs') {
      assert t != [] by { assert m in multiset(t); }
      StepsAfter(s, m, t);
      ContiguousIsTimely(s, m, t);
    }
  }

  lemma {:induction false} StepsAfter(s: seq<Mutation>, m: Mutation, t: seq<Mutation>)
    requires StepsByOne(s) && m.currentRun == m.previousRun + 1
    requires multiset(t) == multiset(s) + multiset{m}
    ensures StepsByOne(t)
  {
    forall i | 0 <= i < |t|
      ensures t[i].currentRun == t[i].previousRun + 1
    {
      assert t[i] in multiset(t);
      assert t[i] in s || t[i] == m;
    }
  }

  lemma {:induction false} MutationsAfterDecision(ds: seq<DecisionRecord>, rs: seq<ReissueRecord>, d: DecisionRecord)
    ensures multiset(Mutations(ds + [d], rs)) == multiset(Mutations(ds, rs)) + multiset{DecisionMutation(d)}
  {
    var a := seq(|ds|, i requires 0 <= i < |ds| => DecisionMutation(ds[i]));
    var b := seq(|rs|, i requires 0 <= i < |rs| => ReissueMutation(rs[i]));
    var t := ds + [d];
    assert seq(|t|, i requires 0 <= i < |t| => DecisionMutation(t[i])) == a + [DecisionMutation(d)];
    assert Mutations(t, rs) == a + [DecisionMutation(d)] + b;
  }

  lemma {:induction false} MutationsAfterReissue(ds: seq<DecisionRecord>, rs: seq<ReissueRecord>, r: ReissueRecord)
    ensures multiset(Mutations(ds, rs + [r])) == multiset(Mutations(ds, rs)) + multiset{ReissueMutation(r)}
  {
    var b := seq(|rs|, i requires 0 <= i < |rs| => ReissueMutation(rs[i]));
    var t := rs + [r];
    assert seq(|t|, i requires 0 <= i < |t| => ReissueMutation(t[i])) == b + [ReissueMutation(r)];
    assert Mutations(ds, t) == Mutations(ds, rs) + [ReissueMutation(r)];
  }

  // ------------------------------------------------------------------ the projection

  /** Nothing is forgotten: settled requests stay as they are, and a pending request may only
      change its two revisions, its state and its successor. */
  ghost predicate Evolves(m: map<string, Request>, m': map<string, Request>) {
    forall id :: id in m ==>
      && id in m'
      && (m[id].state != Pending ==> m'[id] == m[id])
      && m'[id].requestRevision >= m[id].requestRevision
      && m'[id].ledgerRevision >= m[id].ledgerRevision
      && AsPending(m'[id], 1, 1) == AsPending(m[id], 1, 1)
  }

  lemma {:induction false} EvolvedDecision(m: map<string, Request>, m': map<string, Request>, res: DecisionResult)
    requires Evolves(m, m') && DecisionProjected(m, res)
    ensures DecisionProjected(m', res)
  {
  }

  lemma {:induction false} EvolvedSuccessor(h: Hasher, m: map<string, Request>, m': map<string, Request>,
                                        res: ReissueResult)
    requires Evolves(m, m') && SuccessorProjected(h, m, res)
    ensures SuccessorProjected(h, m', res)
  {
    var s, s' := m[res.successorId], m'[res.successorId];
    assert AsPending(s', 1, 1) == AsPending(s, 1, 1);
    assert AsPending(s', res.successorRevision, res.successorLedgerRevision)
        == AsPending(AsPending(s', 1, 1), res.successorRevision, res.successorLedgerRevision);
    assert AsPending(s, res.successorRevision, res.successorLedgerRevision)
        == AsPending(AsPending(s, 1, 1), res.successorRevision, res.successorLedgerRevision);
    assert s.createdRunRevision == AsPending(s, 1, 1).createdRunRevision;
    assert s.actionDigest == AsPending(s, 1, 1).actionDigest;
  }

  lemma {:induction false} EvolvedSource(h: Hasher, runId: string, m: map<string, Request>, m': map<string, Request>,
                      legacy: seq<V1Snapshot>, res: ReissueResult)
    requires Evolves(m, m') && SourceProjected(h, runId, m, legacy, res)
    ensures SourceProjected(h, runId, m', legacy, res)
  {
  }

  lemma {:induction false} EvolvedRecord(h: Hasher, runId: string, m: map<string, Request>, m': map<string, Request>,
                                        r: ReissueRecord)
    requires Evolves(m, m') && ReissueProjected(h, runId, m, r)
    ensures ReissueProjected(h, runId, m', r)
  {
    forall i | 0 <= i < |r.outcome.results|
      ensures PairProjected(h, runId, m', r.legacyProjection, r.batch.items[i], r.outcome.results[i])
    {
      assert PairProjected(h, runId, m, r.legacyProjection, r.batch.items[i], r.outcome.results[i]);
      EvolvedSuccessor(h, m, m', r.outcome.results[i]);
      EvolvedSource(h, runId, m, m', r.legacyProjection, r.outcome.results[i]);
    }
  }
}
