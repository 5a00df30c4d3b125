/** The independent reader: five validators over the ledger and its three logs.

    Each validator is a loop, proved equal to a predicate stated over whole sequences. */
module ApprovalReader {
  import opened Basics
  import opened ApprovalModels

  // ------------------------------------------------------------------ the hash chains

  function DecisionHead(rs: seq<DecisionRecord>): Option<Sha> {
    if rs == [] then None else Some(rs[|rs| - 1].recordSha)
  }

  function AuditHead(es: seq<AuditEvent>): Option<Sha> {
    if es == [] then None else Some(es[|es| - 1].eventSha)
  }

  function ReissueHead(rs: seq<ReissueRecord>): Option<Sha> {
    if rs == [] then None else Some(rs[|rs| - 1].recordSha)
  }

  predicate DecisionLinked(l: Ledger, rs: seq<DecisionRecord>, i: nat)
    requires i < |rs|
  {
    && rs[i].sequence == i + 1
    && rs[i].previousSha == DecisionHead(rs[..i])
    && rs[i].runId == l.runId
    && rs[i].outcome.kind == Committed
    && rs[i].outcome.currentLedgerRevision <= l.ledgerRevision
  }

  predicate DecisionFollows(a: DecisionRecord, b: DecisionRecord) {
    && a.committedAt <= b.committedAt
    && a.outcome.currentLedgerRevision <= b.outcome.previousLedgerRevision
    && a.outcome.currentRunRevision <= b.outcome.previousRunRevision
  }

  predicate DistinctDecisions(rs: seq<DecisionRecord>) {
    forall i, j :: 0 <= i < j < |rs| ==>
      rs[i].decisionId != rs[j].decisionId && rs[i].idempotencyKey != rs[j].idempotencyKey
  }

  predicate DecisionChainOk(l: Ledger, rs: seq<DecisionRecord>) {
    && l.decisionCount == |rs|
    && (forall i :: 0 <= i < |rs| ==> DecisionLinked(l, rs, i))
    && DistinctDecisions(rs)
    && (forall i :: 0 < i < |rs| ==> DecisionFollows(rs[i - 1], rs[i]))
    && l.decisionHead == DecisionHead(rs)
  }

  method ValidateDecisionChain(l: Ledger, rs: seq<DecisionRecord>) returns (ok: bool)
    ensures ok <==> DecisionChainOk(l, rs)
  {
    if l.decisionCount != |rs| { return false; }
    var expectedPrevious: Option<Sha> := None;
    var decisionIds: set<string> := {};
    var keys: set<string> := {};
    var prior: Option<DecisionRecord> := None;
    for k := 0 to |rs|
      invariant expectedPrevious == DecisionHead(rs[..k])
      invariant decisionIds == set i | 0 <= i < k :: rs[i].decisionId
      invariant keys == set i | 0 <= i < k :: rs[i].idempotencyKey
      invariant prior == if k == 0 then None else Some(rs[k - 1])
      invariant forall i :: 0 <= i < k ==> DecisionLinked(l, rs, i)
      invariant forall i, j :: 0 <= i < j < k ==>
        rs[i].decisionId != rs[j].decisionId && rs[i].idempotencyKey != rs[j].idempotencyKey
      invariant forall i :: 0 < i < k ==> DecisionFollows(rs[i - 1], rs[i])
    {
      var record := rs[k];
      if record.sequence != k + 1 || record.previousSha != expectedPrevious
         || record.runId != l.runId || record.outcome.kind != Committed {
        assert !DecisionLinked(l, rs, k);
        return false;
      }
      if record.decisionId in decisionIds || record.idempotencyKey in keys { return false; }
      if prior.Some? && record.committedAt < prior.value.committedAt {
        assert !DecisionFollows(rs[k - 1], rs[k]);
        return false;
      }
      if prior.Some? && record.outcome.previousLedgerRevision < prior.value.outcome.currentLedgerRevision {
        assert !DecisionFollows(rs[k - 1], rs[k]);
        return false;
      }
      if prior.Some? && record.outcome.previousRunRevision < prior.value.outcome.currentRunRevision {
        assert !DecisionFollows(rs[k - 1], rs[k]);
        return false;
      }
      if record.outcome.currentLedgerRevision > l.ledgerRevision {
        assert !DecisionLinked(l, rs, k);
        return false;
      }
      decisionIds := decisionIds + {record.decisionId};
      keys := keys + {record.idempotencyKey};
      expectedPrevious := Some(record.recordSha);
      prior := Some(record);
      assert rs[..k + 1][k] == rs[k];
    }
    assert rs[..|rs|] == rs;
    return l.decisionHead == expectedPrevious;
  }

  predicate EventMatches(l: Ledger, r: DecisionRecord, e: AuditEvent) {
    && e.runId == l.runId
    && e.decisionId == r.decisionId
    && e.actorSha == r.actorSha
    && e.snapshotSha == r.snapshotSha
    && e.batchSha == r.batchSha
    && e.decisionRecordSha == r.recordSha
    && e.outcomeSha == r.outcomeSha
    && e.runRevision == r.outcome.currentRunRevision
    && e.ledgerRevision == r.outcome.currentLedgerRevision
    && e.occurredAt == r.committedAt
  }

  predicate EventLinked(l: Ledger, rs: seq<DecisionRecord>, es: seq<AuditEvent>, i: nat)
    requires i < |rs| == |es|
  {
    && es[i].sequence == i + 1
    && es[i].previousSha == AuditHead(es[..i])
    && EventMatches(l, rs[i], es[i])
  }

  predicate AuditChainOk(l: Ledger, rs: seq<DecisionRecord>, es: seq<AuditEvent>) {
    && l.auditCount == |es| == |rs|
    && (forall i :: 0 <= i < |es| ==> EventLinked(l, rs, es, i))
    && l.auditHead == AuditHead(es)
  }

  method ValidateAuditChain(l: Ledger, rs: seq<DecisionRecord>, es: seq<AuditEvent>) returns (ok: bool)
    ensures ok <==> AuditChainOk(l, rs, es)
  {
    if l.auditCount != |es| || |rs| != |es| { return false; }
    var expectedPrevious: Option<Sha> := None;
    for k := 0 to |es|
      invariant expectedPrevious == AuditHead(es[..k])
      invariant forall i :: 0 <= i < k ==> EventLinked(l, rs, es, i)
    {
      if es[k].sequence != k + 1 || es[k].previousSha != expectedPrevious || !EventMatches(l, rs[k], es[k]) {
        assert !EventLinked(l, rs, es, k);
        return false;
      }
      expectedPrevious := Some(es[k].eventSha);
      assert es[..k + 1][k] == es[k];
    }
    assert es[..|es|] == es;
    return l.auditHead == expectedPrevious;
  }

  predicate AllHistorical(b: ReissueBatch) {
    forall i :: 0 <= i < |b.items| ==> b.items[i].kind == HistoricalV1
  }

  predicate SomeHistorical(b: ReissueBatch) {
    exists i :: 0 <= i < |b.items| && b.items[i].kind == HistoricalV1
  }

  predicate ReissueLinked(h: Hasher, l: Ledger, rs: seq<ReissueRecord>, i: nat)
    requires i < |rs|
  {
    && rs[i].sequence == i + 1
    && rs[i].previousSha == ReissueHead(rs[..i])
    && rs[i].runId == l.runId
    && rs[i].outcome.currentLedgerRevision <= l.ledgerRevision
    && (rs[i].legacyProjection != [] ==> i == 0 && AllHistorical(rs[i].batch))
    && (rs[i].legacyProjection == [] ==> !SomeHistorical(rs[i].batch))
    && (rs[i].outcome.currentLedgerRevision == l.ledgerRevision ==> rs[i].currentLedgerSha == h(LedgerP(l)))
  }

  predicate DistinctReissues(rs: seq<ReissueRecord>) {
    forall i, j :: 0 <= i < j < |rs| ==>
      rs[i].reissueId != rs[j].reissueId && rs[i].idempotencyKey != rs[j].idempotencyKey
  }

  predicate ReissueChainOk(h: Hasher, l: Ledger, rs: seq<ReissueRecord>) {
    && (forall i :: 0 <= i < |rs| ==> ReissueLinked(h, l, rs, i))
    && DistinctReissues(rs)
    && (forall i :: 0 < i < |rs| ==> rs[i - 1].committedAt <= rs[i].committedAt)
  }

  method ValidateReissueChain(h: Hasher, l: Ledger, rs: seq<ReissueRecord>) returns (ok: bool)
    ensures ok <==> ReissueChainOk(h, l, rs)
  {
    var expectedPrevious: Option<Sha> := None;
    var reissueIds: set<string> := {};
    var keys: set<string> := {};
    var priorTime: Option<Time> := None;
    for k := 0 to |rs|
      invariant expectedPrevious == ReissueHead(rs[..k])
      invariant reissueIds == set i | 0 <= i < k :: rs[i].reissueId
      invariant keys == set i | 0 <= i < k :: rs[i].idempotencyKey
      invariant priorTime == if k == 0 then None else Some(rs[k - 1].committedAt)
      invariant forall i :: 0 <= i < k ==> ReissueLinked(h, l, rs, i)
      invariant DistinctReissues(rs[..k])
      invariant forall i :: 0 < i < k ==> rs[i - 1].committedAt <= rs[i].committedAt
    {
      var record := rs[k];
      if record.sequence != k + 1 || record.previousSha != expectedPrevious
         || record.runId != l.runId || record.outcome.currentLedgerRevision > l.ledgerRevision {
        assert !ReissueLinked(h, l, rs, k);
        return false;
      }
      if record.reissueId in reissueIds || record.idempotencyKey in keys { return false; }
      if priorTime.Some? && record.committedAt < priorTime.value { return false; }
      if record.legacyProjection != [] && k + 1 != 1 {
        assert !ReissueLinked(h, l, rs, k);
        return false;
      }
      if (record.legacyProjection != [] && !AllHistorical(record.batch))
         || (record.legacyProjection == [] && SomeHistorical(record.batch)) {
        assert !ReissueLinked(h, l, rs, k);
        return false;
      }
      if record.outcome.currentLedgerRevision == l.ledgerRevision && record.currentLedgerSha != h(LedgerP(l)) {
        assert !ReissueLinked(h, l, rs, k);
        return false;
      }
      reissueIds := reissueIds + {record.reissueId};
      keys := keys + {record.idempotencyKey};
      expectedPrevious := Some(record.recordSha);
      priorTime := Some(record.committedAt);
      assert rs[..k + 1][k] == rs[k];
    }
    assert rs[..|rs|] == rs;
    return true;
  }

  // ------------------------------------------------------------------ the mutation timeline

  datatype Mutation = Mutation(
    previousRun: int,
    currentRun: int,
    previousLedger: int,
    currentLedger: int,
    committedAt: Time)

  /** Tuple order. */
  predicate MutationLe(a: Mutation, b: Mutation) {
    a.previousRun < b.previousRun || (a.previousRun == b.previousRun && (
    a.currentRun < b.currentRun || (a.currentRun == b.currentRun && (
    a.previousLedger < b.previousLedger || (a.previousLedger == b.previousLedger && (
    a.currentLedger < b.currentLedger || (a.currentLedger == b.currentLedger &&
    a.committedAt <= b.committedAt)))))))
  }

  function DecisionMutation(r: DecisionRecord): Mutation {
    Mutation(r.outcome.previousRunRevision, r.outcome.currentRunRevision,
             r.outcome.previousLedgerRevision, r.outcome.currentLedgerRevision, r.committedAt)
  }

  function ReissueMutation(r: ReissueRecord): Mutation {
    Mutation(r.outcome.previousRunRevision, r.outcome.currentRunRevision,
             r.outcome.previousLedgerRevision, r.outcome.currentLedgerRevision, r.committedAt)
  }

  function Mutations(ds: seq<DecisionRecord>, rs: seq<ReissueRecord>): seq<Mutation> {
    seq(|ds|, i requires 0 <= i < |ds| => DecisionMutation(ds[i]))
    + seq(|rs|, i requires 0 <= i < |rs| => ReissueMutation(rs[i]))
  }

  function Timeline(ds: seq<DecisionRecord>, rs: seq<ReissueRecord>): seq<Mutation> {
    SortBy(Mutations(ds, rs), MutationLe)
  }

  function ReissueResultsOf(r: ReissueRecord): seq<ReissueResult> { r.outcome.results }

  function ReissueResults(rs: seq<ReissueRecord>): seq<ReissueResult> {
    FlatMap(ReissueResultsOf, rs)
  }

  function RootCount(l: Ledger, rs: seq<ReissueRecord>): int {
    |l.requests| - |ReissueResults(rs)|
  }

  predicate Follows(a: Mutation, b: Mutation) {
    && b.previousRun == a.currentRun
    && b.previousLedger == a.currentLedger
    && a.committedAt <= b.committedAt
  }

  predicate Contiguous(s: seq<Mutation>) {
    forall i :: 0 < i < |s| ==> Follows(s[i - 1], s[i])
  }

  predicate TimelineOk(l: Ledger, ds: seq<DecisionRecord>, rs: seq<ReissueRecord>) {
    && RootCount(l, rs) >= 0
    && l.ledgerRevision == |l.requests| + |ds|
    && var s := Timeline(ds, rs);
       s != [] ==>
         && s[0].previousLedger == RootCount(l, rs)
         && Contiguous(s)
         && s[|s| - 1].currentLedger == l.ledgerRevision
  }

  datatype TimelineFault =
    | SuccessorsExceedRequests | MutationCountMismatch | InitialRevisionMismatch
    | RootMismatch | Gap | ClockRollback | HeadMismatch

  predicate RootFault(l: Ledger, ds: seq<DecisionRecord>, rs: seq<ReissueRecord>) {
    && RootCount(l, rs) >= 0
    && l.ledgerRevision == |l.requests| + |ds|
    && var s := Timeline(ds, rs);
       s != [] && s[0].previousLedger != RootCount(l, rs)
  }

  method ValidateMutationTimeline(l: Ledger, ds: seq<DecisionRecord>, rs: seq<ReissueRecord>)
    returns (fault: Option<TimelineFault>)
    ensures fault == None <==> TimelineOk(l, ds, rs)
    ensures fault == Some(RootMismatch) <==> RootFault(l, ds, rs)
  {
    var successorCount := 0;
    for k := 0 to |rs|
      invariant successorCount == |ReissueResults(rs[..k])|
    {
      FlatMapSnoc(ReissueResultsOf, rs[..k], rs[k]);
      assert rs[..k + 1] == rs[..k] + [rs[k]];
      successorCount := successorCount + |rs[k].outcome.results|;
    }
    assert rs[..|rs|] == rs;
    var rootCount := |l.requests| - successorCount;
    if rootCount < 0 { return Some(SuccessorsExceedRequests); }
    if l.ledgerRevision != rootCount + successorCount + |ds| { return Some(MutationCountMismatch); }
    var mutations := Mutations(ds, rs);
    if mutations == [] {
      if l.ledgerRevision != |l.requests| { return Some(InitialRevisionMismatch); }
      return None;
    }
    mutations := SortBy(mutations, MutationLe);
    if mutations[0].previousLedger != rootCount { return Some(RootMismatch); }
    var prior := mutations[0];
    for k := 1 to |mutations|
      invariant prior == mutations[k - 1]
      invariant forall i :: 0 < i < k ==> Follows(mutations[i - 1], mutations[i])
    {
      var current := mutations[k];
      if current.previousRun != prior.currentRun || current.previousLedger != prior.currentLedger {
        assert !Follows(mutations[k - 1], mutations[k]);
        return Some(Gap);
      }
      if current.committedAt < prior.committedAt {
        assert !Follows(mutations[k - 1], mutations[k]);
        return Some(ClockRollback);
      }
      prior := current;
    }
    if prior.currentLedger != l.ledgerRevision { return Some(HeadMismatch); }
    return None;
  }
}
