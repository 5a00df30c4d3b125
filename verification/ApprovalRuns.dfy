/** Whole runs of the approval system: open, add roots, then commit decisions and reissues in any
    order. Two hypotheses about the caller are built into a step: between two approval commits
    nothing else moves the run revision, and a decision is not stamped before the last commit. */
module ApprovalRuns {
  import opened Basics
  import opened ApprovalModels
  import opened ApprovalReader
  import opened ApprovalProjection
  import opened ApprovalWriter
  import opened ApprovalReissue
  import opened ApprovalIndex
  import opened ApprovalDecisionClosure
  import opened ApprovalDecisionCommit
  import opened ApprovalReissueStep
  import opened ApprovalReissueFold
  import opened ApprovalReissueCommit
  import opened ApprovalReissueAdmission
  import opened ApprovalReissueTheorems
  import opened ApprovalRoots
  import opened ApprovalLineage

  datatype Event =
    | Open(runId: string)
    | OpenLegacy(legacy: seq<V1Request>, first: ReissueBatch, manifestSha: Sha, pointerSha: Sha)
    | AddRoot(proposal: Successor, createdRun: int, createdAt: Time)
    | OtherRunCommit
    | Decide(decision: DecisionBatch, resolved: Option<Snapshot>, evaluatedAt: Time)
    | Reissue(reissue: ReissueBatch, manifest: Sha, pointer: Sha)

  datatype System = System(files: Option<Files>, run: int)

  function StateOf(h: Hasher, f: Files): State {
    State(f, h(LedgerP(f.ledger)))
  }

  predicate Uncommitted(f: Files) {
    Timeline(f.decisions, f.reissues) == []
  }

  predicate OpenLegacyStep(h: Hasher, s: System, legacy: seq<V1Request>, b: ReissueBatch, ms: Sha, ps: Sha, t: System) {
    var v := ReissueVerdictFor(h, None, legacy, b, s.run, ms, ps);
    && s.files == None && ReissueBatchValid(b)
    && v.NewReissue? && |v.admission.sources| == |v.admission.batch.items|
    && ReissueFiles(h, v.admission).Ok?
    && t == System(Some(ReissueFiles(h, v.admission).value), s.run + 1)
  }

  predicate AddRootStep(h: Hasher, s: System, p: Successor, createdRun: int, at: Time, t: System) {
    && s.files.Some? && Uncommitted(s.files.value)
    && var r := RootRequest(h, s.files.value, createdRun, p, at);
       && RequestValid(h, r)
       && AddRequest(h, s.files.value.ledger, r).Added?
       && t == System(Some(s.files.value.(ledger := AddRequest(h, s.files.value.ledger, r).ledger)), s.run)
  }

  predicate DecideStep(h: Hasher, s: System, b: DecisionBatch, resolved: Option<Snapshot>, at: Time, t: System) {
    && s.files.Some? && BatchValid(b)
    && (resolved.Some? ==> SnapshotValid(h, resolved.value))
    && var f := s.files.value;
       var v := DecisionVerdictFor(h, StateOf(h, f), b, resolved, s.run, at);
       && v.NewDecision?
       && (Uncommitted(f) || Timeline(f.decisions, f.reissues)[|Timeline(f.decisions, f.reissues)| - 1].committedAt <= b.decisionAt)
       && t == System(Some(DecisionFiles(h, v.admission)), s.run + 1)
  }

  predicate ReissueStep(h: Hasher, s: System, b: ReissueBatch, ms: Sha, ps: Sha, t: System) {
    && s.files.Some? && ReissueBatchValid(b)
    && var v := ReissueVerdictFor(h, Some(StateOf(h, s.files.value)), [], b, s.run, ms, ps);
       && v.NewReissue? && |v.admission.sources| == |v.admission.batch.items|
       && ReissueFiles(h, v.admission).Ok?
       && t == System(Some(ReissueFiles(h, v.admission).value), s.run + 1)
  }

  predicate Step(h: Hasher, s: System, e: Event, t: System) {
    match e
    case Open(runId) => s.files == None && t == System(Some(EmptyFiles(runId)), s.run)
    case OpenLegacy(legacy, b, ms, ps) => OpenLegacyStep(h, s, legacy, b, ms, ps, t)
    case AddRoot(p, createdRun, at) => AddRootStep(h, s, p, createdRun, at, t)
    case OtherRunCommit => t == s.(run := s.run + 1) && (s.files.Some? ==> Uncommitted(s.files.value))
    case Decide(b, resolved, at) => DecideStep(h, s, b, resolved, at, t)
    case Reissue(b, ms, ps) => ReissueStep(h, s, b, ms, ps, t)
  }

  predicate IsRun(h: Hasher, states: seq<System>, events: seq<Event>) {
    && |states| == |events| + 1
    && states[0].files == None
    && forall i :: 0 <= i < |events| ==> Step(h, states[i], events[i], states[i + 1])
  }

  /** The last committed run revision, if anything has been committed. */
  function LastRun(f: Files): Option<int> {
    var s := Timeline(f.decisions, f.reissues);
    if s == [] then None else Some(s[|s| - 1].currentRun)
  }

  ghost predicate Inv(h: Hasher, s: System) {
    s.files.Some? ==>
      && Accepts(h, s.files.value)
      && LineageOf(s.files.value.ledger)
      && (LastRun(s.files.value) == None || LastRun(s.files.value) == Some(s.run))
  }

  // ------------------------------------------------------------------ every step keeps the invariant

  lemma {:induction false} OpenKeeps(h: Hasher, runId: string, run: int)
    ensures Inv(h, System(Some(EmptyFiles(runId)), run))
  {
    EmptyIsAccepted(h, runId);
  }

  lemma {:induction false} AddRootKeeps(h: Hasher, s: System, p: Successor, createdRun: int, at: Time, t: System)
    requires Inv(h, s) && AddRootStep(h, s, p, createdRun, at, t)
    ensures Inv(h, t)
    ensures s.files.value.decisions == t.files.value.decisions && s.files.value.reissues == t.files.value.reissues
    ensures s.files.value.events == t.files.value.events
  {
    var f := s.files.value;
    var r := RootRequest(h, f, createdRun, p, at);
    RootAccepted(h, f, r);
    AddedFacts(h, f.ledger, r);
    LineageAfterRoot(Index(f.ledger.requests), f.ledger.ledgerRevision, r);
  }

  lemma {:induction false} DecidedLineage(l: Ledger, items: seq<DecisionItem>, at: Time)
    requires DistinctRequests(l.requests) && !DuplicateItems(items) && LineageOf(l)
    requires forall i :: 0 <= i < |items| ==> ItemAdmitted(Index(l.requests), items[i], at)
    ensures Lineage(DecidedIndex(Index(l.requests), DecisionMap(items), l.ledgerRevision + 1), l.ledgerRevision + 1)
  {
    hide ItemAdmitted, DuplicateItems, Lineage, DistinctRequests;
    IndexExact(l.requests);
    forall id | id in DecisionMap(items)
      ensures id in Index(l.requests) && Index(l.requests)[id].state == Pending
    {
      NamedArePending(l.requests, items, at, id);
    }
    LineageAfterDecision(Index(l.requests), l.ledgerRevision, DecisionMap(items));
  }

  lemma {:induction false} DecisionKeepsLineage(h: Hasher, a: Admission, at: Time)
    requires DistinctRequests(a.state.files.ledger.requests) && Checked(h, a, at)
    requires LineageOf(a.state.files.ledger)
    ensures LineageOf(DecisionFiles(h, a).ledger)
  {
    DecidedLineage(a.state.files.ledger, a.batch.items, at);
    hide Checked, Lineage, DistinctRequests;
    DecidedIndexOf(h, a);
  }

  lemma {:induction false} AcceptedTimeline(h: Hasher, f: Files)
    requires Accepts(h, f)
    ensures TimelineOk(f.ledger, f.decisions, f.reissues)
    ensures DistinctRequests(f.ledger.requests) && LedgerValid(h, f.ledger)
  {
  }

  lemma {:induction false} LastRunOf(f: Files, m: Mutation, before: seq<Mutation>)
    requires Timeline(f.decisions, f.reissues) == before + [m]
    ensures LastRun(f) == Some(m.currentRun)
  {
  }

  lemma {:induction false} LastRunAfterDecision(h: Hasher, a: Admission)
    requires Accepts(h, a.state.files) && Accepts(h, DecisionFiles(h, a))
    ensures LastRun(DecisionFiles(h, a)) == Some(a.batch.expectedRunRevision + 1)
  {
    hide Accepts, TimelineOk, LastRun, Timeline;
    AcceptedTimeline(h, DecisionFiles(h, a));
    DecisionTimeline(h, a);
    LastRunOf(DecisionFiles(h, a), DecisionMutation(DecisionRecordFor(h, a)),
              Timeline(a.state.files.decisions, a.state.files.reissues));
  }

  lemma {:induction false} DecideIsTimely(h: Hasher, s: System, b: DecisionBatch, resolved: Option<Snapshot>,
                                        at: Time, t: System)
    requires s.files.Some? && DecideStep(h, s, b, resolved, at, t)
    requires LastRun(s.files.value) == None || LastRun(s.files.value) == Some(s.run)
    ensures Timely(s.files.value, s.run, b.decisionAt)
    ensures t == System(Some(DecisionFiles(h, DecisionVerdictFor(h, StateOf(h, s.files.value), b, resolved, s.run, at).admission)), s.run + 1)
    ensures BatchValid(b) && (resolved.Some? ==> SnapshotValid(h, resolved.value))
    ensures DecisionVerdictFor(h, StateOf(h, s.files.value), b, resolved, s.run, at).NewDecision?
  {
    hide DecisionVerdictFor, BatchValid, SnapshotValid, DecisionFiles, Timeline;
  }

  lemma {:induction false} DecideKeeps(h: Hasher, s: System, b: DecisionBatch, resolved: Option<Snapshot>, at: Time,
                                       t: System)
    requires s.files.Some? && Inv(h, s) && DecideStep(h, s, b, resolved, at, t)
    ensures Inv(h, t)
    ensures t.files.value.reissues == s.files.value.reissues
    ensures s.files.value.decisions <= t.files.value.decisions && s.files.value.events <= t.files.value.events
  {
    hide Accepts, LineageOf, Checked, BatchValid, SnapshotValid, DecisionBuilds, DistinctRequests, LedgerValid, DecisionVerdictFor,
         DecideStep, Timely, LastRun, DecidedRequests, DecisionRecordFor, AuditEventFor, LedgerFrom, TimelineOk;
    var st := StateOf(h, s.files.value);
    DecideIsTimely(h, s, b, resolved, at, t);
    AcceptedTimeline(h, s.files.value);
    var a := DecisionVerdictFor(h, st, b, resolved, s.run, at).admission;
    NewAdmission(h, st, b, resolved, s.run, at);
    AdmissionIsChecked(h, st, b, resolved, s.run, at);
    DecisionCommitAccepted(h, st, b, resolved, s.run, at);
    DecisionKeepsLineage(h, a, at);
    LastRunAfterDecision(h, a);
  }

  lemma {:induction false} ReissueKeepsLineage(h: Hasher, a: ReissueAdmission, legacy: seq<V1Snapshot>)
    requires LoopReady(h, a, legacy, BaseFiles(a).ledger) && LineageOf(BaseFiles(a).ledger)
    requires ReissueAll(h, a, legacy, BaseFiles(a).ledger, |a.batch.items|).Ok?
    ensures LineageOf(ReissueAll(h, a, legacy, BaseFiles(a).ledger, |a.batch.items|).value.ledger)
  {
    LineageAfterReissue(h, a, legacy, BaseFiles(a).ledger, |a.batch.items|);
  }

  lemma {:induction false} LastRunAfterReissue(h: Hasher, a: ReissueAdmission, legacy: seq<V1Snapshot>, p: Progress)
    requires Accepts(h, BaseFiles(a)) && ReissueChecked(h, a, legacy)
    requires LoopReady(h, a, legacy, BaseFiles(a).ledger)
    requires Advanced(h, a, legacy, BaseFiles(a).ledger, p, |a.batch.items|)
    requires Accepts(h, ReissueFilesFrom(h, a, legacy, p))
    ensures LastRun(ReissueFilesFrom(h, a, legacy, p)) == Some(a.observedRun + 1)
  {
    hide Accepts, ReissueChecked, LoopReady, Advanced, LastRun, Timeline, ReissueOutcomeValid, ReissueRecordValid;
    CommitReissueAccepted(h, a, legacy, p);
    LastRunOf(ReissueFilesFrom(h, a, legacy, p), ReissueMutation(ReissueRecordFrom(h, a, legacy, p)),
              Timeline(BaseFiles(a).decisions, BaseFiles(a).reissues));
  }

  /** A reissue built from an accepted base at the run revision the last commit left. */
  lemma {:induction false} BuiltReissueKeeps(h: Hasher, a: ReissueAdmission, legacy: seq<V1Snapshot>)
    requires legacy == LegacyProjection(h, a.batch.runId, a.legacy)
    requires Accepts(h, BaseFiles(a)) && ReissueChecked(h, a, legacy) && LineageOf(BaseFiles(a).ledger)
    requires LoopReady(h, a, legacy, BaseFiles(a).ledger) && Continues(BaseFiles(a), a.observedRun)
    requires |a.batch.items| == |a.sources| && ReissueFiles(h, a).Ok?
    ensures Inv(h, System(Some(ReissueFiles(h, a).value), a.observedRun + 1))
    ensures ReissueFiles(h, a).value.decisions == BaseFiles(a).decisions
    ensures ReissueFiles(h, a).value.events == BaseFiles(a).events
    ensures BaseFiles(a).reissues <= ReissueFiles(h, a).value.reissues
  {
    hide Accepts, ReissueChecked, LoopReady, Advanced, LineageOf, LegacyProjection, Continues, LastRun, RoomForSuccessors,
         ReissueRecordFrom, LedgerValid, ReissueOutcomeValid, ReissueRecordValid, ReissueOne;
    ReissueBuildsAndCommits(h, a, legacy);
    assert StartLedger(a) == BaseFiles(a).ledger;
    var p := ReissueAll(h, a, legacy, BaseFiles(a).ledger, |a.batch.items|).value;
    ReissueKeepsLineage(h, a, legacy);
    LastRunAfterReissue(h, a, legacy, p);
  }

  lemma {:induction false} RunContinues(f: Files, run: int)
    requires LastRun(f) == None || LastRun(f) == Some(run)
    ensures Continues(f, run)
  {
  }

  lemma {:induction false} ReissueKeeps(h: Hasher, s: System, b: ReissueBatch, ms: Sha, ps: Sha, t: System)
    requires Inv(h, s) && ReissueStep(h, s, b, ms, ps, t)
    ensures Inv(h, t)
    ensures t.files.value.decisions == s.files.value.decisions && t.files.value.events == s.files.value.events
    ensures s.files.value.reissues <= t.files.value.reissues
  {
    hide Accepts, ReissueChecked, LoopReady, LineageOf, LedgerValid, ReissueBatchValid, ReissueFiles, ReissueVerdictFor,
         Continues, LastRun, TimelineOk, DistinctRequests, LegacyProjection;
    var st := StateOf(h, s.files.value);
    AcceptedTimeline(h, s.files.value);
    RunContinues(s.files.value, s.run);
    V2AdmissionIsReady(h, st, [], b, s.run, ms, ps);
    NoLegacy(h, b.runId);
    BuiltReissueKeeps(h, ReissueVerdictFor(h, Some(st), [], b, s.run, ms, ps).admission, []);
  }

  lemma {:induction false} EmptyBase(h: Hasher, runId: string, run: int)
    ensures Accepts(h, EmptyFiles(runId)) && LineageOf(EmptyFiles(runId).ledger) && Continues(EmptyFiles(runId), run)
  {
    EmptyIsAccepted(h, runId);
  }

  lemma {:induction false} LegacyIsSmall(h: Hasher, legacy: seq<V1Request>, b: ReissueBatch, run: int, ms: Sha, ps: Sha)
    requires ReissueBatchValid(b)
    requires ReissueVerdictFor(h, None, legacy, b, run, ms, ps).NewReissue?
    ensures var a := ReissueVerdictFor(h, None, legacy, b, run, ms, ps).admission;
            |a.sources| == |a.batch.items| && (ReissueFiles(h, a).Ok? ==> |legacy| <= MAX_REQUESTS)
  {
    hide ReissueFiles, ReissueBatchValid, Accepts, RoomForSuccessors;
    V1SourcesMatch(h, legacy, b, run, ms, ps);
    LegacyReissueAccepted(h, legacy, b, run, ms, ps);
  }

  lemma {:induction false} OpenLegacyKeeps(h: Hasher, s: System, legacy: seq<V1Request>, b: ReissueBatch, ms: Sha,
                                        ps: Sha, t: System)
    requires OpenLegacyStep(h, s, legacy, b, ms, ps, t)
    ensures Inv(h, t)
  {
    hide Accepts, ReissueChecked, LoopReady, LineageOf, ReissueBatchValid, ReissueFiles, ReissueVerdictFor, Continues,
         LastRun, LegacyProjection;
    LegacyIsSmall(h, legacy, b, s.run, ms, ps);
    V1AdmissionIsReady(h, legacy, b, s.run, ms, ps);
    EmptyBase(h, b.runId, s.run);
    BuiltReissueKeeps(h, ReissueVerdictFor(h, None, legacy, b, s.run, ms, ps).admission, LegacyProjection(h, b.runId, legacy));
  }

  /** All three logs only grow. */
  ghost predicate Appends(s: System, t: System) {
    s.files.Some? ==>
      && t.files.Some?
      && s.files.value.decisions <= t.files.value.decisions
      && s.files.value.events <= t.files.value.events
      && s.files.value.reissues <= t.files.value.reissues
  }

  lemma {:induction false} StepKeeps(h: Hasher, s: System, e: Event, t: System)
    requires Inv(h, s) && Step(h, s, e, t)
    ensures Inv(h, t) && Appends(s, t)
  {
    match e
    case Open(runId) => OpenKeeps(h, runId, s.run);
    case OpenLegacy(legacy, b, ms, ps) => OpenLegacyKeeps(h, s, legacy, b, ms, ps, t);
    case AddRoot(p, createdRun, at) => AddRootKeeps(h, s, p, createdRun, at, t);
    case OtherRunCommit =>
    case Decide(b, resolved, at) => DecideKeeps(h, s, b, resolved, at, t);
    case Reissue(b, ms, ps) => ReissueKeeps(h, s, b, ms, ps, t);
  }

  // ------------------------------------------------------------------ main results over runs

  lemma {:induction false} StartHolds(h: Hasher, s: System)
    requires s.files == None
    ensures Inv(h, s)
  {
  }

  /** In every state of every run the reader accepts the artifacts and the supersession lineage is sound. */
  lemma {:induction false} EveryRunIsAccepted(h: Hasher, states: seq<System>, events: seq<Event>, i: nat)
    requires IsRun(h, states, events) && i < |states|
    ensures Inv(h, states[i])
    decreases i
  {
    hide Inv, Step;
    if i == 0 {
      StartHolds(h, states[0]);
    } else {
      EveryRunIsAccepted(h, states, events, i - 1);
      StepKeeps(h, states[i - 1], events[i - 1], states[i]);
    }
  }

  lemma {:induction false} LogsOnlyGrow(h: Hasher, states: seq<System>, events: seq<Event>, i: nat, j: nat)
    requires IsRun(h, states, events) && i <= j < |states|
    ensures Appends(states[i], states[j])
    decreases j
  {
    hide Inv, Step;
    if i < j {
      LogsOnlyGrow(h, states, events, i, j - 1);
      EveryRunIsAccepted(h, states, events, j - 1);
      StepKeeps(h, states[j - 1], events[j - 1], states[j]);
    }
  }

  lemma {:induction false} FindDecisionUnique(ds: seq<DecisionRecord>, k: nat)
    requires DistinctDecisions(ds) && k < |ds|
    ensures FindDecision(ds, ds[k].idempotencyKey) == Some(ds[k])
  {
    if k > 0 {
      assert ds[0].idempotencyKey != ds[k].idempotencyKey;
      var tail := ds[1..];
      assert forall i :: 0 <= i < |tail| ==> tail[i] == ds[i + 1];
      FindDecisionUnique(tail, k - 1);
    }
  }

  lemma {:induction false} FindReissueUnique(rs: seq<ReissueRecord>, k: nat)
    requires DistinctReissues(rs) && k < |rs|
    ensures FindReissue(rs, rs[k].idempotencyKey) == Some(rs[k])
  {
    if k > 0 {
      assert rs[0].idempotencyKey != rs[k].idempotencyKey;
      var tail := rs[1..];
      assert forall i :: 0 <= i < |tail| ==> tail[i] == rs[i + 1];
      FindReissueUnique(tail, k - 1);
    }
  }

  lemma {:induction false} DecideRecords(h: Hasher, s: System, b: DecisionBatch, resolved: Option<Snapshot>,
                                        at: Time, t: System)
    requires DecideStep(h, s, b, resolved, at, t)
    ensures var r := DecisionRecordFor(h, DecisionVerdictFor(h, StateOf(h, s.files.value), b, resolved, s.run, at).admission);
            && t.files.value.decisions == s.files.value.decisions + [r]
            && r.idempotencyKey == b.idempotencyKey && r.actorSha == h(ActorP(b.actor)) && r.batchSha == h(DecisionBatchP(b))
  {
    NewAdmission(h, StateOf(h, s.files.value), b, resolved, s.run, at);
  }

  /** The outcome that committing event `i` of a run recorded. */
  lemma {:induction false} RecordedDecision(h: Hasher, states: seq<System>, events: seq<Event>, i: nat, j: nat)
    returns (r: DecisionRecord)
    requires IsRun(h, states, events) && i < j < |states| && events[i].Decide?
    ensures states[i].files.Some? && states[j].files.Some? && states[i + 1].files.Some?
    ensures states[i + 1].files.value.decisions == states[i].files.value.decisions + [r]
    ensures FindDecision(states[j].files.value.decisions, events[i].decision.idempotencyKey) == Some(r)
    ensures r.actorSha == h(ActorP(events[i].decision.actor)) && r.batchSha == h(DecisionBatchP(events[i].decision))
  {
    var s, t, e := states[i], states[i + 1], events[i];
    assert Step(h, s, e, t);
    DecideRecords(h, s, e.decision, e.resolved, e.evaluatedAt, t);
    var k := |s.files.value.decisions|;
    r := t.files.value.decisions[k];
    hide Step, DecideStep;
    LogsOnlyGrow(h, states, events, i + 1, j);
    EveryRunIsAccepted(h, states, events, j);
    var ds := states[j].files.value.decisions;
    assert ds[k] == r;
    assert DistinctDecisions(ds);
    FindDecisionUnique(ds, k);
  }

  lemma {:induction false} ReplayOrConflict(h: Hasher, s: State, b: DecisionBatch, b': DecisionBatch, r: DecisionRecord,
                         resolved: Option<Snapshot>, observedRun: int, at: Time)
    requires FindDecision(s.files.decisions, b'.idempotencyKey) == Some(r)
    requires r.actorSha == h(ActorP(b.actor)) && r.batchSha == h(DecisionBatchP(b))
    ensures b' == b ==> DecisionVerdictFor(h, s, b', resolved, observedRun, at) == ReplayDecision(r.outcome)
    ensures b' != b && Injective(h) ==> DecisionVerdictFor(h, s, b', resolved, observedRun, at) == RejectedDecision(IdempotencyConflict)
  {
    assert DecisionBatchP(b') == DecisionBatchP(b) ==> b' == b;
  }

  /** Decisions are idempotent over whole runs. Once a batch has been committed, submitting it
      again in any later state, at any time, revision and authority answer, replays the original
      outcome; and any other batch under the same key is refused, if hashing is collision free. */
  lemma {:induction false} CommittedDecisionReplays(h: Hasher, states: seq<System>, events: seq<Event>, i: nat, j: nat,
                                 b': DecisionBatch, resolved: Option<Snapshot>, observedRun: int, at: Time)
    requires IsRun(h, states, events) && i < j < |states| && events[i].Decide?
    requires b'.idempotencyKey == events[i].decision.idempotencyKey
    ensures states[i].files.Some? && states[i + 1].files.Some? && states[j].files.Some?
    ensures |states[i + 1].files.value.decisions| == |states[i].files.value.decisions| + 1
    ensures var outcome := states[i + 1].files.value.decisions[|states[i].files.value.decisions|].outcome;
            var v := DecisionVerdictFor(h, StateOf(h, states[j].files.value), b', resolved, observedRun, at);
            && (b' == events[i].decision ==> v == ReplayDecision(outcome))
            && (b' != events[i].decision && Injective(h) ==> v == RejectedDecision(IdempotencyConflict))
  {
    var r := RecordedDecision(h, states, events, i, j);
    ReplayOrConflict(h, StateOf(h, states[j].files.value), events[i].decision, b', r, resolved, observedRun, at);
  }

  lemma {:induction false} ReissueRecords(h: Hasher, s: System, b: ReissueBatch, ms: Sha, ps: Sha, t: System)
    requires Inv(h, s) && ReissueStep(h, s, b, ms, ps, t)
    ensures |t.files.value.reissues| == |s.files.value.reissues| + 1
    ensures var r := t.files.value.reissues[|s.files.value.reissues|];
            r.idempotencyKey == b.idempotencyKey && r.batchSha == h(ReissueBatchP(b)) && r.outcome.reissueId == b.reissueId
  {
    var st := StateOf(h, s.files.value);
    V2AdmissionIsReady(h, st, [], b, s.run, ms, ps);
  }

  lemma {:induction false} LegacyRecords(h: Hasher, s: System, legacy: seq<V1Request>, b: ReissueBatch, ms: Sha, ps: Sha,
                                         t: System)
    requires OpenLegacyStep(h, s, legacy, b, ms, ps, t)
    ensures |t.files.value.reissues| == 1
    ensures var r := t.files.value.reissues[0];
            r.idempotencyKey == b.idempotencyKey && r.batchSha == h(ReissueBatchP(b)) && r.outcome.reissueId == b.reissueId
  {
    LegacyIsSmall(h, legacy, b, s.run, ms, ps);
    V1AdmissionIsReady(h, legacy, b, s.run, ms, ps);
  }

  /** The reissue batch an event commits: one on an open ledger, or the one that opens it from V1 history. */
  function ReissueBatchOf(e: Event): Option<ReissueBatch> {
    match e
    case Reissue(b, _, _) => Some(b)
    case OpenLegacy(_, b, _, _) => Some(b)
    case _ => None
  }

  function ReissueLog(s: System): seq<ReissueRecord> {
    if s.files.None? then [] else s.files.value.reissues
  }

  lemma {:induction false} ReissueIsRecorded(h: Hasher, s: System, e: Event, t: System)
    requires Inv(h, s) && Step(h, s, e, t) && ReissueBatchOf(e).Some?
    ensures t.files.Some? && |ReissueLog(t)| == |ReissueLog(s)| + 1
    ensures var b, r := ReissueBatchOf(e).value, ReissueLog(t)[|ReissueLog(s)|];
            r.idempotencyKey == b.idempotencyKey && r.batchSha == h(ReissueBatchP(b)) && r.outcome.reissueId == b.reissueId
  {
    hide Inv, ReissueVerdictFor, ReissueFiles, ReissueBatchValid;
    match e
    case Reissue(b, ms, ps) => ReissueRecords(h, s, b, ms, ps, t);
    case OpenLegacy(legacy, b, ms, ps) => LegacyRecords(h, s, legacy, b, ms, ps, t);
  }

  lemma {:induction false} RecordedReissue(h: Hasher, states: seq<System>, events: seq<Event>, i: nat, j: nat)
    returns (r: ReissueRecord)
    requires IsRun(h, states, events) && i < j < |states| && ReissueBatchOf(events[i]).Some?
    ensures states[j].files.Some? && |ReissueLog(states[i + 1])| == |ReissueLog(states[i])| + 1
    ensures r == ReissueLog(states[i + 1])[|ReissueLog(states[i])|]
    ensures var b := ReissueBatchOf(events[i]).value;
            && FindReissue(states[j].files.value.reissues, b.idempotencyKey) == Some(r)
            && r.batchSha == h(ReissueBatchP(b)) && r.outcome.reissueId == b.reissueId
  {
    hide Step;
    EveryRunIsAccepted(h, states, events, i);
    ReissueIsRecorded(h, states[i], events[i], states[i + 1]);
    var k := |ReissueLog(states[i])|;
    r := ReissueLog(states[i + 1])[k];
    LogsOnlyGrow(h, states, events, i + 1, j);
    EveryRunIsAccepted(h, states, events, j);
    var rs := states[j].files.value.reissues;
    assert rs[k] == r;
    assert DistinctReissues(rs);
    FindReissueUnique(rs, k);
  }

  /** Reissues are idempotent over whole runs in the same way, the one that opened the ledger from V1
      history included. */
  lemma {:induction false} CommittedReissueReplays(h: Hasher, states: seq<System>, events: seq<Event>, i: nat, j: nat,
                                b': ReissueBatch, legacy: seq<V1Request>, observedRun: int, ms: Sha, ps: Sha)
    requires IsRun(h, states, events) && i < j < |states| && ReissueBatchOf(events[i]).Some?
    requires b'.idempotencyKey == ReissueBatchOf(events[i]).value.idempotencyKey
    ensures states[j].files.Some? && |ReissueLog(states[i + 1])| == |ReissueLog(states[i])| + 1
    ensures var b, outcome := ReissueBatchOf(events[i]).value, ReissueLog(states[i + 1])[|ReissueLog(states[i])|].outcome;
            var v := ReissueVerdictFor(h, Some(StateOf(h, states[j].files.value)), legacy, b', observedRun, ms, ps);
            && (b' == b ==> v == ReplayReissue(outcome))
            && (b' != b && Injective(h) ==> v == RejectedReissue(IdempotencyConflict))
  {
    hide Step;
    var b := ReissueBatchOf(events[i]).value;
    var _ := RecordedReissue(h, states, events, i, j);
    assert ReissueBatchP(b') == ReissueBatchP(b) ==> b' == b;
  }

  /** In every state of every run, following supersession from any request ends at a request that
      is not superseded, and never comes back. */
  lemma {:induction false} SupersessionEnds(h: Hasher, states: seq<System>, events: seq<Event>, i: nat, id: string,
                                        n: nat)
    requires IsRun(h, states, events) && i < |states| && states[i].files.Some?
    requires id in Index(states[i].files.value.ledger.requests) && n >= 1
    ensures var l := states[i].files.value.ledger;
            var m := Index(l.requests);
            && LineageOf(l)
            && Final(m, l.ledgerRevision, id) in m
            && m[Final(m, l.ledgerRevision, id)].state != Superseded
            && Follow(m, id, n) != Some(id)
  {
    EveryRunIsAccepted(h, states, events, i);
    var l := states[i].files.value.ledger;
    SupersessionIsAcyclic(Index(l.requests), l.ledgerRevision, id, n);
  }
}
