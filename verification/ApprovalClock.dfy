/** The one gap between writer and reader: admission never compares `decision_at` with earlier commits. */
module ApprovalClock {
  import opened Basics
  import opened ApprovalModels
  import opened ApprovalReader
  import opened ApprovalProjection
  import opened ApprovalWriter
  import opened ApprovalIndex
  import opened ApprovalDecisionClosure
  import opened ApprovalDecisionCommit
  import opened ApprovalReissueStep
  import opened ApprovalReissueCommit
  import opened ApprovalRoots

  function Restamped(b: DecisionBatch, at: Time): DecisionBatch {
    b.(decisionAt := at)
  }

  /** Admission does not depend on the stamp, so once anything has been committed, every admissible
      batch restamped behind the last commit is still admitted and still builds, and the reader
      then refuses the whole state. */
  lemma {:induction false} BackdatedDecisionCorrupts(h: Hasher, s: State, b: DecisionBatch,
                                        resolved: Option<Snapshot>, observedRun: int,
                                  at: Time, stamp: Time)
    requires Accepts(h, s.files) && BatchValid(b)
    requires resolved.Some? ==> SnapshotValid(h, resolved.value)
    requires DecisionVerdictFor(h, s, b, resolved, observedRun, at).NewDecision?
    requires var t := Timeline(s.files.decisions, s.files.reissues); t != [] && stamp < t[|t| - 1].committedAt
    ensures var v := DecisionVerdictFor(h, s, Restamped(b, stamp), resolved, observedRun, at);
            && v.NewDecision?
            && DecisionBuilds(h, v.admission)
            && !Accepts(h, DecisionFiles(h, v.admission))
  {
    hide Accepts, DecisionBuilds, DecisionVerdictFor, SnapshotValid, DecisionFiles;
    var b' := Restamped(b, stamp);
    AdmittedExactlyWhen(h, s, b, resolved, observedRun, at);
    AdmittedExactlyWhen(h, s, b', resolved, observedRun, at);
    DecisionCommitAccepted(h, s, b', resolved, observedRun, at);
  }

  // ------------------------------------------------------------------ a concrete run

  const EXAMPLE_PLAN := ActionPlan("external_code", "execution-1", 100, "")
  const EXAMPLE_ACTOR := Actor("operator", "local_cli", ["reject:any"], false, None, None, None, RevocationUnknown, "")

  function ExampleHash(p: Preimage): Sha {
    if p.RequestKeyP? then p.stableProposalId else "digest"
  }

  const EXAMPLE_SNAPSHOT := Snapshot("local-cli-authority", "1.0.0", 10, EXAMPLE_ACTOR, "digest")

  function ExampleProposal(id: string): Successor {
    Successor(id, EXAMPLE_PLAN, "", "phase", "attempt")
  }

  function ExampleBatch(id: string, ledgerRevision: int, run: int, key: string, at: Time): DecisionBatch {
    DecisionBatch("run", run, ledgerRevision, EXAMPLE_ACTOR, key, key,
                  [DecisionItem("request-" + id, 1, "digest", Reject)], "", at)
  }

  function ExampleRoots(): Files {
    var h: Hasher := ExampleHash;
    var f1 := WithRoot(EmptyFiles("run"), RootRequest(h, EmptyFiles("run"), 1, ExampleProposal("a"), 0));
    WithRoot(f1, RootRequest(h, f1, 1, ExampleProposal("b"), 0))
  }

  lemma {:induction false} ExampleRootsDistinct()
    ensures var f0 := EmptyFiles("run");
            var r1 := RootRequest(ExampleHash, f0, 1, ExampleProposal("a"), 0);
            var r2 := RootRequest(ExampleHash, WithRoot(f0, r1), 1, ExampleProposal("b"), 0);
            && RequestValid(ExampleHash, r1) && RequestValid(ExampleHash, r2) && !Clash(r1, r2)
            && r1.state == r2.state == Pending && r1.ledgerRevision == 1 && r2.ledgerRevision == 2
            && ExampleRoots() == WithRoot(WithRoot(f0, r1), r2)
            && f0.ledger.requests == [] && WithRoot(f0, r1).ledger.requests == [r1]
  {
    var f0 := EmptyFiles("run");
    var r1 := RootRequest(ExampleHash, f0, 1, ExampleProposal("a"), 0);
    var r2 := RootRequest(ExampleHash, WithRoot(f0, r1), 1, ExampleProposal("b"), 0);
    assert r1.requestId == "request-a" && r2.requestId == "request-b";
    assert "request-a"[8] != "request-b"[8];
  }

  lemma {:induction false} ExampleRootsAccepted()
    ensures Accepts(ExampleHash, ExampleRoots()) && Timeline(ExampleRoots().decisions, ExampleRoots().reissues) == []
    ensures ExampleRoots().ledger.ledgerRevision == 2 && ExampleRoots().ledger.runId == "run"
    ensures ExampleRoots().decisions == []
  {
    hide Accepts, RequestValid, Clash, BuildRequest, AddRequest;
    var h: Hasher := ExampleHash;
    var f0 := EmptyFiles("run");
    var r1 := RootRequest(h, f0, 1, ExampleProposal("a"), 0);
    var f1 := WithRoot(f0, r1);
    var r2 := RootRequest(h, f1, 1, ExampleProposal("b"), 0);
    ExampleRootsDistinct();
    EmptyIsAccepted(h, "run");
    AcceptedParts(h, f0);
    AddNext(h, f0.ledger, r1);
    RootAccepted(h, f0, r1);
    AcceptedParts(h, f1);
    AddNext(h, f1.ledger, r2);
    RootAccepted(h, f1, r2);
  }

  predicate ExampleRequest(m: map<string, Request>, id: string) {
    && id in m && m[id].state == Pending && m[id].requestRevision == 1 && m[id].actionDigest == "digest"
    && m[id].createdAt == 0 && m[id].expiresAt == 100
  }

  lemma {:induction false} ExampleRequests()
    ensures ExampleRequest(Index(ExampleRoots().ledger.requests), "request-a")
    ensures ExampleRequest(Index(ExampleRoots().ledger.requests), "request-b")
  {
    var h: Hasher := ExampleHash;
    var f0 := EmptyFiles("run");
    var r1 := RootRequest(h, f0, 1, ExampleProposal("a"), 0);
    var r2 := RootRequest(h, WithRoot(f0, r1), 1, ExampleProposal("b"), 0);
    assert "request-" + First32("a") == "request-a" && "request-" + First32("b") == "request-b";
    assert r1.requestId == "request-a" && r2.requestId == "request-b";
    IndexAppend([], r1);
    IndexAppend([r1], r2);
    assert [] + [r1] == [r1];
    assert ExampleRoots().ledger.requests == [r1] + [r2];
    assert "request-a"[8] != "request-b"[8];
  }

  lemma {:induction false} ExampleAdmitted(s: State, id: string, b: DecisionBatch)
    requires b == ExampleBatch(id, s.files.ledger.ledgerRevision, b.expectedRunRevision, b.idempotencyKey, b.decisionAt)
    requires s.files.ledger.runId == "run" && ExampleRequest(Index(s.files.ledger.requests), "request-" + id)
    requires forall i :: 0 <= i < |s.files.decisions| ==>
               s.files.decisions[i].idempotencyKey != b.idempotencyKey && s.files.decisions[i].decisionId != b.idempotencyKey
    requires b.expectedRunRevision >= 1 && b.expectedLedgerRevision >= 0
    ensures BatchValid(b) && SnapshotValid(ExampleHash, EXAMPLE_SNAPSHOT)
    ensures 5 <= b.decisionAt < 20 ==>
              DecisionVerdictFor(ExampleHash, s, b, Some(EXAMPLE_SNAPSHOT), b.expectedRunRevision, b.decisionAt).NewDecision?
  {
    hide DecisionVerdictFor, Index;
    var at := b.decisionAt;
    if 5 <= at < 20 {
      assert ItemAdmitted(Index(s.files.ledger.requests), b.items[0], at);
      assert Authorized(b.actor, Index(s.files.ledger.requests)[b.items[0].requestId], Reject, at);
      AdmittedExactlyWhen(ExampleHash, s, b, Some(EXAMPLE_SNAPSHOT), b.expectedRunRevision, at);
    }
  }

  /** A run whose second decision, stamped and evaluated at 5 after a commit at 10, is admitted and
      built, and leaves a state the reader calls corrupt. */
  lemma {:induction false} ClockRollbackExample() returns (s: State, b: DecisionBatch)
    ensures Accepts(ExampleHash, s.files) && BatchValid(b)
    ensures var v := DecisionVerdictFor(ExampleHash, s, b, Some(EXAMPLE_SNAPSHOT), 2, 5);
            && v.NewDecision?
            && DecisionBuilds(ExampleHash, v.admission)
            && !Accepts(ExampleHash, DecisionFiles(ExampleHash, v.admission))
  {
    hide Accepts, ExampleRoots, DecisionVerdictFor, DecisionBuilds, BatchValid, SnapshotValid, Index, ExampleRequest,
         DecisionFiles, Timeline;
    var h: Hasher := ExampleHash;
    var s0 := State(ExampleRoots(), "");
    var b1 := ExampleBatch("a", 2, 1, "key-1", 10);
    ExampleRootsAccepted();
    ExampleRequests();
    assert "request-" + "a" == "request-a" && "request-" + "b" == "request-b";
    ExampleAdmitted(s0, "a", b1);
    var a := DecisionVerdictFor(h, s0, b1, Some(EXAMPLE_SNAPSHOT), 1, 10).admission;
    s, b := ExampleSecond(s0, b1, a);
  }

  lemma {:induction false} ExampleSecond(s0: State, b1: DecisionBatch, a: Admission)
    returns (s: State, b: DecisionBatch)
    requires s0 == State(ExampleRoots(), "") && b1 == ExampleBatch("a", 2, 1, "key-1", 10)
    requires Accepts(ExampleHash, s0.files) && Timeline(s0.files.decisions, s0.files.reissues) == []
    requires s0.files.ledger.ledgerRevision == 2 && s0.files.ledger.runId == "run" && s0.files.decisions == []
    requires ExampleRequest(Index(s0.files.ledger.requests), "request-b")
    requires BatchValid(b1) && SnapshotValid(ExampleHash, EXAMPLE_SNAPSHOT)
    requires DecisionVerdictFor(ExampleHash, s0, b1, Some(EXAMPLE_SNAPSHOT), 1, 10) == NewDecision(a)
    ensures Accepts(ExampleHash, s.files) && BatchValid(b)
    ensures var v := DecisionVerdictFor(ExampleHash, s, b, Some(EXAMPLE_SNAPSHOT), 2, 5);
            && v.NewDecision?
            && DecisionBuilds(ExampleHash, v.admission)
            && !Accepts(ExampleHash, DecisionFiles(ExampleHash, v.admission))
  {
    hide Accepts, ExampleRoots, DecisionVerdictFor, DecisionBuilds, BatchValid, SnapshotValid, Index, DecidedRequests,
         ExampleRequest, DecisionFiles, ActorValid, Timeline;
    NewAdmission(ExampleHash, s0, b1, Some(EXAMPLE_SNAPSHOT), 1, 10);
    DecisionCommitAccepted(ExampleHash, s0, b1, Some(EXAMPLE_SNAPSHOT), 1, 10);
    s := State(DecisionFiles(ExampleHash, a), "");
    b := ExampleBatch("b", 3, 2, "key-2", 5);
    ExampleUntouched(a);
    ExampleLedgerAfter(a);
    assert "request-" + "b" == "request-b" && "key-1"[4] != "key-2"[4];
    ExampleAdmitted(s, "b", b);
    ExampleTimeline(a);
    BackdatedDecisionCorrupts(ExampleHash, s, b, Some(EXAMPLE_SNAPSHOT), 2, 5, 5);
    assert Restamped(b, 5) == b;
  }

  lemma {:induction false} ExampleLedgerAfter(a: Admission)
    requires a.batch == ExampleBatch("a", 2, 1, "key-1", 10) && a.state.files.decisions == []
    ensures var f := DecisionFiles(ExampleHash, a);
            && f.ledger.ledgerRevision == a.state.files.ledger.ledgerRevision + 1
            && f.ledger.runId == a.state.files.ledger.runId
            && |f.decisions| == 1 && f.decisions[0].idempotencyKey == "key-1" && f.decisions[0].decisionId == "key-1"
  {
  }

  lemma {:induction false} ExampleTimeline(a: Admission)
    requires Accepts(ExampleHash, a.state.files) && Accepts(ExampleHash, DecisionFiles(ExampleHash, a))
    requires Timeline(a.state.files.decisions, a.state.files.reissues) == [] && a.batch.decisionAt == 10
    ensures var t := Timeline(DecisionFiles(ExampleHash, a).decisions, DecisionFiles(ExampleHash, a).reissues);
            t != [] && t[|t| - 1].committedAt == 10
  {
    hide Timeline;
    DecisionTimeline(ExampleHash, a);
  }

  lemma {:induction false} OnlyNamed(items: seq<DecisionItem>, id: string)
    requires |items| == 1 && items[0].requestId != id
    ensures id !in DecisionMap(items)
  {
    assert items[..0] == [];
  }

  lemma {:induction false} ExampleUntouched(a: Admission)
    requires Accepts(ExampleHash, a.state.files) && a.batch == ExampleBatch("a", 2, 1, "key-1", 10)
    requires ExampleRequest(Index(a.state.files.ledger.requests), "request-b")
    ensures ExampleRequest(Index(DecisionFiles(ExampleHash, a).ledger.requests), "request-b")
  {
    hide Accepts, Index, DecidedRequests, DecisionMap, ActorValid, LedgerValid, TimelineOk, ProjectionOk, DistinctRequests,
         DistinctResults, DecisionRecordFor, AuditEventFor;
    AcceptedParts(ExampleHash, a.state.files);
    DecidedIndexOf(ExampleHash, a);
    assert "request-" + "a" == "request-a" && "request-a"[8] != "request-b"[8];
    OnlyNamed(a.batch.items, "request-b");
    IndexSound(a.state.files.ledger.requests, "request-b");
  }
}
