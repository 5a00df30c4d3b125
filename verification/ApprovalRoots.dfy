/** Root requests: they may be added until the first commit, and never after it. */
module ApprovalRoots {
  import opened ApprovalModels
  import opened ApprovalReader
  import opened ApprovalProjection
  import opened ApprovalWriter
  import opened ApprovalIndex
  import opened ApprovalEvolution
  import opened ApprovalDecisionCommit
  import opened ApprovalReissueFold
  import opened ApprovalReissueCommit

  function RootRequest(h: Hasher, f: Files, createdRun: int, p: Successor, createdAt: Time): Request {
    BuildRequest(h, f.ledger.runId, createdRun, f.ledger.ledgerRevision + 1, p, createdAt)
  }

  function WithRoot(f: Files, r: Request): Files {
    f.(ledger := Appended(f.ledger, r))
  }

  lemma {:induction false} RootTimeline(h: Hasher, f: Files, r: Request)
    requires Accepts(h, f) && r.ledgerRevision == f.ledger.ledgerRevision + 1
    ensures TimelineOk(WithRoot(f, r).ledger, f.decisions, f.reissues) <==> Timeline(f.decisions, f.reissues) == []
    ensures Timeline(f.decisions, f.reissues) != [] ==> RootFault(WithRoot(f, r).ledger, f.decisions, f.reissues)
  {
  }

  lemma {:induction false} RootProjection(h: Hasher, f: Files, r: Request)
    requires DistinctRequests(f.ledger.requests)
    requires ProjectionOk(h, f.ledger, f.decisions, f.reissues)
    requires r.requestId !in Index(f.ledger.requests) && r.state == Pending
    ensures ProjectionOk(h, WithRoot(f, r).ledger, f.decisions, f.reissues)
  {
    var m, m' := Index(f.ledger.requests), Index(f.ledger.requests + [r]);
    IndexAppend(f.ledger.requests, r);
    assert Evolves(m, m');
    RecordsEvolve(h, f.ledger.runId, m, m', f.reissues);
    DecisionsEvolve(m, m', DecisionResults(f.decisions));
    if r.requestId in DecidedIds(DecisionResults(f.decisions)) {
      DecidedAreSettled(m, DecisionResults(f.decisions), r.requestId);
    }
    forall q | q in f.ledger.requests + [r]
      ensures Explained(q, DecidedIds(DecisionResults(f.decisions)), SupersededIds(ReissueResults(f.reissues)))
    {
      assert q in f.ledger.requests || q == r;
    }
  }

  lemma {:induction false} RootChains(h: Hasher, f: Files, r: Request)
    requires Accepts(h, f) && r.ledgerRevision == f.ledger.ledgerRevision + 1
    ensures var l' := WithRoot(f, r).ledger;
            DecisionChainOk(l', f.decisions) && AuditChainOk(l', f.decisions, f.events) && ReissueChainOk(h, l', f.reissues)
  {
    LedgerMovesOn(f, WithRoot(f, r).ledger);
    ReissueChainKeeps(h, f.ledger, WithRoot(f, r).ledger, f.reissues);
  }

  /** A fresh root keeps the reader satisfied exactly while nothing has been committed. After a
      commit the other four validators still pass, and the timeline's root check refuses it. */
  lemma {:induction false} RootAccepted(h: Hasher, f: Files, r: Request)
    requires Accepts(h, f) && RequestValid(h, r) && r.state == Pending
    requires AddRequest(h, f.ledger, r).Added?
    ensures AddRequest(h, f.ledger, r).ledger == WithRoot(f, r).ledger
    ensures Accepts(h, WithRoot(f, r)) <==> Timeline(f.decisions, f.reissues) == []
    ensures Timeline(f.decisions, f.reissues) != [] ==>
              && RootFault(WithRoot(f, r).ledger, f.decisions, f.reissues)
              && ModelsValid(h, WithRoot(f, r))
              && DecisionChainOk(WithRoot(f, r).ledger, f.decisions)
              && AuditChainOk(WithRoot(f, r).ledger, f.decisions, f.events)
              && ReissueChainOk(h, WithRoot(f, r).ledger, f.reissues)
              && ProjectionOk(h, WithRoot(f, r).ledger, f.decisions, f.reissues)
  {
    AddedLedger(h, f.ledger, r);
    AddedFacts(h, f.ledger, r);
    RootTimeline(h, f, r);
    RootProjection(h, f, r);
    RootChains(h, f, r);
  }
}
