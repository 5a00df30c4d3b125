/** The ledger pins its logs: with collision-free hashing, the digest of the ledger determines every
    decision record and every audit event. */
module ApprovalTamper {
  import opened ApprovalModels
  import opened ApprovalReader
  import opened ApprovalProjection

  ghost predicate DecisionsLinked(h: Hasher, rs: seq<DecisionRecord>) {
    forall i :: 0 <= i < |rs| ==> rs[i].recordSha == DecisionRecordHash(h, rs[i]) && rs[i].previousSha == DecisionHead(rs[..i])
  }

  ghost predicate EventsLinked(h: Hasher, es: seq<AuditEvent>) {
    forall i :: 0 <= i < |es| ==> es[i].eventSha == AuditEventHash(h, es[i]) && es[i].previousSha == AuditHead(es[..i])
  }

  ghost predicate ReissuesLinked(h: Hasher, rs: seq<ReissueRecord>) {
    forall i :: 0 <= i < |rs| ==> rs[i].recordSha == ReissueRecordHash(h, rs[i]) && rs[i].previousSha == ReissueHead(rs[..i])
  }

  lemma {:induction false} SameDecisionRecord(h: Hasher, x: DecisionRecord, y: DecisionRecord)
    requires Injective(h) && x.recordSha == y.recordSha
    requires x.recordSha == DecisionRecordHash(h, x) && y.recordSha == DecisionRecordHash(h, y)
    ensures x == y
  {
    assert DecisionRecordP(x.(recordSha := "")) == DecisionRecordP(y.(recordSha := ""));
    assert x == x.(recordSha := "").(recordSha := x.recordSha);
    assert y == y.(recordSha := "").(recordSha := y.recordSha);
  }

  lemma {:induction false} DecisionsLinkedPrefix(h: Hasher, a: seq<DecisionRecord>)
    requires DecisionsLinked(h, a) && a != []
    ensures DecisionsLinked(h, a[..|a| - 1])
    ensures a[|a| - 1].previousSha == DecisionHead(a[..|a| - 1])
    ensures a[|a| - 1].recordSha == DecisionRecordHash(h, a[|a| - 1])
  {
    var init := a[..|a| - 1];
    forall i | 0 <= i < |init| ensures init[..i] == a[..i] {}
  }

  lemma {:induction false} DecisionsPinned(h: Hasher, a: seq<DecisionRecord>, b: seq<DecisionRecord>)
    requires Injective(h) && DecisionsLinked(h, a) && DecisionsLinked(h, b)
    requires |a| == |b| && DecisionHead(a) == DecisionHead(b)
    ensures a == b
  {
    hide DecisionsLinked, Injective, DecisionRecordHash;
    if a != [] {
      var n := |a| - 1;
      DecisionsLinkedPrefix(h, a);
      DecisionsLinkedPrefix(h, b);
      SameDecisionRecord(h, a[n], b[n]);
      DecisionsPinned(h, a[..n], b[..n]);
      assert a == a[..n] + [a[n]] && b == b[..n] + [b[n]];
    }
  }

  lemma {:induction false} SameAuditEvent(h: Hasher, x: AuditEvent, y: AuditEvent)
    requires Injective(h) && x.eventSha == y.eventSha
    requires x.eventSha == AuditEventHash(h, x) && y.eventSha == AuditEventHash(h, y)
    ensures x == y
  {
    assert AuditEventP(x.(eventSha := "")) == AuditEventP(y.(eventSha := ""));
    assert x == x.(eventSha := "").(eventSha := x.eventSha);
    assert y == y.(eventSha := "").(eventSha := y.eventSha);
  }

  lemma {:induction false} EventsLinkedPrefix(h: Hasher, a: seq<AuditEvent>)
    requires EventsLinked(h, a) && a != []
    ensures EventsLinked(h, a[..|a| - 1])
    ensures a[|a| - 1].previousSha == AuditHead(a[..|a| - 1])
    ensures a[|a| - 1].eventSha == AuditEventHash(h, a[|a| - 1])
  {
    var init := a[..|a| - 1];
    forall i | 0 <= i < |init| ensures init[..i] == a[..i] {}
  }

  lemma {:induction false} EventsPinned(h: Hasher, a: seq<AuditEvent>, b: seq<AuditEvent>)
    requires Injective(h) && EventsLinked(h, a) && EventsLinked(h, b)
    requires |a| == |b| && AuditHead(a) == AuditHead(b)
    ensures a == b
  {
    hide EventsLinked, Injective, AuditEventHash;
    if a != [] {
      var n := |a| - 1;
      EventsLinkedPrefix(h, a);
      EventsLinkedPrefix(h, b);
      SameAuditEvent(h, a[n], b[n]);
      EventsPinned(h, a[..n], b[..n]);
      assert a == a[..n] + [a[n]] && b == b[..n] + [b[n]];
    }
  }

  lemma {:induction false} SameReissueRecord(h: Hasher, x: ReissueRecord, y: ReissueRecord)
    requires Injective(h) && x.recordSha == y.recordSha
    requires x.recordSha == ReissueRecordHash(h, x) && y.recordSha == ReissueRecordHash(h, y)
    ensures x == y
  {
    assert ReissueRecordP(x.(recordSha := "")) == ReissueRecordP(y.(recordSha := ""));
    assert x == x.(recordSha := "").(recordSha := x.recordSha);
    assert y == y.(recordSha := "").(recordSha := y.recordSha);
  }

  lemma {:induction false} ReissuesLinkedPrefix(h: Hasher, a: seq<ReissueRecord>)
    requires ReissuesLinked(h, a) && a != []
    ensures ReissuesLinked(h, a[..|a| - 1])
    ensures a[|a| - 1].previousSha == ReissueHead(a[..|a| - 1])
    ensures a[|a| - 1].recordSha == ReissueRecordHash(h, a[|a| - 1])
  {
    var init := a[..|a| - 1];
    forall i | 0 <= i < |init| ensures init[..i] == a[..i] {}
  }

  lemma {:induction false} ReissuesPinned(h: Hasher, a: seq<ReissueRecord>, b: seq<ReissueRecord>)
    requires Injective(h) && ReissuesLinked(h, a) && ReissuesLinked(h, b)
    requires |a| == |b| && ReissueHead(a) == ReissueHead(b)
    ensures a == b
  {
    hide ReissuesLinked, Injective, ReissueRecordHash;
    if a != [] {
      var n := |a| - 1;
      ReissuesLinkedPrefix(h, a);
      ReissuesLinkedPrefix(h, b);
      SameReissueRecord(h, a[n], b[n]);
      ReissuesPinned(h, a[..n], b[..n]);
      assert a == a[..n] + [a[n]] && b == b[..n] + [b[n]];
    }
  }

  lemma {:induction false} AcceptedLinks(h: Hasher, f: Files)
    requires Accepts(h, f)
    ensures DecisionsLinked(h, f.decisions) && EventsLinked(h, f.events) && ReissuesLinked(h, f.reissues)
    ensures |f.decisions| == |f.events| == f.ledger.decisionCount
    ensures DecisionHead(f.decisions) == f.ledger.decisionHead && AuditHead(f.events) == f.ledger.auditHead
  {
    hide TimelineOk, ProjectionOk, LedgerValid, BatchValid, SnapshotValid, OutcomeValid, ReissueBatchValid, ReissueOutcomeValid;
    forall i | 0 <= i < |f.decisions|
      ensures f.decisions[i].recordSha == DecisionRecordHash(h, f.decisions[i])
      ensures f.decisions[i].previousSha == DecisionHead(f.decisions[..i])
    {
      assert f.decisions[i] in f.decisions && DecisionLinked(f.ledger, f.decisions, i);
    }
    forall i | 0 <= i < |f.events|
      ensures f.events[i].eventSha == AuditEventHash(h, f.events[i])
      ensures f.events[i].previousSha == AuditHead(f.events[..i])
    {
      assert f.events[i] in f.events && EventLinked(f.ledger, f.decisions, f.events, i);
    }
    forall i | 0 <= i < |f.reissues|
      ensures f.reissues[i].recordSha == ReissueRecordHash(h, f.reissues[i])
      ensures f.reissues[i].previousSha == ReissueHead(f.reissues[..i])
    {
      assert f.reissues[i] in f.reissues && ReissueLinked(h, f.ledger, f.reissues, i);
    }
  }

  /** Two accepted states with the same ledger digest have the same ledger, decision log and audit
      log; if their reissue logs also have equal length and head, they are the same state. */
  lemma {:induction false} LedgerDigestPinsLogs(h: Hasher, f: Files, g: Files)
    requires Injective(h) && Accepts(h, f) && Accepts(h, g)
    requires h(LedgerP(f.ledger)) == h(LedgerP(g.ledger))
    ensures f.ledger == g.ledger && f.decisions == g.decisions && f.events == g.events
    ensures |f.reissues| == |g.reissues| && ReissueHead(f.reissues) == ReissueHead(g.reissues) ==> f == g
  {
    hide Accepts, DecisionsLinked, EventsLinked, ReissuesLinked, DecisionHead, AuditHead, ReissueHead;
    assert LedgerP(f.ledger) == LedgerP(g.ledger);
    AcceptedLinks(h, f);
    AcceptedLinks(h, g);
    DecisionsPinned(h, f.decisions, g.decisions);
    EventsPinned(h, f.events, g.events);
    if |f.reissues| == |g.reissues| && ReissueHead(f.reissues) == ReissueHead(g.reissues) {
      ReissuesPinned(h, f.reissues, g.reissues);
    }
  }
}
