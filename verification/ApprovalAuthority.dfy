/** Whole runs seen from their requests: who approved what, and when something was replaced. */
module ApprovalAuthority {
  import opened Basics
  import opened ApprovalModels
  import opened ApprovalReader
  import opened ApprovalProjection
  import opened ApprovalWriter
  import opened ApprovalReissue
  import opened ApprovalIndex
  import opened ApprovalConservation
  import opened ApprovalDecisionClosure
  import opened ApprovalRoots
  import opened ApprovalRuns
  import opened ApprovalAnswers
  import opened ApprovalEffects
  import opened ApprovalReissueEffects

  function Requests(s: System): seq<Request> {
    if s.files.None? then [] else s.files.value.ledger.requests
  }

  function Decisions(s: System): seq<DecisionRecord> {
    if s.files.None? then [] else s.files.value.decisions
  }

  lemma {:induction false} InvParts(h: Hasher, s: System)
    requires Inv(h, s) && s.files.Some?
    ensures Accepts(h, s.files.value) && DistinctRequests(Requests(s))
  {
    AcceptedParts(h, s.files.value);
  }

  // ------------------------------------------------------------------ one step

  lemma {:induction false} DecideAdmits(h: Hasher, s: System, b: DecisionBatch, resolved: Option<Snapshot>, at: Time, t: System)
    returns (a: Admission)
    requires Inv(h, s) && DecideStep(h, s, b, resolved, at, t)
    ensures s.files.Some? && t.files == Some(DecisionFiles(h, a))
    ensures Admits(h, StateOf(h, s.files.value), b, resolved, s.run, at, a)
  {
    a := DecisionVerdictFor(h, StateOf(h, s.files.value), b, resolved, s.run, at).admission;
  }

  lemma {:induction false} ReissueIsBuilt(h: Hasher, s: System, b: ReissueBatch, ms: Sha, ps: Sha, t: System)
    returns (a: ReissueAdmission)
    requires Inv(h, s) && ReissueStep(h, s, b, ms, ps, t)
    ensures s.files.Some? && |a.sources| == |a.batch.items| && a.batch == b && ReissueFiles(h, a).Ok?
    ensures t.files == Some(ReissueFiles(h, a).value)
    ensures Built(h, Some(StateOf(h, s.files.value)), [], b, s.run, ms, ps, a)
  {
    hide Accepts, ReissueFiles, ReissueBatchValid;
    a := ReissueVerdictFor(h, Some(StateOf(h, s.files.value)), [], b, s.run, ms, ps).admission;
    ReissueAdmittedExactlyWhen(h, StateOf(h, s.files.value), [], b, s.run, ms, ps);
  }

  /** An item of an admitted batch names a pending request of the ledger. */
  lemma {:induction false} NamedRequest(h: Hasher, s: State, b: DecisionBatch, resolved: Option<Snapshot>, run: int, at: Time,
                                        a: Admission, i: nat) returns (r: Request)
    requires Admits(h, s, b, resolved, run, at, a) && i < |b.items|
    ensures r in s.files.ledger.requests && r.requestId == b.items[i].requestId && r.state == Pending
    ensures r.requestRevision == b.items[i].expectedRevision && r.actionDigest == b.items[i].actionDigest
    ensures r.createdAt <= at < r.expiresAt && MayDecide(b.actor, r, b.items[i].decision, at)
    ensures r.requiredScope == "approve:" + r.actionPlan.category
  {
    hide Accepts, BatchValid, SnapshotValid, MayDecide, Index;
    AdmittedExactlyWhen(h, s, b, resolved, run, at);
    AcceptedParts(h, s.files);
    var m := Index(s.files.ledger.requests);
    assert ItemAdmitted(m, b.items[i], at);
    IndexSound(s.files.ledger.requests, b.items[i].requestId);
    r := m[b.items[i].requestId];
    ScopeIs(h, s.files.ledger, r);
  }

  lemma {:induction false} ScopeIs(h: Hasher, l: Ledger, r: Request)
    requires LedgerValid(h, l) && r in l.requests
    ensures r.requiredScope == "approve:" + r.actionPlan.category
  {
    assert RequestValid(h, r);
  }

  lemma {:induction false} SameId(rs: seq<Request>, q: Request, r: Request)
    requires DistinctRequests(rs) && q in rs && r in rs && q.requestId == r.requestId
    ensures q == r
  {
    IndexComplete(rs, q);
    IndexComplete(rs, r);
  }

  lemma {:induction false} DecideSettles(h: Hasher, s: System, b: DecisionBatch, resolved: Option<Snapshot>, at: Time, t: System,
                                         r: Request)
    requires Inv(h, s) && DecideStep(h, s, b, resolved, at, t) && r in Requests(s) && r.state != Pending
    ensures r in Requests(t)
  {
    hide Inv, DecideStep, Admits, DistinctRequests, DecisionFiles;
    var a := DecideAdmits(h, s, b, resolved, at, t);
    var st := StateOf(h, s.files.value);
    InvParts(h, s);
    forall i | 0 <= i < |b.items|
      ensures b.items[i].requestId != r.requestId
    {
      var q := NamedRequest(h, st, b, resolved, s.run, at, a, i);
      if q.requestId == r.requestId { SameId(Requests(s), q, r); }
    }
    DecisionChangesOnlyNamed(h, st, b, resolved, s.run, at, a, r);
  }

  /** The source of an admitted item was pending and had expired. */
  lemma {:induction false} SourceWasDue(h: Hasher, s: State, b: ReissueBatch, run: int, ms: Sha, ps: Sha, a: ReissueAdmission, i: nat)
    requires Built(h, Some(s), [], b, run, ms, ps, a) && i < |b.items|
    ensures a.batch == b && |a.sources| == |b.items| && a.sources[i].V2Source?
    ensures var r := a.sources[i].request;
            && r in s.files.ledger.requests && r.requestId == b.items[i].sourceId && r.state == Pending
            && r.expiresAt <= b.reissuedAt < b.items[i].successor.actionPlan.expiresAt
  {
    hide Accepts, Index, ReissueFiles, ReissueBatchValid, ReissueVerdictFor;
    ReissueAdmittedExactlyWhen(h, s, [], b, run, ms, ps);
    assert SourceDue(Index(s.files.ledger.requests), b.items[i], b.reissuedAt);
    IndexSound(s.files.ledger.requests, b.items[i].sourceId);
  }

  lemma {:induction false} ReissueSettles(h: Hasher, s: System, b: ReissueBatch, ms: Sha, ps: Sha, t: System, r: Request)
    requires Inv(h, s) && ReissueStep(h, s, b, ms, ps, t) && r in Requests(s) && r.state != Pending
    ensures r in Requests(t)
  {
    hide Inv, ReissueStep, Built, DistinctRequests, ReissueFiles;
    var a := ReissueIsBuilt(h, s, b, ms, ps, t);
    var st := StateOf(h, s.files.value);
    InvParts(h, s);
    forall i | 0 <= i < |b.items|
      ensures b.items[i].sourceId != r.requestId
    {
      SourceWasDue(h, st, b, s.run, ms, ps, a, i);
      if b.items[i].sourceId == r.requestId { SameId(Requests(s), a.sources[i].request, r); }
    }
    ReissueReplacesSources(h, st, [], b, s.run, ms, ps, a);
  }

  lemma {:induction false} RootSettles(h: Hasher, s: System, p: Successor, createdRun: int, at: Time, t: System, r: Request)
    requires Inv(h, s) && AddRootStep(h, s, p, createdRun, at, t) && r in Requests(s)
    ensures r in Requests(t)
  {
    hide Accepts;
    var root := RootRequest(h, s.files.value, createdRun, p, at);
    RootAccepted(h, s.files.value, root);
    assert Requests(t) == Requests(s) + [root];
  }

  /** A request that is no longer pending never changes again. */
  lemma {:induction false} StepSettles(h: Hasher, s: System, e: Event, t: System, r: Request)
    requires Inv(h, s) && Step(h, s, e, t) && r in Requests(s) && r.state != Pending
    ensures r in Requests(t)
  {
    hide Inv, AddRootStep, DecideStep, ReissueStep;
    match e
    case Open(_) =>
    case OpenLegacy(_, _, _, _) =>
    case AddRoot(p, createdRun, at) => RootSettles(h, s, p, createdRun, at, t, r);
    case OtherRunCommit =>
    case Decide(b, resolved, at) => DecideSettles(h, s, b, resolved, at, t, r);
    case Reissue(b, ms, ps) => ReissueSettles(h, s, b, ms, ps, t, r);
  }

  /** In every run, a request once approved, rejected or superseded stays exactly as it is. */
  lemma {:induction false} SettledForGood(h: Hasher, states: seq<System>, events: seq<Event>, i: nat, j: nat, r: Request)
    requires IsRun(h, states, events) && i <= j < |states| && r in Requests(states[i]) && r.state != Pending
    ensures r in Requests(states[j])
    decreases j
  {
    hide Inv, Step;
    if i < j {
      SettledForGood(h, states, events, i, j - 1, r);
      EveryRunIsAccepted(h, states, events, j - 1);
      StepSettles(h, states[j - 1], events[j - 1], states[j], r);
    }
  }

  // ------------------------------------------------------------------ where records come from

  lemma {:induction false} LegacyHasNoDecisions(h: Hasher, a: ReissueAdmission)
    requires a.state == None && |a.batch.items| == |a.sources| && ReissueFiles(h, a).Ok?
    ensures ReissueFiles(h, a).value.decisions == []
  {
    hide ReissueAll, LedgerValid, ReissueOutcomeValid, ReissueRecordValid, ReissueRecordFrom, LegacyProjection;
  }

  lemma {:induction false} OpeningHasNoDecisions(h: Hasher, s: System, legacy: seq<V1Request>, b: ReissueBatch, ms: Sha, ps: Sha,
                                                 t: System)
    requires OpenLegacyStep(h, s, legacy, b, ms, ps, t)
    ensures Decisions(t) == Decisions(s)
  {
    hide ReissueFiles, ReissueBatchValid;
    LegacyAdmittedExactlyWhen(h, legacy, b, s.run, ms, ps);
    LegacyHasNoDecisions(h, ReissueVerdictFor(h, None, legacy, b, s.run, ms, ps).admission);
  }

  lemma {:induction false} OnlyDecideDecides(h: Hasher, s: System, e: Event, t: System)
    requires Inv(h, s) && Step(h, s, e, t) && !e.Decide?
    ensures Decisions(t) == Decisions(s)
  {
    hide Inv, OpenLegacyStep, DecideStep;
    match e
    case Open(_) =>
    case OpenLegacy(legacy, b, ms, ps) => OpeningHasNoDecisions(h, s, legacy, b, ms, ps, t);
    case AddRoot(p, createdRun, at) => AddRootKeeps(h, s, p, createdRun, at, t);
    case OtherRunCommit =>
    case Reissue(b, ms, ps) => ReissueKeeps(h, s, b, ms, ps, t);
  }

  /** The event that wrote record `k` of the decision log. */
  lemma {:induction false} DecisionOrigin(h: Hasher, states: seq<System>, events: seq<Event>, j: nat, k: nat) returns (i: nat)
    requires IsRun(h, states, events) && j < |states| && k < |Decisions(states[j])|
    ensures i < j && events[i].Decide? && Step(h, states[i], events[i], states[i + 1]) && Inv(h, states[i])
    ensures |Decisions(states[i])| == k && |Decisions(states[i + 1])| == k + 1
    ensures Decisions(states[i + 1])[k] == Decisions(states[j])[k]
    decreases j
  {
    hide Inv, Step;
    EveryRunIsAccepted(h, states, events, j - 1);
    StepKeeps(h, states[j - 1], events[j - 1], states[j]);
    if k < |Decisions(states[j - 1])| {
      i := DecisionOrigin(h, states, events, j - 1, k);
    } else {
      i := j - 1;
      if !events[i].Decide? {
        OnlyDecideDecides(h, states[i], events[i], states[j]);
      }
      var e := events[i];
      DecideAppends(h, states[i], e, states[j]);
    }
  }

  lemma {:induction false} DecideAppends(h: Hasher, s: System, e: Event, t: System)
    requires Inv(h, s) && Step(h, s, e, t) && e.Decide?
    ensures |Decisions(t)| == |Decisions(s)| + 1
  {
    hide Inv;
    DecideRecords(h, s, e.decision, e.resolved, e.evaluatedAt, t);
  }

  // ------------------------------------------------------------------ who decided

  /** This actor may decide this request in this way at this time, by the category of its plan. */
  predicate HasAuthority(a: Actor, r: Request, d: Decision, at: Time) {
    && (d == Reject ==> "reject:any" in a.scopes)
    && (d == Approve ==>
          && a.verified && a.revocation == NotRevoked
          && a.authorityExpiresAt.Some? && at < a.authorityExpiresAt.value
          && "approve:" + r.actionPlan.category in a.scopes)
  }

  lemma {:induction false} NowDecided(h: Hasher, s: System, b: DecisionBatch, resolved: Option<Snapshot>, at: Time, t: System, x: nat)
    returns (r: Request)
    requires Inv(h, s) && DecideStep(h, s, b, resolved, at, t) && x < |b.items|
    ensures s.files.Some? && t.files.Some? && r in Requests(s) && r.requestId == b.items[x].requestId && r.state == Pending
    ensures r.createdAt <= at < r.expiresAt && HasAuthority(b.actor, r, b.items[x].decision, at)
    ensures Decided(r, b.items[x], s.files.value.ledger.ledgerRevision + 1) in Requests(t)
  {
    hide Inv, DecideStep, Admits, DecisionFiles;
    var a := DecideAdmits(h, s, b, resolved, at, t);
    var st := StateOf(h, s.files.value);
    r := NamedRequest(h, st, b, resolved, s.run, at, a, x);
    DecisionChangesOnlyNamed(h, st, b, resolved, s.run, at, a, r);
  }

  /** Every decision in every reachable state was made while its request was pending and alive, by an actor
      the provider answered with and who had the authority for it, and the request still says so. */
  lemma {:induction false} EveryDecisionWasAuthorized(h: Hasher, states: seq<System>, events: seq<Event>, j: nat, k: nat, x: nat)
    returns (i: nat, r: Request)
    requires IsRun(h, states, events) && j < |states| && k < |Decisions(states[j])|
    requires x < |Decisions(states[j])[k].batch.items|
    ensures i < j && events[i].Decide?
    ensures var d, e := Decisions(states[j])[k], events[i];
            var item := d.batch.items[x];
            && d.batch == e.decision && e.resolved == Some(d.snapshot) && d.snapshot.actor == d.batch.actor
            && r in Requests(states[i]) && r.requestId == item.requestId && r.state == Pending
            && r.createdAt <= e.evaluatedAt < r.expiresAt
            && HasAuthority(d.batch.actor, r, item.decision, e.evaluatedAt)
            && Decided(r, item, d.outcome.currentLedgerRevision) in Requests(states[j])
  {
    hide Step, Inv;
    i := DecisionOrigin(h, states, events, j, k);
    var s, e, t := states[i], events[i], states[i + 1];
    r := RecordedDecisionIs(h, s, e, t, x);
    SettledForGood(h, states, events, i + 1, j, Decided(r, e.decision.items[x], Decisions(t)[k].outcome.currentLedgerRevision));
  }

  lemma {:induction false} RecordedDecisionIs(h: Hasher, s: System, e: Event, t: System, x: nat) returns (r: Request)
    requires Inv(h, s) && Step(h, s, e, t) && e.Decide?
    requires |Decisions(t)| == |Decisions(s)| + 1 && x < |Decisions(t)[|Decisions(s)|].batch.items|
    ensures var d := Decisions(t)[|Decisions(s)|];
            && d.batch == e.decision && e.resolved == Some(d.snapshot) && d.snapshot.actor == d.batch.actor
            && r in Requests(s) && r.requestId == d.batch.items[x].requestId && r.state == Pending
            && r.createdAt <= e.evaluatedAt < r.expiresAt
            && HasAuthority(d.batch.actor, r, d.batch.items[x].decision, e.evaluatedAt)
            && Decided(r, d.batch.items[x], d.outcome.currentLedgerRevision) in Requests(t)
  {
    hide Step, Inv, DecideStep, Admits, DecisionFiles, HasAuthority, Decided;
    var b, resolved, at := e.decision, e.resolved, e.evaluatedAt;
    StepDecides(h, s, e, t);
    var a := DecideAdmits(h, s, b, resolved, at, t);
    RecordedBatch(h, StateOf(h, s.files.value), b, resolved, s.run, at, a);
    r := NowDecided(h, s, b, resolved, at, t, x);
  }

  lemma {:induction false} StepDecides(h: Hasher, s: System, e: Event, t: System)
    requires Step(h, s, e, t) && e.Decide?
    ensures DecideStep(h, s, e.decision, e.resolved, e.evaluatedAt, t)
  {
    hide DecideStep;
  }

  lemma {:induction false} RecordedBatch(h: Hasher, s: State, b: DecisionBatch, resolved: Option<Snapshot>, run: int, at: Time,
                                         a: Admission)
    requires Admits(h, s, b, resolved, run, at, a)
    ensures resolved.Some? && |DecisionFiles(h, a).decisions| == |s.files.decisions| + 1
    ensures var d := DecisionFiles(h, a).decisions[|s.files.decisions|];
            && d.batch == b && d.snapshot == resolved.value && d.snapshot.actor == b.actor
            && d.outcome.currentLedgerRevision == s.files.ledger.ledgerRevision + 1
  {
    hide Admits, DecisionFiles, PendingIds;
    DecisionIsRecorded(h, s, b, resolved, run, at, a);
    AdmitsParts(h, s, b, resolved, run, at, a);
  }

  /** So whatever is approved in a reachable state was approved by a verified actor who held the scope of its
      category and whose authority had not expired. */
  lemma {:induction false} ApprovedByAuthority(h: Hasher, states: seq<System>, events: seq<Event>, j: nat, q: Request)
    returns (i: nat, k: nat)
    requires IsRun(h, states, events) && j < |states| && q in Requests(states[j]) && q.state == Approved
    ensures i < j && events[i].Decide? && k < |Decisions(states[j])|
    ensures var actor := Decisions(states[j])[k].batch.actor;
            && events[i].decision == Decisions(states[j])[k].batch
            && actor.verified && actor.revocation == NotRevoked
            && actor.authorityExpiresAt.Some? && events[i].evaluatedAt < actor.authorityExpiresAt.value
            && events[i].evaluatedAt < q.expiresAt
            && "approve:" + q.actionPlan.category in actor.scopes
  {
    hide Inv;
    EveryRunIsAccepted(h, states, events, j);
    InvParts(h, states[j]);
    var x;
    k, x := ApprovalRecord(h, states[j].files.value, q);
    var r;
    i, r := EveryDecisionWasAuthorized(h, states, events, j, k, x);
    var d := Decisions(states[j])[k];
    SameId(Requests(states[j]), Decided(r, d.batch.items[x], d.outcome.currentLedgerRevision), q);
  }

  lemma {:induction false} ApprovalRecord(h: Hasher, f: Files, q: Request) returns (k: nat, x: nat)
    requires Accepts(h, f) && q in f.ledger.requests && q.state == Approved
    ensures k < |f.decisions| && x < |f.decisions[k].batch.items| && f.decisions[k].batch.items[x].requestId == q.requestId
  {
    hide TimelineOk, AuditChainOk, ReissueChainOk, LedgerValid;
    var flat := DecisionResults(f.decisions);
    assert Explained(q, DecidedIds(flat), SupersededIds(ReissueResults(f.reissues)));
    var n :| 0 <= n < |flat| && flat[n].requestId == q.requestId;
    FlatMapMember(DecisionResultsOf, f.decisions, flat[n]);
    k :| 0 <= k < |f.decisions| && flat[n] in DecisionResultsOf(f.decisions[k]);
    var d := f.decisions[k];
    x :| 0 <= x < |d.outcome.results| && d.outcome.results[x] == flat[n];
    assert DecisionRecordValid(h, d);
    assert ItemMatches(d.batch.items[x], d.outcome.results[x]);
  }

  // ------------------------------------------------------------------ when something was replaced

  lemma {:induction false} OnlyReissueReissues(h: Hasher, s: System, e: Event, t: System)
    requires Inv(h, s) && Step(h, s, e, t) && ReissueBatchOf(e).None?
    ensures ReissueLog(t) == ReissueLog(s)
  {
    hide Inv, DecideStep;
    match e
    case Open(_) =>
    case AddRoot(p, createdRun, at) => AddRootKeeps(h, s, p, createdRun, at, t);
    case OtherRunCommit =>
    case Decide(b, resolved, at) => DecideNeedsFiles(h, s, b, resolved, at, t); DecideKeeps(h, s, b, resolved, at, t);
  }

  lemma {:induction false} DecideNeedsFiles(h: Hasher, s: System, b: DecisionBatch, resolved: Option<Snapshot>, at: Time, t: System)
    requires DecideStep(h, s, b, resolved, at, t)
    ensures s.files.Some? && t.files.Some?
  {
  }

  /** The event that wrote record `k` of the reissue log. */
  lemma {:induction false} ReissueOrigin(h: Hasher, states: seq<System>, events: seq<Event>, j: nat, k: nat) returns (i: nat)
    requires IsRun(h, states, events) && j < |states| && k < |ReissueLog(states[j])|
    ensures i < j && ReissueBatchOf(events[i]).Some? && Step(h, states[i], events[i], states[i + 1]) && Inv(h, states[i])
    ensures |ReissueLog(states[i])| == k && |ReissueLog(states[i + 1])| == k + 1
    ensures ReissueLog(states[i + 1])[k] == ReissueLog(states[j])[k]
    decreases j
  {
    hide Inv, Step, ReissueBatchOf;
    EveryRunIsAccepted(h, states, events, j - 1);
    StepKeeps(h, states[j - 1], events[j - 1], states[j]);
    if k < |ReissueLog(states[j - 1])| {
      i := ReissueOrigin(h, states, events, j - 1, k);
    } else {
      i := j - 1;
      if ReissueBatchOf(events[i]).None? {
        OnlyReissueReissues(h, states[i], events[i], states[j]);
      } else {
        ReissueIsRecorded(h, states[i], events[i], states[j]);
      }
    }
  }

  lemma {:induction false} NowReplaced(h: Hasher, s: System, b: ReissueBatch, ms: Sha, ps: Sha, t: System, x: nat)
    returns (r: Request)
    requires Inv(h, s) && ReissueStep(h, s, b, ms, ps, t) && x < |b.items|
    ensures s.files.Some? && |ReissueLog(t)| == |ReissueLog(s)| + 1 && ReissueLog(t)[|ReissueLog(s)|].batch == b
    ensures r in Requests(s) && r.requestId == b.items[x].sourceId && r.state == Pending
    ensures r.expiresAt <= b.reissuedAt < b.items[x].successor.actionPlan.expiresAt
    ensures var rev := s.files.value.ledger.ledgerRevision;
            var q := SuccessorOf(h, b, x, rev);
            q in Requests(t) && Replaced(r, rev + x + 1, q.requestId) in Requests(t)
  {
    hide Inv, ReissueStep, Built, ReissueFiles, SuccessorOf, Replaced;
    var a := ReissueIsBuilt(h, s, b, ms, ps, t);
    var st := StateOf(h, s.files.value);
    SourceWasDue(h, st, b, s.run, ms, ps, a, x);
    ReissueReplacesSources(h, st, [], b, s.run, ms, ps, a);
    r := a.sources[x].request;
  }

  /** This reissue replaced `r`, pending and expired, by a request still alive, which `q` now names. */
  ghost predicate ReplacedThen(h: Hasher, s: System, e: Event, t: System, x: nat, r: Request, q: Request) {
    && s.files.Some? && e.Reissue? && x < |e.reissue.items|
    && r in Requests(s) && r.state == Pending && r.expiresAt <= e.reissue.reissuedAt
    && var rev := s.files.value.ledger.ledgerRevision;
       var next := SuccessorOf(h, e.reissue, x, rev);
       q == Replaced(r, rev + x + 1, next.requestId) && next in Requests(t) && e.reissue.reissuedAt < next.expiresAt
  }

  /** Every superseded request of every reachable state had expired, undecided, when it was replaced, and was
      replaced by a request still alive then, which its reference names. */
  lemma {:induction false} EverySupersessionWasDue(h: Hasher, states: seq<System>, events: seq<Event>, j: nat, q: Request)
    returns (i: nat, x: nat, r: Request)
    requires IsRun(h, states, events) && j < |states| && q in Requests(states[j]) && q.state == Superseded
    ensures |states| == |events| + 1 && i < j && ReplacedThen(h, states[i], events[i], states[i + 1], x, r, q)
  {
    hide Inv, Step, IsRun, ReplacedThen;
    var k, last;
    i, k, x := SupersessionOrigin(h, states, events, j, q);
    r, last := ReplacedBy(h, states[i], events[i], states[i + 1], x);
    SettledForGood(h, states, events, i + 1, j, last);
    DistinctNow(h, states, events, j);
    SameId(Requests(states[j]), last, q);
  }

  lemma {:induction false} DistinctNow(h: Hasher, states: seq<System>, events: seq<Event>, j: nat)
    requires IsRun(h, states, events) && j < |states| && states[j].files.Some?
    ensures DistinctRequests(Requests(states[j])) && Accepts(h, states[j].files.value)
  {
    EveryRunIsAccepted(h, states, events, j);
    hide IsRun, Inv;
    InvParts(h, states[j]);
  }

  /** The event, the record and the item that superseded a request. */
  lemma {:induction false} SupersessionOrigin(h: Hasher, states: seq<System>, events: seq<Event>, j: nat, q: Request)
    returns (i: nat, k: nat, x: nat)
    requires IsRun(h, states, events) && j < |states| && q in Requests(states[j]) && q.state == Superseded
    ensures |states| == |events| + 1 && i < j && ReissueBatchOf(events[i]).Some?
    ensures Step(h, states[i], events[i], states[i + 1]) && Inv(h, states[i]) && states[j].files.Some?
    ensures |ReissueLog(states[i])| == k && |ReissueLog(states[i + 1])| == k + 1
    ensures var items := ReissueLog(states[i + 1])[k].batch.items;
            x < |items| && items[x].sourceId == q.requestId && items[x].kind == ApprovalV2
  {
    assert |states| == |events| + 1;
    hide Inv, Step, IsRun, ReissueBatchOf;
    DistinctNow(h, states, events, j);
    k, x := SupersessionRecord(h, states[j].files.value, q);
    i := ReissueOrigin(h, states, events, j, k);
  }

  lemma {:induction false} ReplacedBy(h: Hasher, s: System, e: Event, t: System, x: nat) returns (r: Request, last: Request)
    requires Inv(h, s) && Step(h, s, e, t) && ReissueBatchOf(e).Some? && |ReissueLog(t)| == |ReissueLog(s)| + 1
    requires x < |ReissueLog(t)[|ReissueLog(s)|].batch.items| && ReissueLog(t)[|ReissueLog(s)|].batch.items[x].kind == ApprovalV2
    ensures ReplacedThen(h, s, e, t, x, r, last) && last in Requests(t) && last.state == Superseded
    ensures last.requestId == ReissueLog(t)[|ReissueLog(s)|].batch.items[x].sourceId
  {
    hide Inv, Step, ReissueStep, OpenLegacyStep, SuccessorOf, ReissueLog;
    StepReissues(h, s, e, t);
    match e
    case Reissue(b, ms, ps) =>
      BatchOfReissue(h, s, b, ms, ps, t);
      var rev := s.files.value.ledger.ledgerRevision;
      r := NowReplaced(h, s, b, ms, ps, t, x);
      last := Replaced(r, rev + x + 1, SuccessorOf(h, b, x, rev).requestId);
      SuccessorExpiry(h, b, x, rev);
    case OpenLegacy(legacy, b, ms, ps) =>
      OpeningIsHistorical(h, s, legacy, b, ms, ps, t);
  }

  lemma {:induction false} SuccessorExpiry(h: Hasher, b: ReissueBatch, x: nat, rev: int)
    requires x < |b.items|
    ensures SuccessorOf(h, b, x, rev).expiresAt == b.items[x].successor.actionPlan.expiresAt
  {
  }

  lemma {:induction false} StepReissues(h: Hasher, s: System, e: Event, t: System)
    requires Step(h, s, e, t)
    ensures e.Reissue? ==> ReissueStep(h, s, e.reissue, e.manifest, e.pointer, t)
    ensures e.OpenLegacy? ==> OpenLegacyStep(h, s, e.legacy, e.first, e.manifestSha, e.pointerSha, t)
  {
    hide ReissueStep, OpenLegacyStep;
  }

  lemma {:induction false} BatchOfReissue(h: Hasher, s: System, b: ReissueBatch, ms: Sha, ps: Sha, t: System)
    requires Inv(h, s) && ReissueStep(h, s, b, ms, ps, t)
    ensures s.files.Some? && |ReissueLog(t)| == |ReissueLog(s)| + 1 && ReissueLog(t)[|ReissueLog(s)|].batch == b
  {
    hide Inv, ReissueStep, Built, ReissueFiles;
    var a := ReissueIsBuilt(h, s, b, ms, ps, t);
    ReissueReplacesSources(h, StateOf(h, s.files.value), [], b, s.run, ms, ps, a);
  }

  lemma {:induction false} OpeningIsHistorical(h: Hasher, s: System, legacy: seq<V1Request>, b: ReissueBatch, ms: Sha, ps: Sha,
                                               t: System)
    requires OpenLegacyStep(h, s, legacy, b, ms, ps, t)
    ensures |ReissueLog(t)| == 1 && ReissueLog(s) == [] && ReissueLog(t)[0].batch == b
    ensures forall i :: 0 <= i < |b.items| ==> b.items[i].kind == HistoricalV1
  {
    hide ReissueFiles, ReissueBatchValid;
    LegacyAdmittedExactlyWhen(h, legacy, b, s.run, ms, ps);
    LegacyReissueOpens(h, legacy, b, s.run, ms, ps, ReissueVerdictFor(h, None, legacy, b, s.run, ms, ps).admission);
  }

  lemma {:induction false} SupersessionRecord(h: Hasher, f: Files, q: Request) returns (k: nat, x: nat)
    requires Accepts(h, f) && q in f.ledger.requests && q.state == Superseded
    ensures k < |f.reissues| && x < |f.reissues[k].batch.items|
    ensures f.reissues[k].batch.items[x].sourceId == q.requestId && f.reissues[k].batch.items[x].kind == ApprovalV2
  {
    hide TimelineOk, AuditChainOk, ReissueChainOk, LedgerValid;
    var flat := ReissueResults(f.reissues);
    assert Explained(q, DecidedIds(DecisionResults(f.decisions)), SupersededIds(flat));
    var n :| 0 <= n < |flat| && flat[n].source.kind == ApprovalV2 && flat[n].source.sourceId == q.requestId;
    FlatMapMember(ReissueResultsOf, f.reissues, flat[n]);
    k :| 0 <= k < |f.reissues| && flat[n] in ReissueResultsOf(f.reissues[k]);
    var d := f.reissues[k];
    x :| 0 <= x < |d.outcome.results| && d.outcome.results[x] == flat[n];
    assert ReissueProjected(h, f.ledger.runId, Index(f.ledger.requests), d);
    assert PairProjected(h, f.ledger.runId, Index(f.ledger.requests), d.legacyProjection, d.batch.items[x], d.outcome.results[x]);
  }
}
