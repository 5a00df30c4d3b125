/** Reissue: an expired pending request, or every pending request of a historical V1 projection,
    is replaced by a fresh successor. */
module ApprovalReissue {
  import opened Basics
  import opened ApprovalModels
  import opened ApprovalReader
  import opened ApprovalProjection
  import opened ApprovalWriter

  // ------------------------------------------------------------------ admission

  datatype Source = V2Source(request: Request) | V1Source(v1: V1Request)

  datatype ReissueAdmission = ReissueAdmission(
    batch: ReissueBatch,
    observedRun: int,
    manifestSha: Sha,
    pointerSha: Sha,
    state: Option<State>,
    legacy: seq<V1Request>,
    sources: seq<Source>)

  datatype ReissueVerdict =
    | NewReissue(admission: ReissueAdmission)
    | ReplayReissue(outcome: ReissueOutcome)
    | RejectedReissue(code: FailureCode)

  function FindReissue(rs: seq<ReissueRecord>, key: string): Option<ReissueRecord> {
    if rs == [] then None
    else if rs[0].idempotencyKey == key then Some(rs[0])
    else FindReissue(rs[1..], key)
  }

  predicate ReissueIdUsed(rs: seq<ReissueRecord>, id: string) {
    exists i :: 0 <= i < |rs| && rs[i].reissueId == id
  }

  predicate BehindTimeline(f: Files, at: Time) {
    || (exists i :: 0 <= i < |f.decisions| && at < f.decisions[i].committedAt)
    || (exists i :: 0 <= i < |f.reissues| && at < f.reissues[i].committedAt)
  }

  predicate BehindLegacy(legacy: seq<V1Request>, at: Time) {
    exists i :: 0 <= i < |legacy| &&
      (at < legacy[i].createdAt || (legacy[i].decidedAt.Some? && at < legacy[i].decidedAt.value))
  }

  function PendingLegacy(legacy: seq<V1Request>): map<string, V1Request> {
    if legacy == [] then map[]
    else
      var last := legacy[|legacy| - 1];
      var before := PendingLegacy(legacy[..|legacy| - 1]);
      if last.status == V1Pending then before[last.approvalId := last] else before
  }

  predicate DistinctLegacy(legacy: seq<V1Request>) {
    forall i, j :: 0 <= i < j < |legacy| ==> legacy[i].approvalId != legacy[j].approvalId
  }

  predicate AllV2(b: ReissueBatch) {
    forall i :: 0 <= i < |b.items| ==> b.items[i].kind == ApprovalV2
  }

  function SelectedIds(b: ReissueBatch): set<string> {
    set i | 0 <= i < |b.items| :: b.items[i].sourceId
  }

  function SourceFault(m: map<string, Request>, item: ReissueItem, at: Time): Option<FailureCode> {
    if item.sourceId !in m then Some(ApprovalUnknown)
    else
      var r := m[item.sourceId];
      if r.state != Pending || item.expectedRevision != Some(r.requestRevision)
         || item.sourceDigest != Some(r.actionDigest) || at < r.expiresAt
      then Some(ReissueNotEligible)
      else None
  }

  function FirstSourceFault(m: map<string, Request>, items: seq<ReissueItem>, at: Time): Option<FailureCode> {
    if items == [] then None
    else if SourceFault(m, items[0], at).Some? then SourceFault(m, items[0], at)
    else FirstSourceFault(m, items[1..], at)
  }

  predicate DeadSuccessor(b: ReissueBatch) {
    exists i :: 0 <= i < |b.items| && b.items[i].successor.actionPlan.expiresAt <= b.reissuedAt
  }

  /** The sources the items select; meaningful once every item is known. */
  function V2Sources(m: map<string, Request>, items: seq<ReissueItem>): seq<Source> {
    if items == [] then []
    else V2Sources(m, items[..|items| - 1])
         + (var id := items[|items| - 1].sourceId; if id in m then [V2Source(m[id])] else [])
  }

  function V1Sources(m: map<string, V1Request>, items: seq<ReissueItem>): seq<Source> {
    if items == [] then []
    else V1Sources(m, items[..|items| - 1])
         + (var id := items[|items| - 1].sourceId; if id in m then [V1Source(m[id])] else [])
  }

  function ReissueVerdictFor(h: Hasher, state: Option<State>, legacy: seq<V1Request>, b: ReissueBatch,
                             observedRun: int, manifestSha: Sha, pointerSha: Sha): ReissueVerdict {
    var replay := if state == None then None else FindReissue(state.value.files.reissues, b.idempotencyKey);
    if replay.Some? then
      if replay.value.batchSha != h(ReissueBatchP(b)) then RejectedReissue(IdempotencyConflict)
      else ReplayReissue(replay.value.outcome)
    else
      var observedLedger := if state == None then 0 else state.value.files.ledger.ledgerRevision;
      if state.Some? && b.runId != state.value.files.ledger.runId then RejectedReissue(ReissueConflict)
      else if b.expectedRunRevision != observedRun || b.expectedLedgerRevision != observedLedger
      then RejectedReissue(StaleDecision)
      else if state.Some? && ReissueIdUsed(state.value.files.reissues, b.reissueId)
      then RejectedReissue(IdempotencyConflict)
      else
        var fault := if state == None then LegacyFault(legacy, b) else StateFault(state.value.files, legacy, b);
        if fault.Some? then RejectedReissue(fault.value)
        else if DeadSuccessor(b) then RejectedReissue(ApprovalExpired)
        else
          var sources := if state == None then V1Sources(PendingLegacy(legacy), b.items)
                         else V2Sources(Index(state.value.files.ledger.requests), b.items);
          NewReissue(ReissueAdmission(b, observedRun, manifestSha, pointerSha, state, legacy, sources))
  }

  function LegacyFault(legacy: seq<V1Request>, b: ReissueBatch): Option<FailureCode> {
    var pending := PendingLegacy(legacy);
    if legacy == [] then Some(ReissueConflict)
    else if !DistinctLegacy(legacy) then Some(ReissueConflict)
    else if BehindLegacy(legacy, b.reissuedAt) then Some(ResumeConflict)
    else if pending == map[] || SelectedIds(b) != pending.Keys || !AllHistorical(b) then Some(ReissueNotEligible)
    else None
  }

  function StateFault(f: Files, legacy: seq<V1Request>, b: ReissueBatch): Option<FailureCode> {
    if legacy != [] || !AllV2(b) then Some(ReissueConflict)
    else if BehindTimeline(f, b.reissuedAt) then Some(ResumeConflict)
    else FirstSourceFault(Index(f.ledger.requests), b.items, b.reissuedAt)
  }

  lemma {:induction false} FirstSourceFaultSkip(m: map<string, Request>, items: seq<ReissueItem>, at: Time, k: nat)
    requires k < |items|
    ensures FirstSourceFault(m, items[k..], at) ==
              if SourceFault(m, items[k], at).Some? then SourceFault(m, items[k], at)
              else FirstSourceFault(m, items[k + 1..], at)
  {
    assert items[k..][1..] == items[k + 1..];
  }

  method FindReplay(rs: seq<ReissueRecord>, key: string) returns (r: Option<ReissueRecord>)
    ensures r == FindReissue(rs, key)
  {
    for k := 0 to |rs|
      invariant FindReissue(rs, key) == FindReissue(rs[k..], key)
    {
      assert rs[k..][0] == rs[k] && rs[k..][1..] == rs[k + 1..];
      if rs[k].idempotencyKey == key { return Some(rs[k]); }
    }
    return None;
  }

  method SelectV2Sources(m: map<string, Request>, b: ReissueBatch)
    returns (fault: Option<FailureCode>, sources: seq<Source>)
    ensures fault == FirstSourceFault(m, b.items, b.reissuedAt)
    ensures fault == None ==> sources == V2Sources(m, b.items)
  {
    sources := [];
    assert b.items[0..] == b.items;
    for k := 0 to |b.items|
      invariant FirstSourceFault(m, b.items, b.reissuedAt) == FirstSourceFault(m, b.items[k..], b.reissuedAt)
      invariant sources == V2Sources(m, b.items[..k])
    {
      FirstSourceFaultSkip(m, b.items, b.reissuedAt, k);
      fault := SourceFault(m, b.items[k], b.reissuedAt);
      if fault.Some? { return; }
      assert b.items[..k + 1][..k] == b.items[..k];
      sources := sources + [V2Source(m[b.items[k].sourceId])];
    }
    assert b.items[..|b.items|] == b.items;
    fault := None;
  }

  method ValidateReissue(h: Hasher, state: Option<State>, legacy: seq<V1Request>, b: ReissueBatch,
                         observedRun: int, manifestSha: Sha, pointerSha: Sha) returns (v: ReissueVerdict)
    ensures v == ReissueVerdictFor(h, state, legacy, b, observedRun, manifestSha, pointerSha)
  {
    if state.Some? {
      var replay := FindReplay(state.value.files.reissues, b.idempotencyKey);
      if replay.Some? {
        if replay.value.batchSha != h(ReissueBatchP(b)) { return RejectedReissue(IdempotencyConflict); }
        return ReplayReissue(replay.value.outcome);
      }
    }
    var observedLedger := if state == None then 0 else state.value.files.ledger.ledgerRevision;
    if state.Some? && b.runId != state.value.files.ledger.runId { return RejectedReissue(ReissueConflict); }
    if b.expectedRunRevision != observedRun || b.expectedLedgerRevision != observedLedger {
      return RejectedReissue(StaleDecision);
    }
    if state.Some? && ReissueIdUsed(state.value.files.reissues, b.reissueId) {
      return RejectedReissue(IdempotencyConflict);
    }
    var sources: seq<Source>;
    if state == None {
      var pending := PendingLegacy(legacy);
      if legacy == [] { return RejectedReissue(ReissueConflict); }
      if !DistinctLegacy(legacy) { return RejectedReissue(ReissueConflict); }
      if BehindLegacy(legacy, b.reissuedAt) { return RejectedReissue(ResumeConflict); }
      if pending == map[] || SelectedIds(b) != pending.Keys || !AllHistorical(b) {
        return RejectedReissue(ReissueNotEligible);
      }
      sources := V1Sources(pending, b.items);
    } else {
      var f := state.value.files;
      if legacy != [] || !AllV2(b) { return RejectedReissue(ReissueConflict); }
      if BehindTimeline(f, b.reissuedAt) { return RejectedReissue(ResumeConflict); }
      var fault;
      fault, sources := SelectV2Sources(Index(f.ledger.requests), b);
      if fault.Some? { return RejectedReissue(fault.value); }
    }
    if DeadSuccessor(b) { return RejectedReissue(ApprovalExpired); }
    return NewReissue(ReissueAdmission(b, observedRun, manifestSha, pointerSha, state, legacy, sources));
  }

  // ------------------------------------------------------------------ commit

  function SnapshotOf(h: Hasher, runId: string, r: V1Request): V1Snapshot {
    V1Snapshot(r, runId, r.approvalId, h(V1RequestP(r)), r.status)
  }

  predicate SnapshotLe(a: V1Snapshot, b: V1Snapshot) {
    StringLe(a.request.approvalId, b.request.approvalId)
  }

  function LegacyProjection(h: Hasher, runId: string, legacy: seq<V1Request>): seq<V1Snapshot> {
    SortBy(seq(|legacy|, i requires 0 <= i < |legacy| => SnapshotOf(h, runId, legacy[i])), SnapshotLe)
  }

  function FindSnapshot(ss: seq<V1Snapshot>, id: string): Option<V1Snapshot> {
    if ss == [] then None
    else if ss[0].request.approvalId == id then Some(ss[0])
    else FindSnapshot(ss[1..], id)
  }

  function Supersede(r: Request, ledgerRevision: int, successorId: string): Request {
    r.(requestRevision := r.requestRevision + 1, ledgerRevision := ledgerRevision,
       state := Superseded, supersessionReference := Some(successorId))
  }

  function Replace(rs: seq<Request>, r: Request): seq<Request> {
    seq(|rs|, i requires 0 <= i < |rs| => if rs[i].requestId == r.requestId then r else rs[i])
  }

  datatype Progress = Progress(ledger: Ledger, results: seq<ReissueResult>)

  function SuccessorFor(h: Hasher, a: ReissueAdmission, l: Ledger, item: ReissueItem): Request {
    BuildRequest(h, a.batch.runId, a.observedRun + 1, l.ledgerRevision + 1, item.successor, a.batch.reissuedAt)
  }

  function ResultFor(h: Hasher, binding: SourceBinding, s: Request): ReissueResult {
    ReissueResult(binding, s.requestId, s.requestRevision, s.ledgerRevision, s.createdRunRevision,
                  s.actionDigest, h(RequestP(s)))
  }

  function V2Binding(h: Hasher, r: Request): SourceBinding {
    SourceBinding(ApprovalV2, r.requestId, Some(r.requestRevision), Some(r.ledgerRevision), Some(r.actionDigest),
                  h(RequestP(r)), None)
  }

  function V1Binding(s: V1Snapshot): SourceBinding {
    SourceBinding(HistoricalV1, s.request.approvalId, None, None, None, s.requestSha, Some(s))
  }

  /** One pass of the loop: append the successor, then mark a V2 source as superseded. */
  function ReissueOne(h: Hasher, a: ReissueAdmission, legacy: seq<V1Snapshot>, p: Progress,
                      item: ReissueItem, source: Source): Result<Progress, BuildError> {
    var proposed := SuccessorFor(h, a, p.ledger, item);
    var next := p.ledger.ledgerRevision + 1;
    if !RequestValid(h, proposed) then Err(SchemaViolation)
    else
      var added := AddRequest(h, p.ledger, proposed);
      if added.AddRefused? then Err(added.error)
      else
        var l := if added.Added? then added.ledger else p.ledger;
        var s := if added.Added? then proposed else added.existing;
        match source
        case V2Source(r) =>
          var marked := l.(requests := SortBy(Replace(l.requests, Supersede(r, next, s.requestId)), RequestLe));
          Ok(Progress(marked, p.results + [ResultFor(h, V2Binding(h, r), s)]))
        case V1Source(v) =>
          match FindSnapshot(legacy, v.approvalId)
          case None => Err(SchemaViolation)
          case Some(snapshot) => Ok(Progress(l, p.results + [ResultFor(h, V1Binding(snapshot), s)]))
  }

  function ReissueAll(h: Hasher, a: ReissueAdmission, legacy: seq<V1Snapshot>, start: Ledger, k: nat)
    : Result<Progress, BuildError>
    requires k <= |a.batch.items| == |a.sources|
  {
    if k == 0 then Ok(Progress(start, []))
    else
      match ReissueAll(h, a, legacy, start, k - 1)
      case Err(e) => Err(e)
      case Ok(p) => ReissueOne(h, a, legacy, p, a.batch.items[k - 1], a.sources[k - 1])
  }

  function StartLedger(a: ReissueAdmission): Ledger {
    if a.state == None then EmptyLedger(a.batch.runId) else a.state.value.files.ledger
  }

  function ReissueOutcomeFrom(h: Hasher, a: ReissueAdmission, p: Progress): ReissueOutcome {
    var b := a.batch;
    ReissueOutcome(b.runId, b.reissueId, b.idempotencyKey, h(ReissueBatchP(b)), a.observedRun, a.observedRun + 1,
                   StartLedger(a).ledgerRevision, p.ledger.ledgerRevision,
                   SortBy(p.results, ReissueResultLe), PendingCount(p.ledger.requests), b.reissuedAt)
  }

  function PriorReissues(a: ReissueAdmission): seq<ReissueRecord> {
    if a.state == None then [] else a.state.value.files.reissues
  }

  function ReissueRecordFrom(h: Hasher, a: ReissueAdmission, legacy: seq<V1Snapshot>, p: Progress): ReissueRecord {
    var b, o, prior := a.batch, ReissueOutcomeFrom(h, a, p), PriorReissues(a);
    var partial := ReissueRecord(
      |prior| + 1, ReissueHead(prior), b.runId, b.reissueId, b.idempotencyKey, b, h(ReissueBatchP(b)),
      a.manifestSha, a.pointerSha, if a.state == None then None else Some(a.state.value.ledgerSha),
      legacy, o, h(ReissueOutcomeP(o)), h(LedgerP(p.ledger)), b.reissuedAt, "");
    partial.(recordSha := ReissueRecordHash(h, partial))
  }

  function ReissueFilesFrom(h: Hasher, a: ReissueAdmission, legacy: seq<V1Snapshot>, p: Progress): Files {
    Files(p.ledger,
          if a.state == None then [] else a.state.value.files.decisions,
          if a.state == None then [] else a.state.value.files.events,
          PriorReissues(a) + [ReissueRecordFrom(h, a, legacy, p)])
  }

  function ReissueFiles(h: Hasher, a: ReissueAdmission): Result<Files, BuildError>
    requires |a.batch.items| == |a.sources|
  {
    var legacy := LegacyProjection(h, a.batch.runId, a.legacy);
    match ReissueAll(h, a, legacy, StartLedger(a), |a.batch.items|)
    case Err(e) => Err(e)
    case Ok(p) =>
      if LedgerValid(h, p.ledger) && ReissueOutcomeValid(h, ReissueOutcomeFrom(h, a, p))
         && ReissueRecordValid(h, ReissueRecordFrom(h, a, legacy, p))
      then Ok(ReissueFilesFrom(h, a, legacy, p))
      else Err(SchemaViolation)
  }

  method BuildReissueUpdate(h: Hasher, a: ReissueAdmission) returns (update: Result<Files, BuildError>)
    requires |a.batch.items| == |a.sources|
    ensures update == ReissueFiles(h, a)
  {
    hide LedgerValid, ReissueOutcomeValid, ReissueRecordValid, ReissueOne, LegacyProjection, PendingCount;
    var legacy := LegacyProjection(h, a.batch.runId, a.legacy);
    var ledger := StartLedger(a);
    var results: seq<ReissueResult> := [];
    for k := 0 to |a.batch.items|
      invariant ReissueAll(h, a, legacy, StartLedger(a), k) == Ok(Progress(ledger, results))
      invariant forall j :: 0 <= j <= k ==> ReissueAll(h, a, legacy, StartLedger(a), j).Ok?
    {
      var one := ReissueOne(h, a, legacy, Progress(ledger, results), a.batch.items[k], a.sources[k]);
      assert ReissueAll(h, a, legacy, StartLedger(a), k + 1) == one;
      if one.Err? {
        ErrorsPersist(h, a, legacy, StartLedger(a), k + 1, |a.batch.items|);
        return Err(one.error);
      }
      ledger, results := one.value.ledger, one.value.results;
    }
    var p := Progress(ledger, results);
    if !LedgerValid(h, ledger) { return Err(SchemaViolation); }
    var outcome := ReissueOutcomeFrom(h, a, p);
    if !ReissueOutcomeValid(h, outcome) { return Err(SchemaViolation); }
    var record := ReissueRecordFrom(h, a, legacy, p);
    if !ReissueRecordValid(h, record) { return Err(SchemaViolation); }
    return Ok(ReissueFilesFrom(h, a, legacy, p));
  }

  lemma {:induction false} ErrorsPersist(h: Hasher, a: ReissueAdmission, legacy: seq<V1Snapshot>, start: Ledger,
                                        j: nat, k: nat)
    requires j <= k <= |a.batch.items| == |a.sources|
    requires ReissueAll(h, a, legacy, start, j).Err?
    ensures ReissueAll(h, a, legacy, start, k) == ReissueAll(h, a, legacy, start, j)
  {
    if j < k {
      ErrorsPersist(h, a, legacy, start, j, k - 1);
    }
  }
}
