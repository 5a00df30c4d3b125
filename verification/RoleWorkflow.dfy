/** The supervised workflow over the bridge: receipts for confirmed roles, and the confirm and
    execute operations with their crash points, each in one step. */
module RoleWorkflow {
  import opened Basics
  import opened RoleBridge

  /** A bridge revision as a receipt names it. */
  datatype Point = Point(revision: int, shas: Shas)

  /** The workflow's own proof that one role confirmation was authorized here. `anchor` stands for the
      plan, workflow confirmation and linkage digests and the authentication mode. */
  datatype Receipt = Receipt(anchor: Sha, role: Role, requestSig: Sha, confirmation: Confirmation,
                             preview: Point, confirmed: Point)

  datatype Store = Store(bridge: Bridge, receipts: map<Role, Receipt>)

  datatype Setup = Setup(anchor: Sha, localOnly: bool)

  datatype Fault =
    | BridgeFault | BindingFault | StateFault | LocalOnly | ReconciliationNeeded | ExpiredFault | OrderFault
    | ExecutionFault | Crashed

  datatype RoleState = Terminal | Running | Expired | AwaitingConfirmation | ReadyToExecute

  datatype Progress = Progress(next: Option<Role>, state: RoleState)

  datatype View = View(replayed: Replayed, progress: Progress)

  // ------------------------------------------------------------------ receipts

  predicate Snapshot(b: Bridge, p: Point) {
    1 <= p.revision <= |b| && b[p.revision - 1].shas == p.shas
  }

  predicate Verifies(anchor: Sha, b: Bridge, rc: Receipt) {
    && b != []
    && var a := Last(b).art;
       && rc.role in a.requests && rc.role in a.confirmations
       && a.confirmations[rc.role].requestSig == a.requests[rc.role].sig
       && rc.anchor == anchor && rc.requestSig == a.requests[rc.role].sig
       && rc.confirmation == a.confirmations[rc.role]
       && Snapshot(b, rc.preview) && Snapshot(b, rc.confirmed)
       && (rc.confirmed.revision != rc.preview.revision ==>
             && rc.confirmed.revision == rc.preview.revision + 1
             && b[rc.confirmed.revision - 1].previousManifest == Some(rc.preview.shas.manifest)
             && b[rc.confirmed.revision - 1].expectedPointer == Some(rc.preview.shas.pointer))
  }

  predicate ReceiptsVerify(anchor: Sha, s: Store) {
    forall r: Role :: r in s.receipts ==> s.receipts[r].role == r && Verifies(anchor, s.bridge, s.receipts[r])
  }

  predicate NeedsReceipt(a: Artifacts, r: Role) { Done(a, r) || r in a.admissions }

  predicate BindingsOk(anchor: Sha, s: Store)
    requires s.bridge != []
  {
    ReceiptsVerify(anchor, s) && forall r: Role :: NeedsReceipt(Last(s.bridge).art, r) ==> r in s.receipts
  }

  // ------------------------------------------------------------------ progress of the next role

  /** Nothing when the artifacts contradict one another. */
  function RoleProgress(localOnly: bool, v: Revision, replayed: Replayed, bound: set<Role>,
                        now: Time): Option<Progress> {
    if !Open(replayed.status) || localOnly || replayed.pending >= 5 then Some(Progress(None, Terminal))
    else
      var r: Role, a := replayed.pending, v.art;
      if r !in a.requests then None
      else if r in a.admissions && r !in a.audits then Some(Progress(Some(r), Running))
      else if r in a.confirmations && r !in a.admissions then
        if now >= a.confirmations[r].expiresAt then Some(Progress(Some(r), Expired))
        else if r !in bound then Some(Progress(Some(r), AwaitingConfirmation))
        else Some(Progress(Some(r), ReadyToExecute))
      else if r !in a.confirmations && r !in a.admissions then
        Some(Progress(Some(r), if now >= a.requests[r].expiresAt then Expired else AwaitingConfirmation))
      else None
  }

  /** One verified read of the workflow: bridge replay, receipts, progress. */
  function Observed(w: Setup, s: Store, now: Time): Result<View, Fault>
    requires s.bridge != []
  {
    var v := Last(s.bridge);
    if !Chained(s.bridge) || !ReplayOk(v) then Err(BridgeFault)
    else if !BindingsOk(w.anchor, s) then Err(BindingFault)
    else
      var p := RoleProgress(w.localOnly, v, ReplayOf(v), s.receipts.Keys, now);
      if p.None? then Err(StateFault) else Ok(View(ReplayOf(v), p.value))
  }

  // ------------------------------------------------------------------ confirming a role

  /** What the caller copied from the preview. */
  datatype Expected = Expected(anchor: Sha, revision: int, shas: Shas, role: Role, requestSig: Sha)

  datatype ConfirmCall = ConfirmCall(ids: Ids, expected: Expected)

  /** The clock at each reading, the identifier registry's answer, the digests of the new revision and
      whether the process dies between the bridge's confirmation and the receipt. */
  datatype ConfirmWorld = ConfirmWorld(observedAt: Time, beforeBridge: Time, bridgeTime: Time, afterBridge: Time,
                                       claimed: bool, shas: Shas, crash: bool)

  function PointOf(b: Bridge): Point
    requires b != []
  {
    Point(Last(b).number, Last(b).shas)
  }

  function MadeReceipt(w: Setup, b: Bridge, b': Bridge, r: Role): Receipt
    requires b != [] && b' != [] && r in Last(b).art.requests && r in Last(b').art.confirmations
  {
    Receipt(w.anchor, r, Last(b).art.requests[r].sig, Last(b').art.confirmations[r], PointOf(b), PointOf(b'))
  }

  function Admitted(v: View, wanted: RoleState): Option<Fault> {
    if v.replayed.reconcile || (wanted == ReadyToExecute && v.progress.state == Running) then Some(ReconciliationNeeded)
    else if v.progress.state == Expired then Some(ExpiredFault)
    else if v.progress.next.None? || v.progress.state != wanted then Some(StateFault)
    else None
  }

  predicate ExpectedMatches(w: Setup, b: Bridge, r: Role, x: Expected)
    requires b != [] && r in Last(b).art.requests
  {
    x == Expected(w.anchor, Last(b).number, Last(b).shas, r, Last(b).art.requests[r].sig)
  }

  function ConfirmRoleRequest(w: Setup, s: Store, c: ConfirmCall, e: ConfirmWorld): (r: (Store, Option<Fault>))
    requires s.bridge != []
    ensures r.0.bridge != []
  {
    var b := s.bridge;
    var view := Observed(w, s, e.observedAt);
    if view.Err? then (s, Some(view.error))
    else if w.localOnly then (s, Some(LocalOnly))
    else if Admitted(view.value, AwaitingConfirmation).Some? then (s, Admitted(view.value, AwaitingConfirmation))
    else
      var r := view.value.progress.next.value;
      var a := Last(b).art;
      if c.expected.role != r then (s, Some(OrderFault))
      else if r !in a.requests || !ExpectedMatches(w, b, r, c.expected) then (s, Some(BindingFault))
      else if e.beforeBridge >= a.requests[r].expiresAt then (s, Some(ExpiredFault))
      else
        var confirmed :=
          if r in a.confirmations then Some(b) else ConfirmRole(b, r, c.ids, e.bridgeTime, e.claimed, e.shas);
        if confirmed.None? then (s, Some(BindingFault))
        else
          var b' := confirmed.value;
          var s' := Store(b', s.receipts);
          if e.crash then (s', Some(Crashed))
          else if r !in Last(b').art.confirmations || Last(b').art.confirmations[r].requestSig != a.requests[r].sig
                  || Last(b').art.confirmations[r].ids != c.ids then (s', Some(BindingFault))
          else if e.afterBridge >= Last(b').art.confirmations[r].expiresAt then (s', Some(ExpiredFault))
          else if r in s.receipts then (s', Some(BindingFault))
          else (Store(b', s.receipts[r := MadeReceipt(w, b, b', r)]), None)
  }

  // ------------------------------------------------------------------ executing a role

  /** The clock at each reading, how the execution ended, and for one left open whether the workflow's
      own process died with it or was told of the failure. */
  datatype ExecuteWorld = ExecuteWorld(observedAt: Time, beforeBridge: Time, admittedAt: Time, shas: Shas,
                                       outcome: Outcome, died: bool, rereadAt: Time)

  /** After the bridge failed, a second read chooses between the three refusals. */
  function Reread(w: Setup, s: Store, now: Time): Fault
    requires s.bridge != []
  {
    var view := Observed(w, s, now);
    if view.Ok? && (view.value.replayed.reconcile || view.value.progress.state == Running) then ReconciliationNeeded
    else if view.Ok? && view.value.progress.state == Expired then ExpiredFault
    else ExecutionFault
  }

  /** The status read that ends an execution. */
  function Ending(w: Setup, s: Store, now: Time): Option<Fault>
    requires s.bridge != []
  {
    var view := Observed(w, s, now);
    if view.Err? then Some(view.error) else None
  }

  function ExecuteNextRole(w: Setup, s: Store, e: ExecuteWorld): (r: (Store, Option<Fault>))
    requires s.bridge != []
    ensures r.0.bridge != []
  {
    var b := s.bridge;
    var view := Observed(w, s, e.observedAt);
    if view.Err? then (s, Some(view.error))
    else if w.localOnly then (s, Some(LocalOnly))
    else if Admitted(view.value, ReadyToExecute).Some? then (s, Admitted(view.value, ReadyToExecute))
    else
      var r := view.value.progress.next.value;
      var a := Last(b).art;
      if r !in a.confirmations then (s, Some(BindingFault))
      else if e.beforeBridge >= a.confirmations[r].expiresAt then (s, Some(ExpiredFault))
      else
        var executed := ExecuteRole(b, r, e.admittedAt, e.shas, e.outcome);
        if executed.None? then (s, Some(Reread(w, s, e.rereadAt)))
        else
          var s' := Store(executed.value, s.receipts);
          if e.outcome.Finished? then (s', Ending(w, s', e.rereadAt))
          else (s', Some(if e.died then Crashed else Reread(w, s', e.rereadAt)))
  }
}
