/** Safety of the role protocol over whole runs, with crashes, replays and confirmations made behind
    the workflow's back; and what a caller can always do next. */
module RoleSafety {
  import opened Basics
  import opened RoleBridge
  import opened RoleWorkflow

  // ------------------------------------------------------------------ the invariant

  ghost predicate Sound(anchor: Sha, s: Store) {
    && BridgeOk(s.bridge) && {0, 1, 2} <= Last(s.bridge).art.requests.Keys && BindingsOk(anchor, s)
  }

  /** What holds even when replay refuses the last status: chained, coherent, receipts in order. */
  ghost predicate Steady(anchor: Sha, s: Store) {
    && Chained(s.bridge) && Accounted(s.bridge) && Coherent(Last(s.bridge).art)
    && {0, 1, 2} <= Last(s.bridge).art.requests.Keys && BindingsOk(anchor, s)
  }

  /** A run closed by a status that replay refuses. */
  ghost predicate Stuck(anchor: Sha, s: Store) {
    && Steady(anchor, s)
    && !Open(Last(s.bridge).status) && !StatusOk(Last(s.bridge).status, Last(s.bridge).art)
  }

  lemma {:induction false} SoundIsSteady(anchor: Sha, s: Store)
    ensures Sound(anchor, s) <==> Steady(anchor, s) && StatusOk(Last(s.bridge).status, Last(s.bridge).art)
  {
  }

  lemma {:induction false} NumberIsLength(b: Bridge, n: nat)
    requires Chained(b) && n < |b|
    ensures b[n].number == n + 1
  {
    if n > 0 {
      NumberIsLength(b, n - 1);
      assert Linked(b[n - 1], b[n]);
    }
  }

  lemma {:induction false} ExtendsTransitive(x: Artifacts, y: Artifacts, z: Artifacts)
    requires Extends(x, y) && Extends(y, z)
    ensures Extends(x, z)
  {
  }

  lemma {:induction false} LaterExtends(b: Bridge, i: nat, j: nat)
    requires Chained(b) && i <= j < |b|
    ensures Extends(b[i].art, b[j].art)
  {
    if i < j {
      LaterExtends(b, i, j - 1);
      assert Linked(b[j - 1], b[j]);
      ExtendsTransitive(b[i].art, b[j - 1].art, b[j].art);
    }
  }

  /** A receipt verified once verifies at every later revision. */
  lemma {:induction false} ReceiptStaysVerified(anchor: Sha, b: Bridge, b': Bridge, rc: Receipt)
    requires Verifies(anchor, b, rc) && Chained(b') && b <= b'
    ensures Verifies(anchor, b', rc)
  {
    LaterExtends(b', |b| - 1, |b'| - 1);
    assert forall i :: 0 <= i < |b| ==> b'[i] == b[i];
    assert Last(b) == b'[|b| - 1];
  }

  lemma {:induction false} ReceiptsStay(anchor: Sha, s: Store, b': Bridge)
    requires ReceiptsVerify(anchor, s) && Chained(b') && s.bridge <= b'
    ensures ReceiptsVerify(anchor, Store(b', s.receipts))
  {
    forall r: Role | r in s.receipts
      ensures s.receipts[r].role == r && Verifies(anchor, b', s.receipts[r])
    {
      ReceiptStaysVerified(anchor, s.bridge, b', s.receipts[r]);
    }
  }

  /** In a sound state every read succeeds. */
  lemma {:induction false} SoundIsReadable(w: Setup, s: Store, now: Time)
    requires Sound(w.anchor, s)
    ensures Observed(w, s, now).Ok?
    ensures var v := Last(s.bridge);
            Observed(w, s, now).value.replayed == ReplayOf(v)
            && RoleProgress(w.localOnly, v, ReplayOf(v), s.receipts.Keys, now) == Some(Observed(w, s, now).value.progress)
  {
    var v := Last(s.bridge);
    var n := Pending(v.art);
    if Open(v.status) && n < 5 {
      var r: Role := n;
      assert r in v.art.requests by {
        if r == 3 { assert DoneBefore(v.art, 3); }
        if r == 4 { assert DoneBefore(v.art, 4); }
      }
      assert !Failure(v.art, r) && RoleOk(v.art, r);
    }
  }

  // ------------------------------------------------------------------ steps

  datatype Event =
    | ConfirmEvent(call: ConfirmCall, confirmWorld: ConfirmWorld)
    | ExecuteEvent(executeWorld: ExecuteWorld)
    /** Somebody confirms a role at the bridge directly, outside the workflow. */
    | DirectConfirm(role: Role, ids: Ids, now: Time, claimed: bool, shas: Shas)

  function Next(w: Setup, s: Store, ev: Event): (s': Store)
    requires s.bridge != []
    ensures s'.bridge != []
  {
    match ev
    case ConfirmEvent(c, e) => ConfirmRoleRequest(w, s, c, e).0
    case ExecuteEvent(e) => ExecuteNextRole(w, s, e).0
    case DirectConfirm(r, ids, now, claimed, shas) =>
      var confirmed := ConfirmRole(s.bridge, r, ids, now, claimed, shas);
      if confirmed.None? then s else Store(confirmed.value, s.receipts)
  }

  /** The next role can be executed now: everything a caller can read off the store and the clocks. */
  predicate CanExecute(w: Setup, s: Store, e: ExecuteWorld)
    requires s.bridge != []
  {
    var v := Last(s.bridge);
    var n := Pending(v.art);
    && !w.localOnly && Open(v.status) && !NeedsReconciliation(v.art) && n < 5
    && n in s.receipts && n in v.art.confirmations
    && e.observedAt < v.art.confirmations[n].expiresAt && e.beforeBridge < v.art.confirmations[n].expiresAt
    && Executable(s.bridge, n, e.admittedAt)
  }

  /** The execution goes through and ends with an audit that says no more than launched. */
  predicate PublishesLaunch(w: Setup, s: Store, ev: Event)
    requires s.bridge != []
  {
    && ev.ExecuteEvent? && CanExecute(w, s, ev.executeWorld)
    && ev.executeWorld.outcome.Finished? && ev.executeWorld.outcome.effect == Launched
  }

  predicate Grows(s: Store, s': Store) {
    && s.bridge <= s'.bridge
    && forall r: Role :: r in s.receipts ==> r in s'.receipts && s'.receipts[r] == s.receipts[r]
  }

  lemma {:induction false} BridgeConfirmKeepsSound(anchor: Sha, s: Store, r: Role, ids: Ids, now: Time,
                                        claimed: bool, shas: Shas)
    requires Sound(anchor, s) && ConfirmRole(s.bridge, r, ids, now, claimed, shas).Some?
    ensures var b' := ConfirmRole(s.bridge, r, ids, now, claimed, shas).value;
            && Sound(anchor, Store(b', s.receipts)) && s.bridge <= b'
            && Last(b').art.requests == Last(s.bridge).art.requests
            && Last(b').art.admissions == Last(s.bridge).art.admissions
            && Last(b').art.audits == Last(s.bridge).art.audits
  {
    hide Verifies, ReplayOk, Accounted;
    var b' := ConfirmRole(s.bridge, r, ids, now, claimed, shas).value;
    ConfirmKeeps(s.bridge, r, ids, now, claimed, shas);
    ReceiptsStay(anchor, s, b');
    assert forall q: Role :: NeedsReceipt(Last(b').art, q) <==> NeedsReceipt(Last(s.bridge).art, q);
  }

  /** The receipt written after a confirmation verifies, with equal preview and confirmed revisions
      when the confirmation was already there. */
  lemma {:induction false} MadeReceiptVerifies(w: Setup, b: Bridge, b': Bridge, r: Role)
    requires Chained(b) && Chained(b') && (b' == b || (|b'| == |b| + 1 && b <= b'))
    requires r in Last(b).art.requests && r in Last(b').art.confirmations
    requires r in Last(b').art.requests && Last(b').art.requests[r] == Last(b).art.requests[r]
    requires Last(b').art.confirmations[r].requestSig == Last(b).art.requests[r].sig
    ensures Verifies(w.anchor, b', MadeReceipt(w, b, b', r))
    ensures MadeReceipt(w, b, b', r).preview.revision == |b| && MadeReceipt(w, b, b', r).confirmed.revision == |b'|
  {
    NumberIsLength(b, |b| - 1);
    NumberIsLength(b', |b'| - 1);
    assert b'[|b| - 1] == b[|b| - 1];
    if |b'| == |b| + 1 { assert Linked(b'[|b| - 1], b'[|b|]); }
  }

  lemma {:induction false} NewReceiptKeepsSound(anchor: Sha, s: Store, r: Role, rc: Receipt)
    requires Sound(anchor, s) && rc.role == r && Verifies(anchor, s.bridge, rc)
    ensures Sound(anchor, Store(s.bridge, s.receipts[r := rc]))
  {
    hide Verifies, BridgeOk;
    var s' := Store(s.bridge, s.receipts[r := rc]);
    forall q: Role | q in s'.receipts
      ensures s'.receipts[q].role == q && Verifies(anchor, s'.bridge, s'.receipts[q])
    {
    }
  }

  lemma {:induction false} ConfirmKeepsSound(w: Setup, s: Store, c: ConfirmCall, e: ConfirmWorld)
    requires Sound(w.anchor, s)
    ensures var s' := ConfirmRoleRequest(w, s, c, e).0;
            && Sound(w.anchor, s') && Grows(s, s')
            && Last(s'.bridge).art.admissions == Last(s.bridge).art.admissions
            && Last(s'.bridge).art.audits == Last(s.bridge).art.audits
  {
    hide Verifies, ReplayOk, Accounted, BindingsOk, ConfirmRole, MadeReceipt;
    SoundIsReadable(w, s, e.observedAt);
    var view := Observed(w, s, e.observedAt).value;
    var (s', fault) := ConfirmRoleRequest(w, s, c, e);
    if s' != s {
      var r, b := view.progress.next.value, s.bridge;
      var confirmed := if r in Last(b).art.confirmations then Some(b) else ConfirmRole(b, r, c.ids, e.bridgeTime, e.claimed, e.shas);
      var b' := confirmed.value;
      if b' != b {
        BridgeConfirmKeepsSound(w.anchor, s, r, c.ids, e.bridgeTime, e.claimed, e.shas);
        ConfirmKeeps(b, r, c.ids, e.bridgeTime, e.claimed, e.shas);
      }
      assert Sound(w.anchor, Store(b', s.receipts));
      if fault.None? {
        MadeReceiptVerifies(w, b, b', r);
        MadeReceiptNames(w, b, b', r);
        NewReceiptKeepsSound(w.anchor, Store(b', s.receipts), r, MadeReceipt(w, b, b', r));
      }
    }
  }

  lemma {:induction false} MadeReceiptNames(w: Setup, b: Bridge, b': Bridge, r: Role)
    requires b != [] && b' != [] && r in Last(b).art.requests && r in Last(b').art.confirmations
    ensures MadeReceipt(w, b, b', r).role == r
  {
  }

  /** In a sound state executing publishes something exactly when the guards hold, and then just the
      next role's execution. */
  lemma {:induction false} ExecutesExactlyWhen(w: Setup, s: Store, e: ExecuteWorld)
    requires Sound(w.anchor, s)
    ensures ExecuteNextRole(w, s, e).0 ==
            if CanExecute(w, s, e)
            then Store(ExecuteRole(s.bridge, Pending(Last(s.bridge).art), e.admittedAt, e.shas, e.outcome).value, s.receipts)
            else s
  {
    hide Observed, ReplayOk, Accounted, BindingsOk, Admit, Audit, NeedsReconciliation, Pending, Admissible, Ending, Reread;
    SoundIsReadable(w, s, e.observedAt);
  }

  lemma {:induction false} ExecuteKeepsSteady(w: Setup, s: Store, e: ExecuteWorld)
    requires Sound(w.anchor, s)
    ensures var s' := ExecuteNextRole(w, s, e).0;
            && Grows(s, s') && Steady(w.anchor, s')
            && if PublishesLaunch(w, s, ExecuteEvent(e)) then Stuck(w.anchor, s') else Sound(w.anchor, s')
  {
    hide Verifies, StatusOk, Accounted, Executable, ExecuteRole, ExecuteNextRole, NeedsReconciliation, Pending, Coherent;
    ExecutesExactlyWhen(w, s, e);
    SoundIsSteady(w.anchor, s);
    var s' := ExecuteNextRole(w, s, e).0;
    SoundIsSteady(w.anchor, s');
    if CanExecute(w, s, e) {
      var r: Role := Pending(Last(s.bridge).art);
      ExecutesSome(s.bridge, r, e.admittedAt, e.shas, e.outcome);
      ExecutedBridge(s.bridge, r, e.admittedAt, e.shas, e.outcome);
      ReceiptsStay(w.anchor, s, s'.bridge);
      LaterExtends(s'.bridge, |s.bridge| - 1, |s'.bridge| - 1);
      forall q: Role | NeedsReceipt(Last(s'.bridge).art, q)
        ensures q in s.receipts
      {
        assert q != r ==> NeedsReceipt(Last(s.bridge).art, q);
      }
    }
  }

  lemma {:induction false} ExecutesSome(b: Bridge, r: Role, at: Time, shas: Shas, o: Outcome)
    requires b != []
    ensures ExecuteRole(b, r, at, shas, o).Some? <==> Executable(b, r, at)
  {
  }

  lemma {:induction false} ExecutedBridge(b: Bridge, r: Role, at: Time, shas: Shas, o: Outcome)
    requires BridgeOk(b) && ExecuteRole(b, r, at, shas, o).Some?
    ensures var b' := ExecuteRole(b, r, at, shas, o).value;
            && Chained(b') && b <= b' && |b'| > |b| && Accounted(b') && Coherent(Last(b').art)
            && (if o.Finished? && o.effect == Launched
                then !Open(Last(b').status) && !StatusOk(Last(b').status, Last(b').art)
                else StatusOk(Last(b').status, Last(b').art))
            && (forall q: Role :: q != r ==> (NeedsReceipt(Last(b').art, q) <==> NeedsReceipt(Last(b).art, q)))
            && r in Last(b').art.admissions && Last(b').art.admissions[r] == at
  {
    hide Coherent, StatusOk, Accounted;
    AdmitKeeps(b, r, at, shas);
    if o.Finished? {
      AuditKeeps(Admit(b, r, at, shas), r, o);
    }
  }

  /** Every step only adds, and keeps the store readable if and only if it does not publish a launch. */
  lemma {:induction false} StepKeepsSound(w: Setup, s: Store, ev: Event)
    requires Sound(w.anchor, s)
    ensures Grows(s, Next(w, s, ev))
    ensures Sound(w.anchor, Next(w, s, ev)) <==> !PublishesLaunch(w, s, ev)
    ensures PublishesLaunch(w, s, ev) ==> Stuck(w.anchor, Next(w, s, ev))
  {
    hide BindingsOk, StatusOk, Coherent, Accounted, ConfirmRoleRequest, ExecuteNextRole, ConfirmRole, CanExecute;
    match ev
    case ConfirmEvent(c, e) => ConfirmKeepsSound(w, s, c, e);
    case ExecuteEvent(e) => ExecuteKeepsSteady(w, s, e); SoundIsSteady(w.anchor, Next(w, s, ev));
    case DirectConfirm(r, ids, now, claimed, shas) =>
      if ConfirmRole(s.bridge, r, ids, now, claimed, shas).Some? {
        BridgeConfirmKeepsSound(w.anchor, s, r, ids, now, claimed, shas);
      }
  }

  /** Nothing moves in a stuck run, and nothing can be read from it. */
  lemma {:induction false} StuckStays(w: Setup, s: Store, ev: Event, now: Time)
    requires Stuck(w.anchor, s)
    ensures Next(w, s, ev) == s && Observed(w, s, now) == Err(BridgeFault) && !PublishesLaunch(w, s, ev)
  {
  }

  // ------------------------------------------------------------------ whole runs

  /** A run: the prepared bridge with no receipts, then any events whatever. */
  ghost predicate IsRun(w: Setup, states: seq<Store>, events: seq<Event>) {
    && |states| == |events| + 1
    && (exists requests: map<Role, Request>, shas: Shas ::
          requests.Keys == {0, 1, 2} && states[0] == Store(Prepared(requests, shas), map[]))
    && forall i :: 0 <= i < |events| ==> states[i].bridge != [] && states[i + 1] == Next(w, states[i], events[i])
  }

  lemma {:induction false} StartIsSound(w: Setup, requests: map<Role, Request>, shas: Shas)
    requires requests.Keys == {0, 1, 2}
    ensures Sound(w.anchor, Store(Prepared(requests, shas), map[]))
  {
    PreparedOk(requests, shas);
  }

  lemma {:induction false} RunStep(w: Setup, s: Store, ev: Event)
    requires Sound(w.anchor, s) || Stuck(w.anchor, s)
    ensures var s' := Next(w, s, ev);
            && (Sound(w.anchor, s') || Stuck(w.anchor, s')) && Grows(s, s')
            && (Sound(w.anchor, s') <==> Sound(w.anchor, s) && !PublishesLaunch(w, s, ev))
  {
    hide BindingsOk, Coherent, Accounted, PublishesLaunch, Next;
    if Sound(w.anchor, s) {
      StepKeepsSound(w, s, ev);
    } else {
      StuckStays(w, s, ev, 0);
    }
  }

  /** Every state of every run is readable until a launch is published, and stuck from then on. */
  lemma {:induction false} RunsAreSoundOrStuck(w: Setup, states: seq<Store>, events: seq<Event>, n: nat)
    requires IsRun(w, states, events) && n < |states|
    ensures Sound(w.anchor, states[n]) || Stuck(w.anchor, states[n])
    ensures Sound(w.anchor, states[n]) <==> forall i :: 0 <= i < n ==> !PublishesLaunch(w, states[i], events[i])
  {
    hide Sound, Stuck, Next, PublishesLaunch, Prepared;
    if n == 0 {
      var requests: map<Role, Request>, shas: Shas :|
        requests.Keys == {0, 1, 2} && states[0] == Store(Prepared(requests, shas), map[]);
      StartIsSound(w, requests, shas);
    } else {
      RunsAreSoundOrStuck(w, states, events, n - 1);
      RunStep(w, states[n - 1], events[n - 1]);
    }
  }

  /** Later states of any run only add to earlier ones. */
  lemma {:induction false} RunsGrow(w: Setup, states: seq<Store>, events: seq<Event>, m: nat, n: nat)
    requires IsRun(w, states, events) && m <= n < |states|
    ensures Grows(states[m], states[n])
  {
    hide Sound, Stuck, Next, PublishesLaunch, Prepared;
    if m < n {
      RunsGrow(w, states, events, m, n - 1);
      RunsAreSoundOrStuck(w, states, events, n - 1);
      RunStep(w, states[n - 1], events[n - 1]);
    }
  }

  lemma {:induction false} RunsAreSteady(w: Setup, states: seq<Store>, events: seq<Event>, n: nat)
    requires IsRun(w, states, events) && n < |states|
    ensures Steady(w.anchor, states[n])
  {
    hide Next, PublishesLaunch, Prepared, BindingsOk, Coherent, Accounted, StatusOk;
    RunsAreSoundOrStuck(w, states, events, n);
    SoundIsSteady(w.anchor, states[n]);
  }

  /** In any run a receipt on disk stays there unchanged and verifies in every later state. */
  lemma {:induction false} ReceiptsAreForever(w: Setup, states: seq<Store>, events: seq<Event>, m: nat, n: nat, r: Role)
    requires IsRun(w, states, events) && m <= n < |states|
    requires r in states[m].receipts
    ensures r in states[n].receipts && states[n].receipts[r] == states[m].receipts[r]
    ensures Verifies(w.anchor, states[n].bridge, states[m].receipts[r])
  {
    hide Next, Prepared, Verifies, Coherent, Accounted;
    RunsGrow(w, states, events, m, n);
    RunsAreSteady(w, states, events, n);
  }

  // ------------------------------------------------------------------ order of the roles

  /** Admitted roles are an initial segment of the order; all but the last of them succeeded. */
  lemma {:induction false} AdmittedInOrder(anchor: Sha, s: Store, r: Role, q: Role)
    requires Steady(anchor, s) && r in Last(s.bridge).art.admissions && q < r
    ensures q in Last(s.bridge).art.admissions && Done(Last(s.bridge).art, q)
    ensures q in s.receipts && r in s.receipts
  {
    var a := Last(s.bridge).art;
    assert RoleOk(a, r) && RoleOk(a, q);
    assert DoneBefore(a, r);
    assert Done(a, q);
    assert NeedsReceipt(a, q) && NeedsReceipt(a, r);
  }

  /** A role is admitted only by the execute operation, when all earlier roles succeeded, with a
      verified receipt already on disk and inside the confirmation's window; and only once. */
  lemma {:induction false} AdmissionNeedsReceipt(w: Setup, s: Store, ev: Event, r: Role)
    requires Sound(w.anchor, s) || Stuck(w.anchor, s)
    requires r !in Last(s.bridge).art.admissions && r in Last(Next(w, s, ev).bridge).art.admissions
    ensures ev.ExecuteEvent? && !w.localOnly
    ensures r == Pending(Last(s.bridge).art) && DoneBefore(Last(s.bridge).art, r)
    ensures r in s.receipts && Verifies(w.anchor, s.bridge, s.receipts[r])
    ensures var c := s.receipts[r].confirmation; c.confirmedAt <= ev.executeWorld.admittedAt < c.expiresAt
  {
    hide ReplayOk, Accounted, ConfirmRole;
    if Stuck(w.anchor, s) {
      StuckStays(w, s, ev, 0);
    }
    match ev
    case ConfirmEvent(c, e) => ConfirmKeepsSound(w, s, c, e);
    case DirectConfirm(q, ids, now, claimed, shas) =>
      if ConfirmRole(s.bridge, q, ids, now, claimed, shas).Some? {
        BridgeConfirmKeepsSound(w.anchor, s, q, ids, now, claimed, shas);
      }
    case ExecuteEvent(e) =>
      SoundIsReadable(w, s, e.observedAt);
      var q := Observed(w, s, e.observedAt).value.progress.next.value;
      ExecutedAdmissions(s.bridge, q, e.admittedAt, e.shas, e.outcome);
      assert r == q;
  }

  lemma {:induction false} ExecutedAdmissions(b: Bridge, r: Role, at: Time, shas: Shas, o: Outcome)
    requires b != [] && ExecuteRole(b, r, at, shas, o).Some?
    ensures var b' := ExecuteRole(b, r, at, shas, o).value;
            b' != [] && Last(b').art.admissions == Last(b).art.admissions[r := at]
    ensures Executable(b, r, at)
  {
  }

  /** At most sixteen revisions, the plan and three per role, and exactly sixteen once all roles are done. */
  lemma {:induction false} SixteenRevisions(anchor: Sha, s: Store)
    requires Steady(anchor, s)
    ensures |s.bridge| <= 16
    ensures DoneBefore(Last(s.bridge).art, 5) ==> |s.bridge| == 16
  {
    var a := Last(s.bridge).art;
    RolesAreFive(a.confirmations.Keys);
    RolesAreFive(a.admissions.Keys);
    RolesAreFive(a.audits.Keys);
    if DoneBefore(a, 5) {
      forall r: Role
        ensures r in a.audits && r in a.admissions && r in a.confirmations
      {
        assert Done(a, r) && RoleOk(a, r);
      }
    }
  }

  lemma {:induction false} RunsFitSixteen(w: Setup, states: seq<Store>, events: seq<Event>, n: nat)
    requires IsRun(w, states, events) && n < |states|
    ensures |states[n].bridge| <= 16
  {
    hide IsRun, Steady;
    RunsAreSteady(w, states, events, n);
    SixteenRevisions(w.anchor, states[n]);
  }

  lemma {:induction false} RolesAreFive(s: set<Role>)
    ensures |s| <= 5
    ensures (forall r: Role :: r in s) ==> |s| == 5
  {
    var all: set<Role> := {0, 1, 2, 3, 4};
    assert s <= all by {
      forall r | r in s ensures r in all { assert r == 0 || r == 1 || r == 2 || r == 3 || r == 4; }
    }
    SubsetCardinality(s, all);
    if forall r: Role :: r in s {
      assert s == all;
    }
  }

  // ------------------------------------------------------------------ crashes

  /** The store after any events at all. */
  function After(w: Setup, s: Store, events: seq<Event>): (s': Store)
    requires s.bridge != []
    ensures s'.bridge != []
  {
    if events == [] then s else Next(w, After(w, s, events[..|events| - 1]), events[|events| - 1])
  }

  /** No role moved: the receipts, admissions and audits are those of before. */
  predicate Frozen(s: Store, s': Store)
    requires s.bridge != [] && s'.bridge != []
  {
    && s'.receipts == s.receipts
    && Last(s'.bridge).art.admissions == Last(s.bridge).art.admissions
    && Last(s'.bridge).art.audits == Last(s.bridge).art.audits
  }

  /** One event while an admission is open: the workflow refuses, and a confirmation made elsewhere
      moves no role. */
  lemma {:induction false} OpenAdmissionBlocks(w: Setup, s: Store, ev: Event, r: Role)
    requires Sound(w.anchor, s) && OpenAdmission(Last(s.bridge).art, r)
    ensures Sound(w.anchor, Next(w, s, ev)) && Frozen(s, Next(w, s, ev))
    ensures !ev.DirectConfirm? ==> Next(w, s, ev) == s
    ensures ev.ConfirmEvent? && !w.localOnly ==> ConfirmRoleRequest(w, s, ev.call, ev.confirmWorld).1 == Some(ReconciliationNeeded)
    ensures ev.ExecuteEvent? && !w.localOnly ==> ExecuteNextRole(w, s, ev.executeWorld).1 == Some(ReconciliationNeeded)
  {
    hide ReplayOk, Accounted, ConfirmRole, BindingsOk, ExecuteRole;
    assert NeedsReconciliation(Last(s.bridge).art);
    match ev
    case ConfirmEvent(c, e) => SoundIsReadable(w, s, e.observedAt);
    case ExecuteEvent(e) => SoundIsReadable(w, s, e.observedAt);
    case DirectConfirm(q, ids, now, claimed, shas) =>
      if ConfirmRole(s.bridge, q, ids, now, claimed, shas).Some? {
        BridgeConfirmKeepsSound(w.anchor, s, q, ids, now, claimed, shas);
      }
  }

  /** A process that died after the admission blocks the workflow for good: whatever happens from then
      on, the admission stays open, no role moves, and the store stays readable. */
  lemma {:induction false} OpenAdmissionIsFinal(w: Setup, s: Store, events: seq<Event>, r: Role)
    requires Sound(w.anchor, s) && OpenAdmission(Last(s.bridge).art, r)
    ensures var s' := After(w, s, events);
            Sound(w.anchor, s') && Frozen(s, s') && OpenAdmission(Last(s'.bridge).art, r)
  {
    hide BindingsOk, ReplayOk, Accounted, Next;
    if events != [] {
      var before := After(w, s, events[..|events| - 1]);
      OpenAdmissionIsFinal(w, s, events[..|events| - 1], r);
      OpenAdmissionBlocks(w, before, events[|events| - 1], r);
    }
  }

  /** The next role was confirmed at the bridge but its receipt was never written. */
  ghost predicate ConfirmedWithoutReceipt(w: Setup, s: Store, r: Role) {
    && Sound(w.anchor, s) && !w.localOnly && Open(Last(s.bridge).status)
    && !NeedsReconciliation(Last(s.bridge).art)
    && r == Pending(Last(s.bridge).art) && r in Last(s.bridge).art.confirmations && r !in s.receipts
  }

  lemma {:induction false} NotAdmittedYet(w: Setup, s: Store, r: Role)
    requires ConfirmedWithoutReceipt(w, s, r)
    ensures r in Last(s.bridge).art.requests && r !in Last(s.bridge).art.admissions
    ensures Last(s.bridge).art.confirmations[r].requestSig == Last(s.bridge).art.requests[r].sig
  {
    var a := Last(s.bridge).art;
    assert RoleOk(a, r);
    assert r in a.admissions ==> NeedsReceipt(a, r);
  }

  /** After such a crash, confirming again writes the missing receipt exactly when it is done with the
      recorded identifiers and the current preview, in time; the bridge is left as it is and preview
      and confirmed revision coincide. */
  lemma {:induction false} ReconfirmAfterCrash(w: Setup, s: Store, r: Role, c: ConfirmCall, e: ConfirmWorld)
    requires ConfirmedWithoutReceipt(w, s, r) && !e.crash
    ensures var a := Last(s.bridge).art;
            var (s', fault) := ConfirmRoleRequest(w, s, c, e);
            && s'.bridge == s.bridge
            && (fault.None? <==>
                  && e.observedAt < a.confirmations[r].expiresAt
                  && c.expected == Expected(w.anchor, |s.bridge|, Last(s.bridge).shas, r, a.requests[r].sig)
                  && e.beforeBridge < a.requests[r].expiresAt
                  && c.ids == a.confirmations[r].ids
                  && e.afterBridge < a.confirmations[r].expiresAt)
            && (fault.None? ==>
                  && r in s'.receipts && Verifies(w.anchor, s'.bridge, s'.receipts[r])
                  && s'.receipts[r].preview == s'.receipts[r].confirmed
                  && s'.receipts[r].confirmed.revision == |s.bridge|)
            && (fault.Some? ==> s' == s)
  {
    hide ReplayOk, Accounted, BindingsOk, ConfirmRole;
    NotAdmittedYet(w, s, r);
    SoundIsReadable(w, s, e.observedAt);
    NumberIsLength(s.bridge, |s.bridge| - 1);
    MadeReceiptVerifies(w, s.bridge, s.bridge, r);
  }

  // ------------------------------------------------------------------ bypassing the workflow

  /** One event after a role was admitted without a receipt: the workflow refuses to read, and a
      confirmation made elsewhere moves no role. */
  lemma {:induction false} BypassIsRefused(w: Setup, s: Store, ev: Event, r: Role)
    requires s.bridge != [] && NeedsReceipt(Last(s.bridge).art, r) && r !in s.receipts
    ensures Frozen(s, Next(w, s, ev))
    ensures !ev.DirectConfirm? ==> Next(w, s, ev) == s
    ensures ev.ConfirmEvent? ==> ConfirmRoleRequest(w, s, ev.call, ev.confirmWorld).1 in {Some(BindingFault), Some(BridgeFault)}
    ensures ev.ExecuteEvent? ==> ExecuteNextRole(w, s, ev.executeWorld).1 in {Some(BindingFault), Some(BridgeFault)}
  {
  }

  /** A role admitted behind the workflow's back makes it unreadable for good: no receipt is ever
      written for that role or any other, and no role moves, whatever is asked and whenever. */
  lemma {:induction false} BypassIsFinal(w: Setup, s: Store, events: seq<Event>, r: Role, now: Time)
    requires s.bridge != [] && NeedsReceipt(Last(s.bridge).art, r) && r !in s.receipts
    ensures Frozen(s, After(w, s, events)) && Observed(w, After(w, s, events), now).Err?
  {
    hide Next;
    if events != [] {
      BypassIsFinal(w, s, events[..|events| - 1], r, now);
      BypassIsRefused(w, After(w, s, events[..|events| - 1]), events[|events| - 1], r);
    }
  }

  // ------------------------------------------------------------------ progress

  /** The next role, not yet confirmed, in an open run with nothing to reconcile. */
  ghost predicate Waiting(w: Setup, s: Store, r: Role, now: Time) {
    && s.bridge != [] && Sound(w.anchor, s) && !w.localOnly && Open(Last(s.bridge).status)
    && !NeedsReconciliation(Last(s.bridge).art) && r == Pending(Last(s.bridge).art)
    && r !in Last(s.bridge).art.confirmations
    && r in Last(s.bridge).art.requests && now < Last(s.bridge).art.requests[r].expiresAt
  }

  function GrantedAt(a: Artifacts, r: Role, ids: Ids, now: Time): Confirmation
    requires r in a.requests
  {
    Confirmation(ids, a.requests[r].sig, now, Min(a.requests[r].expiresAt, now + CONFIRMATION_LIFETIME))
  }

  lemma {:induction false} ConfirmSucceeds(w: Setup, s: Store, r: Role, ids: Ids, now: Time, m: Shas, c: ConfirmCall,
                                        e: ConfirmWorld)
    requires Waiting(w, s, r, now) && !Reused(Last(s.bridge).art, ids)
    requires c == ConfirmCall(ids, Expected(w.anchor, |s.bridge|, Last(s.bridge).shas, r, Last(s.bridge).art.requests[r].sig))
    requires e == ConfirmWorld(now, now, now, now, true, m, false)
    ensures var (s1, fault) := ConfirmRoleRequest(w, s, c, e);
            var a, a1 := Last(s.bridge).art, Last(s1.bridge).art;
            && fault.None? && Sound(w.anchor, s1) && |s1.bridge| == |s.bridge| + 1 && r in s1.receipts
            && s1.receipts[r].preview.revision == |s.bridge| && s1.receipts[r].confirmed.revision == |s1.bridge|
            && Open(Last(s1.bridge).status)
            && a1 == a.(confirmations := a.confirmations[r := GrantedAt(a, r, ids, now)])
  {
    hide ReplayOk, Accounted, BindingsOk;
    PendingUnaudited(w.anchor, s, r);
    NumberIsLength(s.bridge, |s.bridge| - 1);
    SoundIsReadable(w, s, now);
    ConfirmKeepsSound(w, s, c, e);
    var s1 := ConfirmRoleRequest(w, s, c, e).0;
    NumberIsLength(s1.bridge, |s1.bridge| - 1);
  }

  lemma {:induction false} ConfirmedIsReady(w: Setup, s: Store, r: Role, ids: Ids, now: Time, m: Shas, c: ConfirmCall,
                                            e: ConfirmWorld, x: ExecuteWorld)
    requires Waiting(w, s, r, now) && !Reused(Last(s.bridge).art, ids)
    requires c == ConfirmCall(ids, Expected(w.anchor, |s.bridge|, Last(s.bridge).shas, r, Last(s.bridge).art.requests[r].sig))
    requires e == ConfirmWorld(now, now, now, now, true, m, false)
    requires x.observedAt == x.beforeBridge == x.admittedAt == now
    ensures var s1 := ConfirmRoleRequest(w, s, c, e).0;
            Sound(w.anchor, s1) && r == Pending(Last(s1.bridge).art) && CanExecute(w, s1, x)
  {
    hide Sound, ConfirmRoleRequest, Reused;
    var a := Last(s.bridge).art;
    PendingUnaudited(w.anchor, s, r);
    ConfirmSucceeds(w, s, r, ids, now, m, c, e);
    var s1 := ConfirmRoleRequest(w, s, c, e).0;
    var a1 := Last(s1.bridge).art;
    assert forall q: Role :: (Done(a1, q) <==> Done(a, q)) && (Failure(a1, q) <==> Failure(a, q))
                          && (OpenAdmission(a1, q) <==> OpenAdmission(a, q));
    PendingUnique(a1, r);
  }

  lemma {:induction false} ExecuteSucceeds(w: Setup, s: Store, r: Role, x: ExecuteWorld)
    requires Sound(w.anchor, s) && r == Pending(Last(s.bridge).art) && CanExecute(w, s, x)
    requires x.outcome.Finished? && x.outcome.effect == Succeeded
    ensures var (s', fault) := ExecuteNextRole(w, s, x);
            fault.None? && Sound(w.anchor, s') && Pending(Last(s'.bridge).art) == r + 1
  {
    hide Observed, Admit, Audit, Accounted, Coherent, StatusOk, Verifies, NeedsReconciliation, Pending;
    ExecuteKeepsSteady(w, s, x);
    EndsWell(w, s, x);
    CompletedRole(w, s, r, x);
  }

  /** An execution that goes through and leaves a sound store reports no fault. */
  lemma {:induction false} EndsWell(w: Setup, s: Store, x: ExecuteWorld)
    requires Sound(w.anchor, s) && CanExecute(w, s, x) && x.outcome.Finished?
    requires Sound(w.anchor, ExecuteNextRole(w, s, x).0)
    ensures ExecuteNextRole(w, s, x).1.None?
  {
    hide Observed, ReplayOk, Accounted, BindingsOk, Admit, Audit, NeedsReconciliation, Pending, Admissible;
    SoundIsReadable(w, s, x.observedAt);
    SoundIsReadable(w, ExecuteNextRole(w, s, x).0, x.rereadAt);
  }

  /** The next role can always be carried through: with unused identifiers and a clock inside the
      request's lifetime, one confirm and one execute complete it. */
  lemma {:induction false} NextRoleCanComplete(w: Setup, s: Store, r: Role, ids: Ids, now: Time, m: Shas, x: Shas,
                                        y: Shas, sig: Sha)
    returns (c: ConfirmCall, e: ConfirmWorld, x': ExecuteWorld)
    requires Waiting(w, s, r, now) && !Reused(Last(s.bridge).art, ids)
    ensures var (s1, fault1) := ConfirmRoleRequest(w, s, c, e);
            && fault1.None? && Sound(w.anchor, s1) && |s1.bridge| == |s.bridge| + 1 && r in s1.receipts
            && s1.receipts[r].confirmed.revision == s1.receipts[r].preview.revision + 1
            && var (s2, fault2) := ExecuteNextRole(w, s1, x');
               fault2.None? && Sound(w.anchor, s2) && Pending(Last(s2.bridge).art) == r + 1
  {
    hide Sound, ConfirmRoleRequest, ExecuteNextRole, Reused;
    var b, a := s.bridge, Last(s.bridge).art;
    c := ConfirmCall(ids, Expected(w.anchor, |b|, Last(b).shas, r, a.requests[r].sig));
    e := ConfirmWorld(now, now, now, now, true, m, false);
    x' := ExecuteWorld(now, now, now, x, Finished(Succeeded, sig, now, y), false, now);
    ConfirmSucceeds(w, s, r, ids, now, m, c, e);
    ConfirmedIsReady(w, s, r, ids, now, m, c, e, x');
    ExecuteSucceeds(w, ConfirmRoleRequest(w, s, c, e).0, r, x');
  }

  /** Where readability is lost: from any prepared bridge, confirming and executing the first role with
      a launched effect is a run whose last state is stuck and cannot be read at any time. */
  lemma {:induction false} LaunchedRun(w: Setup, requests: map<Role, Request>, shas: Shas, ids: Ids, now: Time)
    returns (states: seq<Store>, events: seq<Event>)
    requires requests.Keys == {0, 1, 2} && !w.localOnly && now < requests[0].expiresAt
    ensures IsRun(w, states, events) && |events| == 2
    ensures Sound(w.anchor, states[1]) && PublishesLaunch(w, states[1], events[1]) && Stuck(w.anchor, states[2])
    ensures forall at :: Observed(w, states[2], at) == Err(BridgeFault)
  {
    hide Sound, Stuck, ConfirmRoleRequest, ExecuteNextRole, CanExecute, Observed;
    var s0 := Store(Prepared(requests, shas), map[]);
    StartIsSound(w, requests, shas);
    PreparedWaits(w, requests, shas, ids, now);
    var c := ConfirmCall(ids, Expected(w.anchor, |s0.bridge|, Last(s0.bridge).shas, 0, requests[0].sig));
    var e := ConfirmWorld(now, now, now, now, true, shas, false);
    var x := ExecuteWorld(now, now, now, shas, Finished(Launched, "", now, shas), false, now);
    ConfirmedIsReady(w, s0, 0, ids, now, shas, c, e, x);
    events := [ConfirmEvent(c, e), ExecuteEvent(x)];
    var s1 := Next(w, s0, events[0]);
    states := [s0, s1, Next(w, s1, events[1])];
    StepKeepsSound(w, s1, events[1]);
    forall at ensures Observed(w, states[2], at) == Err(BridgeFault) { StuckStays(w, states[2], events[1], at); }
  }

  lemma {:induction false} PreparedWaits(w: Setup, requests: map<Role, Request>, shas: Shas, ids: Ids, now: Time)
    requires requests.Keys == {0, 1, 2} && !w.localOnly && now < requests[0].expiresAt
    ensures Waiting(w, Store(Prepared(requests, shas), map[]), 0, now)
    ensures !Reused(Last(Prepared(requests, shas)).art, ids)
  {
    StartIsSound(w, requests, shas);
    PendingUnique(Last(Prepared(requests, shas)).art, 0);
  }

  lemma {:induction false} PendingUnaudited(anchor: Sha, s: Store, r: Role)
    requires Sound(anchor, s) && Open(Last(s.bridge).status)
    requires r == Pending(Last(s.bridge).art) && r !in Last(s.bridge).art.confirmations
    ensures r !in Last(s.bridge).art.audits && r !in Last(s.bridge).art.admissions && r !in s.receipts
  {
    assert RoleOk(Last(s.bridge).art, r);
  }

  lemma {:induction false} CompletedRole(w: Setup, s: Store, r: Role, x: ExecuteWorld)
    requires Sound(w.anchor, s) && r == Pending(Last(s.bridge).art) && CanExecute(w, s, x)
    requires x.outcome.Finished? && x.outcome.effect == Succeeded
    ensures Pending(Last(ExecuteNextRole(w, s, x).0.bridge).art) == r + 1
  {
    hide ReplayOk, Accounted, BindingsOk, ExecuteNextRole;
    ExecutesExactlyWhen(w, s, x);
    var a, a' := Last(s.bridge).art, Last(ExecuteNextRole(w, s, x).0.bridge).art;
    assert a'.audits == a.audits[r := Succeeded];
    assert forall q: Role :: Done(a', q) <==> Done(a, q) || q == r;
    NothingDoneBeyond(w.anchor, s, r);
    PendingUnique(a', r + 1);
  }

  lemma {:induction false} NothingDoneBeyond(anchor: Sha, s: Store, r: Role)
    requires Sound(anchor, s) && r == Pending(Last(s.bridge).art)
    ensures forall q: Role :: q >= r ==> !Done(Last(s.bridge).art, q)
  {
    var a := Last(s.bridge).art;
    forall q: Role | q > r
      ensures !Done(a, q)
    {
      assert RoleOk(a, q);
      assert DoneBefore(a, q) ==> Done(a, r);
    }
  }
}
