/** The bridge that runs the five serial roles: append-only revisions, the controller's two mutations
    and the replay every read goes through. */
module RoleBridge {
  import opened Basics

  type Time = int
  type Sha = string

  const ROLE_COUNT := 5
  type Role = r: int | 0 <= r < 5 witness 0

  const CONFIRMATION_LIFETIME := 900
  const ASSIGNMENT_LIFETIME := 604800

  datatype Effect =
    Succeeded | NotLaunched | Launched | Failed | TimedOut | Cancelled | CancelUnconfirmed | EffectUnknown

  datatype Status =
    | ApprovalRequired | InProgress | AllSucceeded
    | RunFailed | RunTimedOut | RunCancelled | RunCancelUnconfirmed | RunEffectUnknown

  /** A role request, with everything a confirmation must repeat folded into one signature. */
  datatype Request = Request(sig: Sha, expiresAt: Time)

  datatype Ids = Ids(authority: string, confirmationId: string, key: string)

  datatype Confirmation = Confirmation(ids: Ids, requestSig: Sha, confirmedAt: Time, expiresAt: Time)

  datatype Artifacts = Artifacts(requests: map<Role, Request>, confirmations: map<Role, Confirmation>,
                                 admissions: map<Role, Time>, audits: map<Role, Effect>)

  datatype Shas = Shas(manifest: Sha, inventory: Sha, pointer: Sha)

  datatype Revision = Revision(number: int, status: Status, art: Artifacts, shas: Shas,
                               previousManifest: Option<Sha>, expectedPointer: Option<Sha>)

  type Bridge = seq<Revision>

  predicate Open(s: Status) { s == ApprovalRequired || s == InProgress }

  predicate Done(a: Artifacts, r: Role) { r in a.audits && a.audits[r] == Succeeded }

  predicate DoneBefore(a: Artifacts, n: int) { forall q: Role :: q < n ==> Done(a, q) }

  predicate OpenAdmission(a: Artifacts, r: Role) { r in a.admissions && r !in a.audits }

  predicate Failure(a: Artifacts, r: Role) { r in a.audits && a.audits[r] != Succeeded }

  // ------------------------------------------------------------------ replay

  function StatusExpected(e: Effect): Status {
    match e
    case Succeeded => AllSucceeded
    case NotLaunched => RunFailed
    case Launched => RunEffectUnknown
    case Failed => RunFailed
    case TimedOut => RunTimedOut
    case Cancelled => RunCancelled
    case CancelUnconfirmed => RunCancelUnconfirmed
    case EffectUnknown => RunEffectUnknown
  }

  predicate Admissible(q: Request, c: Confirmation, at: Time) {
    c.requestSig == q.sig && c.confirmedAt <= at < c.expiresAt && at < q.expiresAt
  }

  /** The artifacts of one role, given which roles succeeded before it. */
  predicate RoleOk(a: Artifacts, r: Role) {
    && (r in a.confirmations ==> r in a.requests && a.confirmations[r].requestSig == a.requests[r].sig)
    && (r in a.admissions ==>
          && r in a.confirmations && DoneBefore(a, r)
          && Admissible(a.requests[r], a.confirmations[r], a.admissions[r]))
    && (r in a.audits ==> r in a.admissions)
  }

  predicate AtMostOne(a: Artifacts) {
    && (forall r: Role, q: Role :: OpenAdmission(a, r) && OpenAdmission(a, q) ==> r == q)
    && (forall r: Role, q: Role :: Failure(a, r) && Failure(a, q) ==> r == q)
  }

  predicate Dependents(a: Artifacts) {
    && (3 in a.requests <==> DoneBefore(a, 3))
    && (4 in a.requests <==> DoneBefore(a, 4))
  }

  predicate StatusOk(s: Status, a: Artifacts) {
    && (s == AllSucceeded <==> DoneBefore(a, 5))
    && (forall r: Role :: Failure(a, r) ==> s == StatusExpected(a.audits[r]))
    && ((forall r: Role :: !Failure(a, r)) ==> Open(s) || s == AllSucceeded)
  }

  /** What replay asks of the artifacts alone. */
  predicate Coherent(a: Artifacts) {
    (forall r: Role :: RoleOk(a, r)) && AtMostOne(a) && Dependents(a)
  }

  predicate ReplayOk(v: Revision) {
    Coherent(v.art) && StatusOk(v.status, v.art)
  }

  /** The first role that has not succeeded, or 5. */
  function Pending(a: Artifacts): (n: nat)
    ensures n <= 5 && DoneBefore(a, n) && (n < 5 ==> !Done(a, n))
  {
    PendingFrom(a, 0)
  }

  function PendingFrom(a: Artifacts, n: nat): (m: nat)
    requires n <= 5 && DoneBefore(a, n)
    ensures n <= m <= 5 && DoneBefore(a, m) && (m < 5 ==> !Done(a, m))
    decreases 5 - n
  {
    if n < 5 && Done(a, n) then PendingFrom(a, n + 1) else n
  }

  predicate Unreconciled(e: Effect) { e == Launched || e == CancelUnconfirmed || e == EffectUnknown }

  predicate NeedsReconciliation(a: Artifacts) {
    exists r: Role :: OpenAdmission(a, r) || (Failure(a, r) && Unreconciled(a.audits[r]))
  }

  datatype Replayed = Replayed(status: Status, pending: nat, reconcile: bool)

  function ReplayOf(v: Revision): Replayed {
    Replayed(v.status, Pending(v.art), NeedsReconciliation(v.art))
  }

  /** The loop over the roles in order; `completed` stays the number of roles that succeeded. */
  method Replay(v: Revision) returns (r: Option<Replayed>)
    ensures r.Some? <==> ReplayOk(v)
    ensures r.Some? ==> r.value == ReplayOf(v)
  {
    var a := v.art;
    var completed := 0;
    var openAt: Option<Role> := None;
    var failureAt: Option<Role> := None;
    for n := 0 to 5
      invariant 0 <= completed <= n && DoneBefore(a, completed)
      invariant completed < n ==> !Done(a, completed)
      invariant forall q: Role :: q < n ==> RoleOk(a, q)
      invariant forall q: Role :: q < n ==> (OpenAdmission(a, q) <==> openAt == Some(q))
      invariant forall q: Role :: q < n ==> (Failure(a, q) <==> failureAt == Some(q))
      invariant openAt.Some? ==> openAt.value < n
      invariant failureAt.Some? ==> failureAt.value < n
    {
      var role: Role := n;
      if role in a.confirmations && (role !in a.requests || a.confirmations[role].requestSig != a.requests[role].sig) {
        assert !RoleOk(a, role);
        return None;
      }
      if role in a.admissions {
        if role !in a.confirmations { assert !RoleOk(a, role); return None; }
        if completed != n { assert !DoneBefore(a, role); assert !RoleOk(a, role); return None; }
        if !Admissible(a.requests[role], a.confirmations[role], a.admissions[role]) {
          assert !RoleOk(a, role);
          return None;
        }
      } else if role in a.audits {
        assert !RoleOk(a, role);
        return None;
      }
      if role in a.admissions && role !in a.audits {
        if openAt.Some? {
          assert OpenAdmission(a, role) && OpenAdmission(a, openAt.value);
          return None;
        }
        openAt := Some(role);
      }
      if role in a.audits {
        if a.audits[role] == Succeeded {
          completed := completed + 1;
        } else {
          if failureAt.Some? {
            assert Failure(a, role) && Failure(a, failureAt.value);
            return None;
          }
          failureAt := Some(role);
        }
      }
    }
    if !Dependents(a) { return None; }
    if (v.status == AllSucceeded) != (completed == 5) { return None; }
    if failureAt.Some? {
      if v.status != StatusExpected(a.audits[failureAt.value]) { return None; }
    } else if v.status != AllSucceeded && !Open(v.status) {
      return None;
    }
    var reconcile := openAt.Some? || (failureAt.Some? && Unreconciled(a.audits[failureAt.value]));
    PendingUnique(a, completed);
    return Some(Replayed(v.status, completed, reconcile));
  }

  lemma {:induction false} PendingUnique(a: Artifacts, n: nat)
    requires n <= 5 && DoneBefore(a, n) && (n < 5 ==> !Done(a, n))
    ensures Pending(a) == n
  {
  }

  // ------------------------------------------------------------------ the controller

  function Last(b: Bridge): Revision
    requires b != []
  {
    b[|b| - 1]
  }

  function Publish(b: Bridge, status: Status, art: Artifacts, shas: Shas): Bridge
    requires b != []
  {
    b + [Revision(Last(b).number + 1, status, art, shas, Some(Last(b).shas.manifest), Some(Last(b).shas.pointer))]
  }

  /** Either identifier already appears in some confirmation of the run. */
  predicate Reused(a: Artifacts, ids: Ids) {
    exists r: Role :: r in a.confirmations
      && (a.confirmations[r].ids.confirmationId == ids.confirmationId || a.confirmations[r].ids.key == ids.key)
  }

  /** `confirm_role`; `claimed` says whether the store-wide identifier registry let the claim through. */
  function ConfirmRole(b: Bridge, r: Role, ids: Ids, now: Time, claimed: bool, shas: Shas): Option<Bridge>
    requires b != []
  {
    var a := Last(b).art;
    if !Open(Last(b).status) || r !in a.requests || Reused(a, ids) then None
    else
      var expiresAt := Min(a.requests[r].expiresAt, now + CONFIRMATION_LIFETIME);
      if expiresAt <= now || !claimed || r in a.confirmations then None
      else
        var c := Confirmation(ids, a.requests[r].sig, now, expiresAt);
        Some(Publish(b, ApprovalRequired, a.(confirmations := a.confirmations[r := c]), shas))
  }

  /** How an execution ended: the process died after the admission, or an audit was published. */
  datatype Outcome = LeftOpen | Finished(effect: Effect, dependentSig: Sha, at: Time, shas: Shas)

  /** The controller files every failure it has no name for as `failed`. */
  function StatusPublished(r: Role, e: Effect): Status {
    match e
    case Succeeded => if r == 2 || r == 3 then ApprovalRequired else if r == 4 then AllSucceeded else InProgress
    case TimedOut => RunTimedOut
    case Cancelled => RunCancelled
    case CancelUnconfirmed => RunCancelUnconfirmed
    case EffectUnknown => RunEffectUnknown
    case _ => RunFailed
  }

  predicate Executable(b: Bridge, r: Role, at: Time)
    requires b != []
  {
    var a := Last(b).art;
    && Open(Last(b).status) && r in a.requests && DoneBefore(a, r) && r !in a.audits
    && r in a.confirmations && r !in a.admissions
    && Admissible(a.requests[r], a.confirmations[r], at)
  }

  function Admit(b: Bridge, r: Role, at: Time, shas: Shas): Bridge
    requires b != []
  {
    Publish(b, InProgress, Last(b).art.(admissions := Last(b).art.admissions[r := at]), shas)
  }

  function Audit(b: Bridge, r: Role, o: Outcome): Bridge
    requires b != [] && o.Finished?
  {
    var a := Last(b).art;
    var requests :=
      if o.effect == Succeeded && (r == 2 || r == 3)
      then a.requests[r + 1 := Request(o.dependentSig, o.at + ASSIGNMENT_LIFETIME)] else a.requests;
    Publish(b, StatusPublished(r, o.effect), a.(requests := requests, audits := a.audits[r := o.effect]), o.shas)
  }

  function ExecuteRole(b: Bridge, r: Role, at: Time, shas: Shas, o: Outcome): Option<Bridge>
    requires b != []
  {
    if !Executable(b, r, at) then None
    else
      var admitted := Admit(b, r, at, shas);
      if o.LeftOpen? then Some(admitted) else Some(Audit(admitted, r, o))
  }

  // ------------------------------------------------------------------ reachable bridges

  /** Nothing published is ever taken back or changed. */
  predicate Extends(earlier: Artifacts, later: Artifacts) {
    && (forall r :: r in earlier.requests ==> r in later.requests && later.requests[r] == earlier.requests[r])
    && (forall r :: r in earlier.confirmations ==> r in later.confirmations && later.confirmations[r] == earlier.confirmations[r])
    && (forall r :: r in earlier.admissions ==> r in later.admissions && later.admissions[r] == earlier.admissions[r])
    && (forall r :: r in earlier.audits ==> r in later.audits && later.audits[r] == earlier.audits[r])
  }

  predicate Linked(p: Revision, v: Revision) {
    && Open(p.status) && v.number == p.number + 1
    && v.previousManifest == Some(p.shas.manifest) && v.expectedPointer == Some(p.shas.pointer)
    && Extends(p.art, v.art)
  }

  predicate Chained(b: Bridge) {
    && b != [] && b[0].number == 1
    && forall i :: 0 < i < |b| ==> Linked(b[i - 1], b[i])
  }

  /** One revision for the plan and one for each confirmation, admission and audit. */
  predicate Accounted(b: Bridge)
    requires b != []
  {
    var a := Last(b).art;
    |b| == 1 + |a.confirmations| + |a.admissions| + |a.audits|
  }

  predicate BridgeOk(b: Bridge) {
    Chained(b) && ReplayOk(Last(b)) && Accounted(b)
  }

  function Prepared(requests: map<Role, Request>, shas: Shas): Bridge {
    [Revision(1, ApprovalRequired, Artifacts(requests, map[], map[], map[]), shas, None, None)]
  }

  lemma {:induction false} PreparedOk(requests: map<Role, Request>, shas: Shas)
    requires requests.Keys == {0, 1, 2}
    ensures BridgeOk(Prepared(requests, shas))
  {
    var a := Artifacts(requests, map[], map[], map[]);
    assert !Done(a, 0) && !Done(a, 1) && !Done(a, 2) && !Done(a, 3) && !Done(a, 4);
  }

  lemma {:induction false} PublishChained(b: Bridge, status: Status, art: Artifacts, shas: Shas)
    requires Chained(b) && Open(Last(b).status) && Extends(Last(b).art, art)
    ensures Chained(Publish(b, status, art, shas))
    ensures b <= Publish(b, status, art, shas) && Last(Publish(b, status, art, shas)).art == art
    ensures Last(Publish(b, status, art, shas)).status == status
  {
    var b' := Publish(b, status, art, shas);
    forall i | 0 < i < |b'|
      ensures Linked(b'[i - 1], b'[i])
    {
      if i < |b| { assert b'[i] == b[i] && b'[i - 1] == b[i - 1]; }
    }
  }

  lemma {:induction false} ConfirmKeeps(b: Bridge, r: Role, ids: Ids, now: Time, claimed: bool, shas: Shas)
    requires BridgeOk(b) && ConfirmRole(b, r, ids, now, claimed, shas).Some?
    ensures var b' := ConfirmRole(b, r, ids, now, claimed, shas).value;
            BridgeOk(b') && b <= b' && |b'| == |b| + 1
  {
    var b' := ConfirmRole(b, r, ids, now, claimed, shas).value;
    var a, a' := Last(b).art, Last(b').art;
    PublishChained(b, ApprovalRequired, a', shas);
    assert a'.audits == a.audits && a'.admissions == a.admissions && a'.requests == a.requests;
    assert forall q: Role :: (Done(a', q) <==> Done(a, q)) && (Failure(a', q) <==> Failure(a, q));
    assert forall q: Role :: OpenAdmission(a', q) <==> OpenAdmission(a, q);
    forall q: Role
      ensures RoleOk(a', q)
    {
      assert RoleOk(a, q);
    }
  }

  lemma {:induction false} OpenHasNoFailure(v: Revision)
    requires StatusOk(v.status, v.art) && Open(v.status)
    ensures forall r: Role :: !Failure(v.art, r)
    ensures !DoneBefore(v.art, 5)
  {
  }

  lemma {:induction false} AdmitKeeps(b: Bridge, r: Role, at: Time, shas: Shas)
    requires BridgeOk(b) && Executable(b, r, at)
    ensures var b' := Admit(b, r, at, shas);
            BridgeOk(b') && b <= b' && |b'| == |b| + 1 && OpenAdmission(Last(b').art, r)
  {
    var b' := Admit(b, r, at, shas);
    var a, a' := Last(b).art, Last(b').art;
    PublishChained(b, InProgress, a', shas);
    OpenHasNoFailure(Last(b));
    assert a'.audits == a.audits && a'.confirmations == a.confirmations && a'.requests == a.requests;
    assert forall q: Role :: (Done(a', q) <==> Done(a, q)) && (Failure(a', q) <==> Failure(a, q));
    forall q: Role | OpenAdmission(a', q)
      ensures q == r
    {
      assert RoleOk(a, q);
      assert q < r ==> Done(a, q);
      assert r < q && q in a.admissions ==> Done(a, r);
    }
    forall q: Role
      ensures RoleOk(a', q)
    {
      assert RoleOk(a, q);
    }
  }

  /** Publishing the audit of the admission just made. The controller and replay disagree on one
      effect: a role reported as merely launched is filed as failed, and replay then refuses the run. */
  lemma {:induction false} AuditKeeps(b: Bridge, r: Role, o: Outcome)
    requires BridgeOk(b) && Last(b).status == InProgress && OpenAdmission(Last(b).art, r) && o.Finished?
    ensures var b' := Audit(b, r, o);
            && Chained(b') && b <= b' && |b'| == |b| + 1
            && Accounted(b') && Coherent(Last(b').art)
            && (StatusOk(Last(b').status, Last(b').art) <==> o.effect != Launched)
            && (o.effect == Launched ==> !Open(Last(b').status))
            && (forall q: Role :: !OpenAdmission(Last(b').art, q))
  {
    var b' := Audit(b, r, o);
    var a, a' := Last(b).art, Last(b').art;
    OpenHasNoFailure(Last(b));
    assert RoleOk(a, r);
    assert Extends(a, a') by {
      assert !Done(a, r) && Dependents(a);
      assert r < 3 ==> !DoneBefore(a, 3);
      assert r < 4 ==> !DoneBefore(a, 4);
    }
    PublishChained(b, StatusPublished(r, o.effect), a', o.shas);
    assert a'.admissions == a.admissions && a'.confirmations == a.confirmations;
    assert forall q: Role :: Done(a', q) <==> Done(a, q) || (q == r && o.effect == Succeeded);
    assert forall q: Role :: Failure(a', q) <==> q == r && o.effect != Succeeded;
    forall q: Role
      ensures !OpenAdmission(a', q)
    {
      if OpenAdmission(a', q) {
        assert OpenAdmission(a, q) && q != r;
        assert false;
      }
    }
    forall q: Role
      ensures RoleOk(a', q)
    {
      assert RoleOk(a, q);
      if q in a.requests && o.effect == Succeeded && (r == 2 || r == 3) { assert a'.requests[q] == a.requests[q]; }
    }
    forall q: Role | q > r
      ensures !Done(a, q)
    {
      assert RoleOk(a, q);
      assert DoneBefore(a, q) ==> Done(a, r);
    }
    AuditDependents(a, a', r, o.effect);
    AuditStatus(a, a', r, o.effect);
  }

  lemma {:induction false} AuditDependents(a: Artifacts, a': Artifacts, r: Role, e: Effect)
    requires Dependents(a) && DoneBefore(a, r) && forall q: Role :: q >= r ==> !Done(a, q)
    requires forall q: Role :: Done(a', q) <==> Done(a, q) || (q == r && e == Succeeded)
    requires 3 in a'.requests <==> 3 in a.requests || (e == Succeeded && r == 2)
    requires 4 in a'.requests <==> 4 in a.requests || (e == Succeeded && r == 3)
    ensures Dependents(a')
  {
    forall n | n == 3 || n == 4
      ensures DoneBefore(a', n) <==> if n <= r then true else n == r + 1 && e == Succeeded
    {
      assert n > r ==> (DoneBefore(a', n) ==> Done(a', r));
      if n > r + 1 { assert !Done(a', r + 1); }
    }
    assert r >= 3 ==> DoneBefore(a, 3);
    assert r < 3 ==> (DoneBefore(a, 3) ==> Done(a, r));
    assert r < 4 ==> (DoneBefore(a, 4) ==> Done(a, r));
  }

  lemma {:induction false} AuditStatus(a: Artifacts, a': Artifacts, r: Role, e: Effect)
    requires DoneBefore(a, r) && forall q: Role :: q >= r ==> !Done(a, q)
    requires forall q: Role :: Done(a', q) <==> Done(a, q) || (q == r && e == Succeeded)
    requires forall q: Role :: Failure(a', q) <==> q == r && e != Succeeded
    requires r in a'.audits && a'.audits[r] == e
    ensures StatusOk(StatusPublished(r, e), a') <==> e != Launched
  {
    assert DoneBefore(a', 5) ==> Done(a', 4) && Done(a', r);
    if e != Succeeded { assert Failure(a', r); }
  }
}
