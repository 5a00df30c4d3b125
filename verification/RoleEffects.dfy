/** When confirm and execute go through, what they then publish field by field, and why they refuse. */
module RoleEffects {
  import opened Basics
  import opened RoleBridge
  import opened RoleWorkflow
  import opened RoleSafety

  // ------------------------------------------------------------------ what a read tells

  /** `r` is the next role: all before it succeeded, it has not. */
  predicate NextRole(a: Artifacts, r: Role) {
    && (forall q: Role :: q < r ==> q in a.audits && a.audits[q] == Succeeded)
    && !(r in a.audits && a.audits[r] == Succeeded)
  }

  /** Some role was admitted and its end was never recorded. */
  predicate LeftHanging(a: Artifacts) {
    exists q: Role :: q in a.admissions && q !in a.audits
  }

  predicate Running(s: Status) { s == ApprovalRequired || s == InProgress }

  lemma {:induction false} NextIsPending(a: Artifacts, r: Role)
    ensures NextRole(a, r) <==> Pending(a) == r
  {
    if NextRole(a, r) { PendingUnique(a, r); }
  }

  predicate NoneMissing(a: Artifacts, n: nat) {
    forall q: Role :: q < n ==> q in a.audits && a.audits[q] == Succeeded
  }

  lemma {:induction false} DoneIs(a: Artifacts, n: nat)
    ensures DoneBefore(a, n) <==> NoneMissing(a, n)
    ensures LeftHanging(a) <==> exists q: Role :: OpenAdmission(a, q)
  {
    if DoneBefore(a, n) {
      forall q: Role | q < n
        ensures q in a.audits && a.audits[q] == Succeeded
      {
        assert Done(a, q);
      }
    }
    if q: Role :| q in a.admissions && q !in a.audits { assert OpenAdmission(a, q); }
  }

  /** In an open sound store only an admission left open needs reconciliation. */
  lemma {:induction false} OpenReconciliation(anchor: Sha, s: Store)
    requires Sound(anchor, s) && Running(Last(s.bridge).status)
    ensures NeedsReconciliation(Last(s.bridge).art) <==> LeftHanging(Last(s.bridge).art)
    ensures exists r: Role :: NextRole(Last(s.bridge).art, r)
  {
    var v := Last(s.bridge);
    DoneIs(v.art, 5);
    OpenHasNoFailure(v);
    var n := Pending(v.art);
    assert n < 5;
    NextIsPending(v.art, n);
  }

  /** A closed sound store: finished, or failed with the status its one failed role calls for. */
  lemma {:induction false} ClosedSays(anchor: Sha, s: Store)
    requires Sound(anchor, s) && !Running(Last(s.bridge).status)
    ensures var v := Last(s.bridge);
            if v.status == AllSucceeded then forall q: Role :: q in v.art.audits && v.art.audits[q] == Succeeded
            else exists q: Role :: q in v.art.audits && v.art.audits[q] != Succeeded &&
                   v.status == (match v.art.audits[q]
                                case NotLaunched => RunFailed case Failed => RunFailed
                                case Launched => RunEffectUnknown case EffectUnknown => RunEffectUnknown
                                case TimedOut => RunTimedOut case Cancelled => RunCancelled
                                case CancelUnconfirmed => RunCancelUnconfirmed case Succeeded => AllSucceeded)
    ensures NeedsReconciliation(Last(s.bridge).art) <==>
              LeftHanging(Last(s.bridge).art)
              || Last(s.bridge).status == RunEffectUnknown || Last(s.bridge).status == RunCancelUnconfirmed
  {
    var v := Last(s.bridge);
    DoneIs(v.art, 5);
    if v.status == AllSucceeded {
      forall q: Role ensures q in v.art.audits && v.art.audits[q] == Succeeded && !Failure(v.art, q) {
        assert NoneMissing(v.art, 5);
      }
    } else {
      var q: Role :| Failure(v.art, q);
      assert v.status == StatusExpected(v.art.audits[q]);
      assert forall x: Role :: Failure(v.art, x) ==> x == q;
      if NeedsReconciliation(v.art) {
        var x: Role :| OpenAdmission(v.art, x) || (Failure(v.art, x) && Unreconciled(v.art.audits[x]));
      }
    }
  }

  /** What every artifact of a replayed revision is bound to. */
  lemma {:induction false} ReplayMeans(v: Revision, r: Role)
    requires ReplayOk(v)
    ensures r in v.art.confirmations ==> r in v.art.requests && v.art.confirmations[r].requestSig == v.art.requests[r].sig
    ensures r in v.art.admissions ==>
              && r in v.art.confirmations && (forall q: Role :: q < r ==> q in v.art.audits && v.art.audits[q] == Succeeded)
              && v.art.confirmations[r].confirmedAt <= v.art.admissions[r] < v.art.confirmations[r].expiresAt
              && v.art.admissions[r] < v.art.requests[r].expiresAt
    ensures r in v.art.audits ==> r in v.art.admissions
    ensures forall q: Role :: r in v.art.admissions && r !in v.art.audits && q in v.art.admissions && q !in v.art.audits ==> q == r
    ensures (3 in v.art.requests <==> NoneMissing(v.art, 3)) && (4 in v.art.requests <==> NoneMissing(v.art, 4))
  {
    assert RoleOk(v.art, r);
    DoneIs(v.art, r);
    DoneIs(v.art, 3);
    DoneIs(v.art, 4);
    forall q: Role | r in v.art.admissions && r !in v.art.audits && q in v.art.admissions && q !in v.art.audits
      ensures q == r
    {
      assert OpenAdmission(v.art, r) && OpenAdmission(v.art, q);
    }
  }

  /** Revisions are numbered from one; each names the one before it, which was still open, and keeps all it held. */
  lemma {:induction false} ChainMeans(b: Bridge, i: nat)
    requires Chained(b) && 0 < i < |b|
    ensures b[0].number == 1 && b[i].number == i + 1 && Running(b[i - 1].status)
    ensures b[i].previousManifest == Some(b[i - 1].shas.manifest) && b[i].expectedPointer == Some(b[i - 1].shas.pointer)
    ensures forall r: Role :: r in b[i - 1].art.requests ==> r in b[i].art.requests && b[i].art.requests[r] == b[i - 1].art.requests[r]
    ensures forall r: Role :: r in b[i - 1].art.confirmations ==>
              r in b[i].art.confirmations && b[i].art.confirmations[r] == b[i - 1].art.confirmations[r]
    ensures forall r: Role :: r in b[i - 1].art.admissions ==>
              r in b[i].art.admissions && b[i].art.admissions[r] == b[i - 1].art.admissions[r]
    ensures forall r: Role :: r in b[i - 1].art.audits ==> r in b[i].art.audits && b[i].art.audits[r] == b[i - 1].art.audits[r]
  {
    NumberIsLength(b, i);
    assert Linked(b[i - 1], b[i]);
  }

  /** The receipts on disk are in order exactly when each is its role's own and verifies, and every role that was
      admitted or succeeded has one. */
  lemma {:induction false} BindingsMean(anchor: Sha, s: Store)
    requires s.bridge != []
    ensures BindingsOk(anchor, s) <==>
      && (forall r: Role :: r in s.receipts ==> s.receipts[r].role == r && Verifies(anchor, s.bridge, s.receipts[r]))
      && (forall r: Role :: r in Last(s.bridge).art.admissions ==> r in s.receipts)
      && (forall r: Role :: r in Last(s.bridge).art.audits && Last(s.bridge).art.audits[r] == Succeeded ==> r in s.receipts)
  {
    hide Verifies;
    var a := Last(s.bridge).art;
    if BindingsOk(anchor, s) {
      forall r: Role | r in a.admissions || (r in a.audits && a.audits[r] == Succeeded)
        ensures r in s.receipts
      {
        assert NeedsReceipt(a, r);
      }
    }
  }

  /** A receipt that verifies is for this workflow, this request and this confirmation, and its points are
      published revisions: the same one, or one and the next, which names it as its predecessor. */
  lemma {:induction false} VerifiedReceiptMeans(anchor: Sha, b: Bridge, rc: Receipt)
    requires Verifies(anchor, b, rc)
    ensures b != [] && rc.anchor == anchor
    ensures rc.role in Last(b).art.requests && rc.requestSig == Last(b).art.requests[rc.role].sig
    ensures rc.role in Last(b).art.confirmations && rc.confirmation == Last(b).art.confirmations[rc.role]
    ensures rc.confirmation.requestSig == rc.requestSig
    ensures 1 <= rc.preview.revision <= |b| && rc.preview.shas == b[rc.preview.revision - 1].shas
    ensures 1 <= rc.confirmed.revision <= |b| && rc.confirmed.shas == b[rc.confirmed.revision - 1].shas
    ensures rc.confirmed.revision == rc.preview.revision || rc.confirmed.revision == rc.preview.revision + 1
    ensures rc.confirmed.revision == rc.preview.revision + 1 ==>
              && b[rc.preview.revision].previousManifest == Some(rc.preview.shas.manifest)
              && b[rc.preview.revision].expectedPointer == Some(rc.preview.shas.pointer)
  {
  }

  // ------------------------------------------------------------------ confirming

  /** The caller copied the current revision and the next role's request. */
  predicate CopiedFrom(w: Setup, s: Store, r: Role, x: Expected)
    requires s.bridge != []
  {
    && x.anchor == w.anchor && x.role == r
    && x.revision == |s.bridge| && x.shas == s.bridge[|s.bridge| - 1].shas
    && r in s.bridge[|s.bridge| - 1].art.requests && x.requestSig == s.bridge[|s.bridge| - 1].art.requests[r].sig
  }

  predicate IdsUnused(a: Artifacts, ids: Ids) {
    forall q: Role :: q in a.confirmations ==>
      a.confirmations[q].ids.confirmationId != ids.confirmationId && a.confirmations[q].ids.key != ids.key
  }

  /** A confirmation lasts fifteen minutes, and not longer than its request. */
  function Lasting(request: Request, now: Time): Time {
    if request.expiresAt <= now + 900 then request.expiresAt else now + 900
  }

  /** The next role can be confirmed for the first time. */
  predicate FirstConfirmable(w: Setup, s: Store, r: Role, c: ConfirmCall, e: ConfirmWorld)
    requires s.bridge != []
  {
    var v := s.bridge[|s.bridge| - 1];
    && !w.localOnly && Running(v.status) && !LeftHanging(v.art) && NextRole(v.art, r)
    && r in v.art.requests && r !in v.art.confirmations
    && e.observedAt < v.art.requests[r].expiresAt && e.beforeBridge < v.art.requests[r].expiresAt
    && CopiedFrom(w, s, r, c.expected) && IdsUnused(v.art, c.ids) && e.claimed
    && e.bridgeTime < v.art.requests[r].expiresAt && e.afterBridge < Lasting(v.art.requests[r], e.bridgeTime)
  }

  /** What is then published, and the receipt that goes with it. */
  function Confirmed(w: Setup, s: Store, r: Role, c: ConfirmCall, e: ConfirmWorld): Store
    requires s.bridge != [] && r in s.bridge[|s.bridge| - 1].art.requests
  {
    var v := s.bridge[|s.bridge| - 1];
    var q := v.art.requests[r];
    var granted := Confirmation(c.ids, q.sig, e.bridgeTime, Lasting(q, e.bridgeTime));
    var art := Artifacts(v.art.requests, v.art.confirmations[r := granted], v.art.admissions, v.art.audits);
    Store(s.bridge + [Revision(|s.bridge| + 1, ApprovalRequired, art, e.shas, Some(v.shas.manifest), Some(v.shas.pointer))],
          s.receipts[r := Receipt(w.anchor, r, q.sig, granted, Point(|s.bridge|, v.shas), Point(|s.bridge| + 1, e.shas))])
  }

  lemma {:induction false} LastingIs(request: Request, now: Time)
    ensures Min(request.expiresAt, now + CONFIRMATION_LIFETIME) == Lasting(request, now)
  {
  }

  lemma {:induction false} UnusedIsNotReused(a: Artifacts, ids: Ids)
    ensures IdsUnused(a, ids) <==> !Reused(a, ids)
  {
  }

  lemma {:induction false} CopiedMatches(w: Setup, s: Store, r: Role, x: Expected)
    requires Chained(s.bridge) && r in Last(s.bridge).art.requests
    ensures CopiedFrom(w, s, r, x) <==> x.role == r && ExpectedMatches(w, s.bridge, r, x)
  {
    NumberIsLength(s.bridge, |s.bridge| - 1);
  }

  /** What a read of a sound store that is open, with nothing to reconcile, says of the next role. */
  lemma {:induction false} ReadNextRole(w: Setup, s: Store, r: Role, now: Time)
    requires Sound(w.anchor, s) && !w.localOnly && Running(Last(s.bridge).status) && !LeftHanging(Last(s.bridge).art)
    requires NextRole(Last(s.bridge).art, r)
    ensures r in Last(s.bridge).art.requests && r !in Last(s.bridge).art.admissions && r !in Last(s.bridge).art.audits
    ensures Observed(w, s, now).Ok? && !Observed(w, s, now).value.replayed.reconcile
    ensures var a := Last(s.bridge).art;
            Observed(w, s, now).value.progress ==
              Progress(Some(r), if r in a.confirmations then
                                  (if a.confirmations[r].expiresAt <= now then Expired
                                   else if r in s.receipts then ReadyToExecute else AwaitingConfirmation)
                                else if a.requests[r].expiresAt <= now then Expired else AwaitingConfirmation)
  {
    hide Verifies, Accounted;
    var v := Last(s.bridge);
    SoundIsReadable(w, s, now);
    OpenReconciliation(w.anchor, s);
    NextIsPending(v.art, r);
    OpenHasNoFailure(v);
    assert !OpenAdmission(v.art, r) && !Failure(v.art, r) && !Done(v.art, r);
    assert RoleOk(v.art, r);
  }

  /** In a sound store the first confirmation of the next role succeeds exactly when it is open, copied from the
      current revision, with unused identifiers and in time, and it then publishes exactly that. */
  lemma {:induction false} ConfirmsExactlyWhen(w: Setup, s: Store, r: Role, c: ConfirmCall, e: ConfirmWorld)
    requires Sound(w.anchor, s) && !e.crash && NextRole(Last(s.bridge).art, r) && r !in Last(s.bridge).art.confirmations
    ensures var (s', fault) := ConfirmRoleRequest(w, s, c, e);
            && (fault.None? <==> FirstConfirmable(w, s, r, c, e))
            && (fault.None? ==> s' == Confirmed(w, s, r, c, e))
  {
    hide Verifies, Accounted, ReplayOk, Observed, NextRole, LeftHanging, Reused, IdsUnused, BindingsOk;
    var v := Last(s.bridge);
    assert Chained(s.bridge);
    NumberIsLength(s.bridge, |s.bridge| - 1);
    UnusedIsNotReused(v.art, c.ids);
    SoundIsReadable(w, s, e.observedAt);
    if w.localOnly || !Running(v.status) || LeftHanging(v.art) {
      NotOpenIsRefused(w, s, c, e);
    } else {
      ReadNextRole(w, s, r, e.observedAt);
      LastingIs(v.art.requests[r], e.bridgeTime);
      CopiedMatches(w, s, r, c.expected);
      NoReceiptYet(w.anchor, s, r);
    }
  }

  lemma {:induction false} NoReceiptYet(anchor: Sha, s: Store, r: Role)
    requires Sound(anchor, s) && r !in Last(s.bridge).art.confirmations
    ensures r !in s.receipts
  {
    assert r in s.receipts ==> Verifies(anchor, s.bridge, s.receipts[r]);
  }

  /** Local-only, an open admission, and a closed run are refused in this order, without effect. */
  lemma {:induction false} NotOpenIsRefused(w: Setup, s: Store, c: ConfirmCall, e: ConfirmWorld)
    requires Sound(w.anchor, s)
    requires w.localOnly || !Running(Last(s.bridge).status) || LeftHanging(Last(s.bridge).art)
    ensures var v := Last(s.bridge);
            ConfirmRoleRequest(w, s, c, e) ==
              (s, Some(if w.localOnly then LocalOnly
                       else if LeftHanging(v.art) || v.status == RunEffectUnknown || v.status == RunCancelUnconfirmed
                       then ReconciliationNeeded else StateFault))
  {
    hide Verifies, Accounted;
    SoundIsReadable(w, s, e.observedAt);
    if Running(Last(s.bridge).status) { OpenReconciliation(w.anchor, s); } else { ClosedSays(w.anchor, s); }
  }

  /** Why an open run refuses to confirm its next role, in order; nothing is published then. */
  lemma {:induction false} ConfirmRefusals(w: Setup, s: Store, r: Role, c: ConfirmCall, e: ConfirmWorld)
    requires Sound(w.anchor, s) && !w.localOnly && Running(Last(s.bridge).status) && !LeftHanging(Last(s.bridge).art)
    requires NextRole(Last(s.bridge).art, r)
    ensures r in Last(s.bridge).art.requests
    ensures var a := Last(s.bridge).art;
            var deadline := if r in a.confirmations then a.confirmations[r].expiresAt else a.requests[r].expiresAt;
            var answer := ConfirmRoleRequest(w, s, c, e);
            if deadline <= e.observedAt then answer == (s, Some(ExpiredFault))
            else if r in s.receipts then answer == (s, Some(StateFault))
            else if c.expected.role != r then answer == (s, Some(OrderFault))
            else if !CopiedFrom(w, s, r, c.expected) then answer == (s, Some(BindingFault))
            else if a.requests[r].expiresAt <= e.beforeBridge then answer == (s, Some(ExpiredFault))
            else r !in a.confirmations && (!IdsUnused(a, c.ids) || !e.claimed || a.requests[r].expiresAt <= e.bridgeTime) ==>
              answer == (s, Some(BindingFault))
  {
    hide Verifies, Accounted, ReplayOk, Observed, NextRole, LeftHanging, Reused, IdsUnused;
    var v := Last(s.bridge);
    assert Chained(s.bridge);
    UnusedIsNotReused(v.art, c.ids);
    ReadNextRole(w, s, r, e.observedAt);
    CopiedMatches(w, s, r, c.expected);
    if r !in v.art.confirmations {
      NoReceiptYet(w.anchor, s, r);
      LastingIs(v.art.requests[r], e.bridgeTime);
    }
  }

  /** A crash right after the publication leaves the confirmation without a receipt. */
  lemma {:induction false} CrashLeavesNoReceipt(w: Setup, s: Store, r: Role, c: ConfirmCall, e: ConfirmWorld)
    requires Sound(w.anchor, s) && NextRole(Last(s.bridge).art, r) && FirstConfirmable(w, s, r, c, e) && e.crash
    ensures ConfirmRoleRequest(w, s, c, e) == (Store(Confirmed(w, s, r, c, e).bridge, s.receipts), Some(Crashed))
  {
    hide Verifies, Accounted, ReplayOk, Observed, NextRole, LeftHanging, Reused, IdsUnused, BindingsOk;
    var v := Last(s.bridge);
    assert Chained(s.bridge);
    NumberIsLength(s.bridge, |s.bridge| - 1);
    UnusedIsNotReused(v.art, c.ids);
    ReadNextRole(w, s, r, e.observedAt);
    LastingIs(v.art.requests[r], e.bridgeTime);
    CopiedMatches(w, s, r, c.expected);
  }

  // ------------------------------------------------------------------ executing

  /** The next role is confirmed, has its receipt and is inside all its windows. */
  predicate Ready(w: Setup, s: Store, r: Role, e: ExecuteWorld)
    requires s.bridge != []
  {
    var v := s.bridge[|s.bridge| - 1];
    && !w.localOnly && Running(v.status) && !LeftHanging(v.art) && NextRole(v.art, r)
    && r in s.receipts && r in v.art.confirmations && r in v.art.requests
    && e.observedAt < v.art.confirmations[r].expiresAt && e.beforeBridge < v.art.confirmations[r].expiresAt
    && v.art.confirmations[r].confirmedAt <= e.admittedAt < v.art.confirmations[r].expiresAt
    && e.admittedAt < v.art.requests[r].expiresAt
  }

  /** The status a role's end leaves the run in. */
  function StatusAfter(r: Role, effect: Effect): Status {
    match effect
    case Succeeded => if r == 4 then AllSucceeded else if r == 2 || r == 3 then ApprovalRequired else InProgress
    case TimedOut => RunTimedOut
    case Cancelled => RunCancelled
    case CancelUnconfirmed => RunCancelUnconfirmed
    case EffectUnknown => RunEffectUnknown
    case NotLaunched => RunFailed
    case Launched => RunFailed
    case Failed => RunFailed
  }

  /** The admission, and behind it, unless the process died, the audit; the success of the third and of the
      fourth role brings the request of the next one, good for a week. */
  function Executed(s: Store, r: Role, e: ExecuteWorld): Store
    requires s.bridge != []
  {
    var v, n := s.bridge[|s.bridge| - 1], |s.bridge|;
    var admitted := Artifacts(v.art.requests, v.art.confirmations, v.art.admissions[r := e.admittedAt], v.art.audits);
    var first := Revision(n + 1, InProgress, admitted, e.shas, Some(v.shas.manifest), Some(v.shas.pointer));
    if e.outcome.LeftOpen? then Store(s.bridge + [first], s.receipts)
    else
      var o := e.outcome;
      var requests := if o.effect == Succeeded && (r == 2 || r == 3)
                      then v.art.requests[r + 1 := Request(o.dependentSig, o.at + 7 * 24 * 3600)] else v.art.requests;
      var done := Artifacts(requests, v.art.confirmations, admitted.admissions, v.art.audits[r := o.effect]);
      Store(s.bridge + [first, Revision(n + 2, StatusAfter(r, o.effect), done, o.shas, Some(e.shas.manifest), Some(e.shas.pointer))],
            s.receipts)
  }

  lemma {:induction false} ExecutedIs(s: Store, r: Role, e: ExecuteWorld)
    requires Chained(s.bridge) && Executable(s.bridge, r, e.admittedAt)
    ensures ExecuteRole(s.bridge, r, e.admittedAt, e.shas, e.outcome).Some?
    ensures Store(ExecuteRole(s.bridge, r, e.admittedAt, e.shas, e.outcome).value, s.receipts) == Executed(s, r, e)
  {
    NumberIsLength(s.bridge, |s.bridge| - 1);
    var b := s.bridge;
    var admitted := Admit(b, r, e.admittedAt, e.shas);
    assert Last(admitted) == admitted[|b|] && admitted[..|b|] == b;
    if e.outcome.Finished? {
      assert Audit(admitted, r, e.outcome) == b + [admitted[|b|], Last(Audit(admitted, r, e.outcome))];
    }
  }

  lemma {:induction false} ReadyIsExecutable(w: Setup, s: Store, r: Role, e: ExecuteWorld)
    requires Sound(w.anchor, s) && NextRole(Last(s.bridge).art, r)
    ensures CanExecute(w, s, e) <==> Ready(w, s, r, e)
  {
    hide Verifies, Accounted, BindingsOk;
    var v := Last(s.bridge);
    NextIsPending(v.art, r);
    assert RoleOk(v.art, r);
    if Running(v.status) {
      OpenReconciliation(w.anchor, s);
      OpenHasNoFailure(v);
      assert r in v.art.admissions && r !in v.art.audits ==> OpenAdmission(v.art, r);
      assert r in v.art.audits ==> Failure(v.art, r);
      assert DoneBefore(v.art, r);
    }
  }

  /** In a sound store an execution publishes something exactly when the next role is ready, and then exactly
      its admission and audit. */
  lemma {:induction false} ExecutesExactly(w: Setup, s: Store, r: Role, e: ExecuteWorld)
    requires Sound(w.anchor, s) && NextRole(Last(s.bridge).art, r)
    ensures ExecuteNextRole(w, s, e).0 == if Ready(w, s, r, e) then Executed(s, r, e) else s
  {
    hide Verifies, Accounted, BindingsOk, ExecuteNextRole, Ready, Executed, NextRole, Coherent, StatusOk;
    assert Chained(s.bridge);
    NextIsPending(Last(s.bridge).art, r);
    ReadyIsExecutable(w, s, r, e);
    ExecutesExactlyWhen(w, s, e);
    if Ready(w, s, r, e) { ExecutedIs(s, r, e); }
  }

  /** Why an open run refuses to execute its next role, in order. */
  lemma {:induction false} ExecuteRefusals(w: Setup, s: Store, r: Role, e: ExecuteWorld)
    requires Sound(w.anchor, s) && !w.localOnly && Running(Last(s.bridge).status) && !LeftHanging(Last(s.bridge).art)
    requires NextRole(Last(s.bridge).art, r)
    ensures r in Last(s.bridge).art.requests
    ensures var a := Last(s.bridge).art;
            var answer := ExecuteNextRole(w, s, e);
            if (if r in a.confirmations then a.confirmations[r].expiresAt else a.requests[r].expiresAt) <= e.observedAt
            then answer == (s, Some(ExpiredFault))
            else if r !in a.confirmations || r !in s.receipts then answer == (s, Some(StateFault))
            else if a.confirmations[r].expiresAt <= e.beforeBridge then answer == (s, Some(ExpiredFault))
            else !Ready(w, s, r, e) ==>
              answer == (s, Some(if a.confirmations[r].expiresAt <= e.rereadAt then ExpiredFault else ExecutionFault))
  {
    hide Verifies, Accounted, ReplayOk, Observed, NextRole, LeftHanging, BindingsOk, ExecuteRole;
    ReadNextRole(w, s, r, e.observedAt);
    ReadNextRole(w, s, r, e.rereadAt);
    ReadyIsExecutable(w, s, r, e);
    NextIsPending(Last(s.bridge).art, r);
    OpenReconciliation(w.anchor, s);
    ExecutesSome(s.bridge, r, e.admittedAt, e.shas, e.outcome);
    if r !in Last(s.bridge).art.confirmations { NoReceiptYet(w.anchor, s, r); }
  }

  /** Local-only, an open admission, and a closed run are refused in this order, without effect. */
  lemma {:induction false} ExecuteNotOpen(w: Setup, s: Store, e: ExecuteWorld)
    requires Sound(w.anchor, s)
    requires w.localOnly || !Running(Last(s.bridge).status) || LeftHanging(Last(s.bridge).art)
    ensures var v := Last(s.bridge);
            ExecuteNextRole(w, s, e) ==
              (s, Some(if w.localOnly then LocalOnly
                       else if LeftHanging(v.art) || v.status == RunEffectUnknown || v.status == RunCancelUnconfirmed
                       then ReconciliationNeeded else StateFault))
  {
    hide Verifies, Accounted;
    SoundIsReadable(w, s, e.observedAt);
    if Running(Last(s.bridge).status) { OpenReconciliation(w.anchor, s); } else { ClosedSays(w.anchor, s); }
  }

  /** What a role that was executed answers: nothing if its end was recorded and can be read, a crash if the
      process died, and otherwise that it must be reconciled. */
  lemma {:induction false} ExecuteAnswers(w: Setup, s: Store, r: Role, e: ExecuteWorld)
    requires Sound(w.anchor, s) && Ready(w, s, r, e)
    ensures ExecuteNextRole(w, s, e).1 ==
              if e.outcome.LeftOpen? then Some(if e.died then Crashed else ReconciliationNeeded)
              else if e.outcome.effect == Launched then Some(BridgeFault) else None
  {
    hide Verifies, Accounted, Executed, Ready, BindingsOk;
    assert NextRole(Last(s.bridge).art, r) && !w.localOnly by { ReadyIsNext(w, s, r, e); }
    ReadyIsExecutable(w, s, r, e);
    AnswersReady(w, s, e);
  }

  lemma {:induction false} ReadyIsNext(w: Setup, s: Store, r: Role, e: ExecuteWorld)
    requires s.bridge != [] && Ready(w, s, r, e)
    ensures NextRole(Last(s.bridge).art, r) && !w.localOnly
  {
  }

  lemma {:induction false} AnswersReady(w: Setup, s: Store, e: ExecuteWorld)
    requires Sound(w.anchor, s) && CanExecute(w, s, e)
    ensures ExecuteNextRole(w, s, e).1 ==
              if e.outcome.LeftOpen? then Some(if e.died then Crashed else ReconciliationNeeded)
              else if e.outcome.effect == Launched then Some(BridgeFault) else None
  {
    hide Verifies, Accounted, Coherent, StatusOk, BindingsOk, Admit, Audit, Admissible, NeedsReconciliation, Pending;
    ExecutesExactlyWhen(w, s, e);
    ExecuteKeepsSteady(w, s, e);
    var s' := ExecuteNextRole(w, s, e).0;
    SoundIsReadable(w, s, e.observedAt);
    if PublishesLaunch(w, s, ExecuteEvent(e)) {
      StuckStays(w, s', ExecuteEvent(e), e.rereadAt);
    } else {
      SoundIsReadable(w, s', e.rereadAt);
      if e.outcome.LeftOpen? { HangingNow(s, Pending(Last(s.bridge).art), e); }
    }
  }

  lemma {:induction false} HangingNow(s: Store, r: Role, e: ExecuteWorld)
    requires s.bridge != [] && Executable(s.bridge, r, e.admittedAt) && e.outcome.LeftOpen?
    ensures NeedsReconciliation(Last(ExecuteRole(s.bridge, r, e.admittedAt, e.shas, e.outcome).value).art)
  {
    assert OpenAdmission(Last(ExecuteRole(s.bridge, r, e.admittedAt, e.shas, e.outcome).value).art, r);
  }
}
