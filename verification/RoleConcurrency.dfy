/** Whatever others do between the reads and writes of an operation, it has the effect of one operation
    in one step, somewhere in their order. */
module RoleConcurrency {
  import opened Basics
  import opened RoleBridge
  import opened RoleWorkflow
  import opened RoleSafety
  import opened RoleDirectory

  // ------------------------------------------------------------------ sequences of events

  ghost predicate Kept(anchor: Sha, s: Store) {
    Sound(anchor, s) || Stuck(anchor, s)
  }

  lemma {:induction false} StepIsKept(w: Setup, s: Store, ev: Event)
    requires s.bridge != [] && Kept(w.anchor, s)
    ensures Kept(w.anchor, Next(w, s, ev)) && Grows(s, Next(w, s, ev))
  {
    hide Sound, Stuck, Next, Grows;
    RunStep(w, s, ev);
  }

  lemma {:induction false} GrowsTransitive(x: Store, y: Store, z: Store)
    requires Grows(x, y) && Grows(y, z)
    ensures Grows(x, z)
  {
  }

  lemma {:induction false} AfterKeeps(w: Setup, s: Store, events: seq<Event>)
    requires s.bridge != [] && Kept(w.anchor, s)
    ensures Kept(w.anchor, After(w, s, events)) && Grows(s, After(w, s, events))
  {
    hide Kept, Next, Grows;
    if events == [] {
      GrowsReflexive(s);
    } else {
      var before := After(w, s, events[..|events| - 1]);
      AfterKeeps(w, s, events[..|events| - 1]);
      StepIsKept(w, before, events[|events| - 1]);
      GrowsTransitive(s, before, After(w, s, events));
    }
  }

  lemma {:induction false} GrowsReflexive(s: Store)
    ensures Grows(s, s)
  {
  }

  lemma {:induction false} AfterConcat(w: Setup, s: Store, a: seq<Event>, b: seq<Event>)
    requires s.bridge != []
    ensures After(w, s, a + b) == After(w, After(w, s, a), b)
  {
    hide Next;
    if b == [] {
      assert a + b == a;
    } else {
      AfterConcat(w, s, a, b[..|b| - 1]);
      assert (a + b)[..|a + b| - 1] == a + b[..|b| - 1] && (a + b)[|a + b| - 1] == b[|b| - 1];
    }
  }

  lemma {:induction false} AfterOne(w: Setup, s: Store, ev: Event)
    requires s.bridge != []
    ensures After(w, s, [ev]) == Next(w, s, ev) && After(w, s, []) == s
  {
    assert [ev][..0] == [];
  }

  /** In one run, two bridges with the same revision number are the same. */
  lemma {:induction false} SameNumber(anchor: Sha, s: Store, s': Store)
    requires Kept(anchor, s) && Kept(anchor, s') && Grows(s, s')
    requires Last(s.bridge).number == Last(s'.bridge).number
    ensures s'.bridge == s.bridge
  {
    hide BindingsOk, Coherent, Accounted, StatusOk;
    NumberIsLength(s.bridge, |s.bridge| - 1);
    NumberIsLength(s'.bridge, |s'.bridge| - 1);
  }

  // ------------------------------------------------------------------ a confirmation without its receipt

  /** Confirmations made at the bridge directly; everything else is refused while a receipt is missing. */
  function Outside(events: seq<Event>): seq<Event> {
    if events == [] then []
    else
      var last := events[|events| - 1];
      Outside(events[..|events| - 1]) + if last.DirectConfirm? then [last] else []
  }

  /** While the pending role is confirmed and has no receipt, others can write that receipt or confirm
      some other role at the bridge, and nothing else. */
  lemma {:induction false} OnlyReceiptOrOutside(w: Setup, s: Store, r: Role, ev: Event)
    requires ConfirmedWithoutReceipt(w, s, r) && r !in Next(w, s, ev).receipts
    ensures ConfirmedWithoutReceipt(w, Next(w, s, ev), r) && Next(w, s, ev).receipts == s.receipts
    ensures !ev.DirectConfirm? ==> Next(w, s, ev) == s
  {
    hide ReplayOk, Accounted, BindingsOk, ConfirmRole;
    match ev
    case ConfirmEvent(c, e) => NotAdmittedYet(w, s, r); SoundIsReadable(w, s, e.observedAt);
    case ExecuteEvent(e) => ExecutesExactlyWhen(w, s, e);
    case DirectConfirm(q, ids, now, claimed, shas) =>
      if ConfirmRole(s.bridge, q, ids, now, claimed, shas).Some? {
        BridgeConfirmKeepsSound(w.anchor, s, q, ids, now, claimed, shas);
        ConfirmedStays(s, r, q, ids, now, claimed, shas);
      }
  }

  lemma {:induction false} ConfirmedStays(s: Store, r: Role, q: Role, ids: Ids, now: Time, claimed: bool, shas: Shas)
    requires s.bridge != [] && r == Pending(Last(s.bridge).art)
    requires ConfirmRole(s.bridge, q, ids, now, claimed, shas).Some?
    ensures var v, v' := Last(s.bridge), Last(ConfirmRole(s.bridge, q, ids, now, claimed, shas).value);
            && Open(v'.status) && r == Pending(v'.art)
            && (NeedsReconciliation(v'.art) <==> NeedsReconciliation(v.art))
            && v'.art.confirmations.Keys == v.art.confirmations.Keys + {q}
            && (forall x: Role :: x in v.art.confirmations ==> v'.art.confirmations[x] == v.art.confirmations[x])
  {
    var a, a' := Last(s.bridge).art, Last(ConfirmRole(s.bridge, q, ids, now, claimed, shas).value).art;
    assert a'.audits == a.audits && a'.admissions == a.admissions;
    assert forall x: Role :: (Done(a', x) <==> Done(a, x)) && (Failure(a', x) <==> Failure(a, x))
                          && (OpenAdmission(a', x) <==> OpenAdmission(a, x));
    PendingUnique(a', r);
  }

  /** So a receipt written at the end could as well have been written at the beginning. */
  lemma {:induction false} ReceiptCommutes(w: Setup, s: Store, r: Role, rc: Receipt, events: seq<Event>)
    requires ConfirmedWithoutReceipt(w, s, r) && r !in After(w, s, events).receipts
    ensures var s' := After(w, s, events);
            && ConfirmedWithoutReceipt(w, s', r) && s'.receipts == s.receipts
            && Store(s'.bridge, s'.receipts[r := rc]) == After(w, Store(s.bridge, s.receipts[r := rc]), Outside(events))
  {
    assert s.bridge != [];
    hide ConfirmedWithoutReceipt, ConfirmRoleRequest, ExecuteNextRole, ConfirmRole;
    var t := Store(s.bridge, s.receipts[r := rc]);
    if events != [] {
      var init, last := events[..|events| - 1], events[|events| - 1];
      var before := After(w, s, init);
      WithoutReceiptIsKept(w, s, r);
      AfterKeeps(w, s, init);
      StepIsKept(w, before, last);
      ReceiptCommutes(w, s, r, rc, init);
      OnlyReceiptOrOutside(w, before, r, last);
      AfterConcat(w, t, Outside(init), if last.DirectConfirm? then [last] else []);
      AfterOne(w, After(w, t, Outside(init)), last);
    }
  }

  lemma {:induction false} WithoutReceiptIsKept(w: Setup, s: Store, r: Role)
    requires ConfirmedWithoutReceipt(w, s, r)
    ensures Kept(w.anchor, s)
  {
  }

  // ------------------------------------------------------------------ executing

  /** An execution amid others either changes nothing, and says so, or is the execution in one step
      behind everything they did so far. */
  lemma {:induction false} ExecuteIsSerial(w: Setup, s: Store, e: ExecuteWorld, reading: seq<Event>, admitting: seq<Event>)
    returns (before: seq<Event>)
    requires Kept(w.anchor, s)
    ensures before <= reading + admitting
    ensures var (out, fault) := ExecuteAmid(w, s, e, reading, admitting);
            || (out == After(w, s, before) && fault.Some?)
            || (out, fault) == ExecuteNextRole(w, After(w, s, before), e)
  {
    assert s.bridge != [];
    hide Kept, After, Observed, ExecuteRole, ExecuteNextRole, Executable, NeedsReconciliation, Reread, Ending;
    var s1 := After(w, s, reading);
    var s2 := After(w, s1, admitting);
    AfterConcat(w, s, reading, admitting);
    AfterOne(w, s, ExecuteEvent(e));
    var first := Observed(w, s, e.observedAt);
    if first.Err? || w.localOnly || Admitted(first.value, ReadyToExecute).Some? { return []; }
    var changed := SecondRead(w, s1, e.observedAt, PointOf(s.bridge), first.value);
    if changed.Some? { return reading; }
    var r := first.value.progress.next.value;
    var a := Last(s1.bridge).art;
    if r !in a.confirmations || e.beforeBridge >= a.confirmations[r].expiresAt { return reading; }
    AfterKeeps(w, s, reading);
    AfterKeeps(w, s1, admitting);
    ExecutesSome(s2.bridge, r, e.admittedAt, e.shas, e.outcome);
    if Executable(s2.bridge, r, e.admittedAt) {
      StillReady(w, s1, s2, r, e);
    }
    return reading + admitting;
  }

  /** A role that was ready to execute when read, and that the bridge still executes, is still ready. */
  lemma {:induction false} StillReady(w: Setup, s: Store, s': Store, r: Role, e: ExecuteWorld)
    requires Kept(w.anchor, s) && Kept(w.anchor, s') && Grows(s, s') && !w.localOnly
    requires var view := Observed(w, s, e.observedAt);
             view.Ok? && Admitted(view.value, ReadyToExecute).None? && view.value.progress.next == Some(r)
    requires r in Last(s.bridge).art.confirmations && e.beforeBridge < Last(s.bridge).art.confirmations[r].expiresAt
    requires Executable(s'.bridge, r, e.admittedAt)
    ensures Sound(w.anchor, s') && CanExecute(w, s', e) && r == Pending(Last(s'.bridge).art)
    ensures ExecuteNextRole(w, s', e) ==
            var done := Store(ExecuteRole(s'.bridge, r, e.admittedAt, e.shas, e.outcome).value, s'.receipts);
            (done, if e.outcome.Finished? then Ending(w, done, e.rereadAt)
                   else Some(if e.died then Crashed else Reread(w, done, e.rereadAt)))
  {
    hide Accounted, BindingsOk, Admit, Audit, Reread, Ending, Verifies;
    var a' := Last(s'.bridge).art;
    LaterExtends(s'.bridge, |s.bridge| - 1, |s'.bridge| - 1);
    PendingUnique(a', r);
    NothingToReconcile(w.anchor, s', r);
    SoundIsReadable(w, s', e.observedAt);
  }

  lemma {:induction false} NothingToReconcile(anchor: Sha, s: Store, r: Role)
    requires Sound(anchor, s) && Open(Last(s.bridge).status)
    requires DoneBefore(Last(s.bridge).art, r) && !Done(Last(s.bridge).art, r) && r !in Last(s.bridge).art.admissions
    ensures !NeedsReconciliation(Last(s.bridge).art)
  {
    hide BindingsOk, Accounted;
    var a := Last(s.bridge).art;
    OpenHasNoFailure(Last(s.bridge));
    forall q: Role
      ensures !OpenAdmission(a, q)
    {
      assert RoleOk(a, q);
      assert q < r ==> Done(a, q);
      assert q > r && q in a.admissions ==> Done(a, r);
    }
  }

  // ------------------------------------------------------------------ confirming

  /** Everything others did meanwhile, in order. */
  function All(m: Meanwhile): seq<Event> {
    m.reading + m.publishing + m.readBack + m.receipt
  }

  /** Role `r` may be confirmed, as the call names it and in time. */
  ghost predicate Confirmable(w: Setup, s: Store, r: Role, c: ConfirmCall, e: ConfirmWorld) {
    && s.bridge != [] && !w.localOnly
    && r in Last(s.bridge).art.requests
    && ExpectedMatches(w, s.bridge, r, c.expected) && e.beforeBridge < Last(s.bridge).art.requests[r].expiresAt
    && var view := Observed(w, s, e.observedAt);
       view.Ok? && Admitted(view.value, AwaitingConfirmation).None? && view.value.progress.next == Some(r)
  }

  /** What the caller named is what was confirmed, in time for the receipt. */
  predicate Concluded(preview: Bridge, confirmed: Bridge, r: Role, c: ConfirmCall, e: ConfirmWorld)
    requires preview != [] && confirmed != [] && r in Last(preview).art.requests
  {
    var confirmations := Last(confirmed).art.confirmations;
    && !e.crash && r in confirmations && confirmations[r].requestSig == Last(preview).art.requests[r].sig
    && confirmations[r].ids == c.ids && e.afterBridge < confirmations[r].expiresAt
  }

  lemma {:induction false} ConfirmableIsSound(w: Setup, s: Store, r: Role, c: ConfirmCall, e: ConfirmWorld)
    requires Kept(w.anchor, s) && Confirmable(w, s, r, c, e)
    ensures Sound(w.anchor, s) && Open(Last(s.bridge).status) && !NeedsReconciliation(Last(s.bridge).art)
    ensures r == Pending(Last(s.bridge).art)
    ensures r in Last(s.bridge).art.confirmations ==> ConfirmedWithoutReceipt(w, s, r)
    ensures r !in Last(s.bridge).art.confirmations ==> r !in s.receipts
  {
    hide Accounted, Coherent, Verifies;
    if r !in Last(s.bridge).art.confirmations {
      PendingUnaudited(w.anchor, s, r);
    }
  }

  /** A role not yet confirmed is confirmable whatever receipts others wrote. */
  lemma {:induction false} ConfirmableStays(w: Setup, s: Store, s': Store, r: Role, c: ConfirmCall, e: ConfirmWorld)
    requires Kept(w.anchor, s) && Kept(w.anchor, s') && Confirmable(w, s, r, c, e)
    requires s'.bridge == s.bridge && r !in Last(s.bridge).art.confirmations
    ensures Confirmable(w, s', r, c, e)
  {
    hide Accounted, Coherent, Verifies;
    ConfirmableIsSound(w, s, r, c, e);
    SoundIsReadable(w, s', e.observedAt);
  }

  /** Confirming a role in one step, with and without a crash before the receipt. */
  lemma {:induction false} OneStep(w: Setup, s: Store, r: Role, c: ConfirmCall, e: ConfirmWorld)
    requires Kept(w.anchor, s) && Confirmable(w, s, r, c, e)
    requires r in Last(s.bridge).art.confirmations ||
             ConfirmRole(s.bridge, r, c.ids, e.bridgeTime, e.claimed, e.shas).Some?
    ensures var b := if r in Last(s.bridge).art.confirmations then s.bridge
                     else ConfirmRole(s.bridge, r, c.ids, e.bridgeTime, e.claimed, e.shas).value;
            && b != [] && ConfirmedWithoutReceipt(w, Store(b, s.receipts), r)
            && ConfirmRoleRequest(w, s, c, e.(crash := true)) == (Store(b, s.receipts), Some(Crashed))
            && (Concluded(s.bridge, b, r, c, e) ==>
                  ConfirmRoleRequest(w, s, c, e) ==
                    (Store(b, s.receipts[r := MadeReceipt(w, s.bridge, b, r)]), None))
  {
    hide Accounted, Coherent, Verifies, Observed, StatusOk, BindingsOk, MadeReceipt, ConfirmRole, Pending, NeedsReconciliation;
    ConfirmableIsSound(w, s, r, c, e);
    if r !in Last(s.bridge).art.confirmations {
      BridgeConfirmKeepsSound(w.anchor, s, r, c.ids, e.bridgeTime, e.claimed, e.shas);
      ConfirmedStays(s, r, r, c.ids, e.bridgeTime, e.claimed, e.shas);
    }
  }

  /** The end of a confirmation: with `t` the store the confirmation is published in, others go on before
      and after the conditions are looked at. */
  lemma {:induction false} ConcludesSerially(w: Setup, s: Store, t: Store, confirmed: Bridge, r: Role, c: ConfirmCall,
                                  e: ConfirmWorld, earlier: seq<Event>, later: seq<Event>)
    requires s.bridge != [] && confirmed != [] && r in Last(s.bridge).art.requests && ConfirmedWithoutReceipt(w, t, r)
    ensures var (out, fault) := Conclude(w, After(w, t, earlier), s.bridge, confirmed, r, c, e, later);
            && (fault.Some? ==> out == After(w, t, earlier) || out == After(w, t, earlier + later))
            && (fault.None? ==>
                  && Concluded(s.bridge, confirmed, r, c, e)
                  && out == After(w, Store(t.bridge, t.receipts[r := MadeReceipt(w, s.bridge, confirmed, r)]),
                                  Outside(earlier + later)))
  {
    assert t.bridge != [];
    hide ConfirmedWithoutReceipt, After, MadeReceipt;
    AfterConcat(w, t, earlier, later);
    if Concluded(s.bridge, confirmed, r, c, e) && r !in After(w, t, earlier + later).receipts {
      ReceiptCommutes(w, t, r, MadeReceipt(w, s.bridge, confirmed, r), earlier + later);
    }
  }

  /** The order that explains a confirmation amid others: `before` happened first, then the operation in
      one step or what a crash leaves of it, then `after`. */
  datatype Order = Order(before: seq<Event>, mine: seq<Event>, after: seq<Event>)

  ghost predicate Explains(w: Setup, s: Store, c: ConfirmCall, e: ConfirmWorld, all: seq<Event>, o: Order,
                           out: Store, fault: Option<Fault>) {
    && s.bridge != [] && o.before <= all
    && out == After(w, After(w, After(w, s, o.before), o.mine), o.after)
    && var rest := all[|o.before|..];
       || (fault.Some? && o.mine == [] && o.after == [])
       || (fault.Some? && o.mine == [ConfirmEvent(c, e.(crash := true))] && o.after <= rest)
       || (fault.None? && o.mine == [ConfirmEvent(c, e)] && o.after == Outside(rest)
           && ConfirmRoleRequest(w, After(w, s, o.before), c, e).1.None?)
  }

  lemma {:induction false} NoEffect(w: Setup, s: Store, c: ConfirmCall, e: ConfirmWorld, all: seq<Event>, n: nat, fault: Fault)
    requires s.bridge != [] && n <= |all|
    ensures Explains(w, s, c, e, all, Order(all[..n], [], []), After(w, s, all[..n]), Some(fault))
  {
    hide After;
    AfterNothing(w, After(w, s, all[..n]));
  }

  const NOTHING := Order([], [], [])

  /** A refusal at once. */
  lemma {:induction false} Refused(w: Setup, s: Store, c: ConfirmCall, e: ConfirmWorld, all: seq<Event>, fault: Fault)
    requires s.bridge != []
    ensures Explains(w, s, c, e, all, NOTHING, s, Some(fault))
  {
    hide After;
    AfterNothing(w, s);
  }

  lemma {:induction false} AfterNothing(w: Setup, s: Store)
    requires s.bridge != []
    ensures After(w, s, []) == s
  {
  }

  /** The second half of an operation whose role was confirmed before. */
  lemma {:induction false} ReconfirmsSerially(w: Setup, s: Store, r: Role, c: ConfirmCall, e: ConfirmWorld,
                                   earlier: seq<Event>, later: seq<Event>)
    returns (o: Order)
    requires Kept(w.anchor, s) && Confirmable(w, s, r, c, e) && r in Last(s.bridge).art.confirmations
    ensures var (out, fault) := Conclude(w, After(w, s, earlier), s.bridge, s.bridge, r, c, e, later);
            Explains(w, s, c, e, earlier + later, o, out, fault)
  {
    var all := earlier + later;
    assert s.bridge != [];
    ConfirmableIsSound(w, s, r, c, e);
    OneStep(w, s, r, c, e);
    hide Confirmable, ConfirmedWithoutReceipt, After, Conclude, ConfirmRoleRequest, MadeReceipt;
    assert Store(s.bridge, s.receipts) == s;
    ConcludesSerially(w, s, s, s.bridge, r, c, e, earlier, later);
    var (out, fault) := Conclude(w, After(w, s, earlier), s.bridge, s.bridge, r, c, e, later);
    if fault.Some? {
      var n := if out == After(w, s, earlier) then |earlier| else |all|;
      assert all[..|earlier|] == earlier && all[..|all|] == all;
      NoEffect(w, s, c, e, all, n, fault.value);
      return Order(all[..n], [], []);
    }
    AfterNothing(w, s);
    AfterOne(w, s, ConfirmEvent(c, e));
    assert all[0..] == all;
    return Order([], [ConfirmEvent(c, e)], Outside(all));
  }

  /** The second half of an operation that publishes the confirmation itself. */
  lemma {:induction false} PublishesSerially(w: Setup, s: Store, r: Role, c: ConfirmCall, e: ConfirmWorld, published: Bridge,
                                  earlier: seq<Event>, later: seq<Event>)
    returns (o: Order)
    requires Kept(w.anchor, s) && Confirmable(w, s, r, c, e) && r !in Last(s.bridge).art.confirmations
    requires ConfirmRole(s.bridge, r, c.ids, e.bridgeTime, e.claimed, e.shas) == Some(published) && published != []
    ensures var s3 := After(w, Store(published, s.receipts), earlier);
            var (out, fault) :=
              if Last(s3.bridge).number != Last(s.bridge).number + 1 then (s3, Some(BindingFault))
              else Conclude(w, s3, s.bridge, s3.bridge, r, c, e, later);
            Explains(w, s, c, e, earlier + later, o, out, fault)
  {
    var all := earlier + later;
    var t := Store(published, s.receipts);
    var s3 := After(w, t, earlier);
    assert s.bridge != [] && Last(published).number == Last(s.bridge).number + 1;
    OneStep(w, s, r, c, e);
    WithoutReceiptIsKept(w, t, r);
    hide Confirmable, ConfirmedWithoutReceipt, After, Conclude, ConfirmRoleRequest, MadeReceipt, ConfirmRole, Kept;
    AfterKeeps(w, t, earlier);
    AfterNothing(w, s);
    AfterOne(w, s, ConfirmEvent(c, e));
    AfterOne(w, s, ConfirmEvent(c, e.(crash := true)));
    assert all[0..] == all && all[..|earlier|] == earlier && all[..|all|] == all;
    var crashed := [ConfirmEvent(c, e.(crash := true))];
    if Last(s3.bridge).number != Last(s.bridge).number + 1 {
      return Order([], crashed, earlier);
    }
    SameNumber(w.anchor, t, s3);
    ConcludesSerially(w, s, t, published, r, c, e, earlier, later);
    var (out, fault) := Conclude(w, s3, s.bridge, published, r, c, e, later);
    if fault.Some? {
      return Order([], crashed, if out == s3 then earlier else all);
    }
    return Order([], [ConfirmEvent(c, e)], Outside(all));
  }

  /** An explanation from a later store is one from the start, with what happened until then before it. */
  lemma {:induction false} ExplainedLater(w: Setup, s: Store, c: ConfirmCall, e: ConfirmWorld, first: seq<Event>,
                               rest: seq<Event>, o: Order, out: Store, fault: Option<Fault>)
    requires s.bridge != [] && Explains(w, After(w, s, first), c, e, rest, o, out, fault)
    ensures Explains(w, s, c, e, first + rest, Order(first + o.before, o.mine, o.after), out, fault)
  {
    hide After, ConfirmRoleRequest;
    AfterConcat(w, s, first, o.before);
    assert (first + rest)[|first + o.before|..] == rest[|o.before|..];
  }

  /** The bridge's answer, on the revision the caller named. */
  lemma {:induction false} AsksSerially(w: Setup, s: Store, r: Role, c: ConfirmCall, e: ConfirmWorld, m: Meanwhile)
    returns (o: Order)
    requires Kept(w.anchor, s) && Confirmable(w, s, r, c, e) && r !in Last(s.bridge).art.confirmations
    requires m.publishing == []
    ensures var (out, fault) := ConfirmFrom(w, s, r, c, e, m); Explains(w, s, c, e, m.readBack + m.receipt, o, out, fault)
  {
    assert s.bridge != [] && r in Last(s.bridge).art.requests;
    AfterNothing(w, s);
    hide Kept, Confirmable, Explains, After, Conclude, ConfirmRole;
    var published := ConfirmRole(s.bridge, r, c.ids, e.bridgeTime, e.claimed, e.shas);
    if published.None? {
      Refused(w, s, c, e, m.readBack + m.receipt, BindingFault);
      return NOTHING;
    }
    ConfirmedSomething(s.bridge, r, c.ids, e.bridgeTime, e.claimed, e.shas);
    o := PublishesSerially(w, s, r, c, e, published.value, m.readBack, m.receipt);
  }

  lemma {:induction false} ConfirmsSerially(w: Setup, s: Store, r: Role, c: ConfirmCall, e: ConfirmWorld, m: Meanwhile)
    returns (o: Order)
    requires Kept(w.anchor, s) && Confirmable(w, s, r, c, e)
    ensures var (out, fault) := ConfirmFrom(w, s, r, c, e, m);
            Explains(w, s, c, e, m.publishing + m.readBack + m.receipt, o, out, fault)
  {
    assert s.bridge != [] && r in Last(s.bridge).art.requests;
    var (out, fault) := ConfirmFrom(w, s, r, c, e, m);
    hide Kept, Grows, Confirmable, Explains, After, Conclude, ConfirmRole;
    var s2, rest := After(w, s, m.publishing), m.readBack + m.receipt;
    assert m.publishing + rest == m.publishing + m.readBack + m.receipt;
    if r in Last(s.bridge).art.confirmations {
      AfterConcat(w, s, m.publishing, m.readBack);
      o := ReconfirmsSerially(w, s, r, c, e, m.publishing + m.readBack, m.receipt);
    } else {
      AfterKeeps(w, s, m.publishing);
      if PointOf(s2.bridge) != PointOf(s.bridge) {
        Refused(w, s2, c, e, rest, BindingFault);
        o := NOTHING;
      } else {
        SameNumber(w.anchor, s, s2);
        ConfirmableStays(w, s, s2, r, c, e);
        o := AsksSerially(w, s2, r, c, e, m.(publishing := []));
        AfterNothing(w, s2);
      }
      ExplainedLater(w, s, c, e, m.publishing, rest, o, out, fault);
      o := Order(m.publishing + o.before, o.mine, o.after);
    }
  }

  lemma {:induction false} ConfirmedSomething(b: Bridge, r: Role, ids: Ids, now: Time, claimed: bool, shas: Shas)
    requires b != [] && ConfirmRole(b, r, ids, now, claimed, shas).Some?
    ensures ConfirmRole(b, r, ids, now, claimed, shas).value != []
  {
  }

  /** A confirmation amid others has no effect and says so, or is the confirmation in one step, or is what
      a crash before the receipt leaves of it, each at one moment in the order of the others. */
  lemma {:induction false} ConfirmIsSerial(w: Setup, s: Store, c: ConfirmCall, e: ConfirmWorld, m: Meanwhile)
    returns (o: Order)
    requires Kept(w.anchor, s)
    ensures var (out, fault) := ConfirmAmid(w, s, c, e, m); Explains(w, s, c, e, All(m), o, out, fault)
  {
    assert s.bridge != [];
    hide Kept, Grows, After, Observed, Explains, ConfirmFrom;
    var rest := m.publishing + m.readBack + m.receipt;
    var s1 := After(w, s, m.reading);
    var (out, fault) := ConfirmAmid(w, s, c, e, m);
    assert All(m) == m.reading + rest;
    var first := Observed(w, s, e.observedAt);
    if first.Err? || w.localOnly || Admitted(first.value, AwaitingConfirmation).Some? {
      Refused(w, s, c, e, All(m), fault.value);
      return NOTHING;
    }
    var r := first.value.progress.next.value;
    var a := Last(s1.bridge).art;
    if || SecondRead(w, s1, e.observedAt, PointOf(s.bridge), first.value).Some? || c.expected.role != r
       || r !in a.requests || !ExpectedMatches(w, s1.bridge, r, c.expected) || e.beforeBridge >= a.requests[r].expiresAt {
      Refused(w, s1, c, e, rest, fault.value);
      o := NOTHING;
    } else {
      AfterKeeps(w, s, m.reading);
      o := ConfirmsSerially(w, s1, r, c, e, m);
    }
    ExplainedLater(w, s, c, e, m.reading, rest, o, out, fault);
    return Order(m.reading + o.before, o.mine, o.after);
  }

  // ------------------------------------------------------------------ consequences

  /** With nobody else at work both operations are what they are in one step. */
  lemma {:induction false} AloneIsOneStep(w: Setup, s: Store, c: ConfirmCall, e: ConfirmWorld, x: ExecuteWorld)
    requires s.bridge != []
    ensures ConfirmAmid(w, s, c, e, Meanwhile([], [], [], [])) == ConfirmRoleRequest(w, s, c, e)
    ensures ExecuteAmid(w, s, x, [], []) == ExecuteNextRole(w, s, x)
  {
    hide Observed, ExecuteRole, Reread, Ending, MadeReceipt;
  }

  /** Whatever others do meanwhile, an operation only adds, and leaves a store that is readable or was
      closed by a published launch: what holds of runs of one-step operations holds amid others. */
  lemma {:induction false} AmidOthersIsSafe(w: Setup, s: Store, c: ConfirmCall, e: ConfirmWorld, m: Meanwhile,
                                 x: ExecuteWorld, reading: seq<Event>, admitting: seq<Event>)
    requires s.bridge != [] && Kept(w.anchor, s)
    ensures Kept(w.anchor, ConfirmAmid(w, s, c, e, m).0) && Grows(s, ConfirmAmid(w, s, c, e, m).0)
    ensures var t := ExecuteAmid(w, s, x, reading, admitting).0; Kept(w.anchor, t) && Grows(s, t)
  {
    hide Kept, Grows, After, ConfirmRoleRequest, ExecuteNextRole, ConfirmAmid, ExecuteAmid;
    var o := ConfirmIsSerial(w, s, c, e, m);
    var s1 := After(w, s, o.before);
    var s2 := After(w, s1, o.mine);
    AfterKeeps(w, s, o.before);
    AfterKeeps(w, s1, o.mine);
    AfterKeeps(w, s2, o.after);
    GrowsTransitive(s, s1, s2);
    GrowsTransitive(s, s2, After(w, s2, o.after));
    var before := ExecuteIsSerial(w, s, x, reading, admitting);
    var t := After(w, s, before);
    AfterKeeps(w, s, before);
    StepIsKept(w, t, ExecuteEvent(x));
    GrowsTransitive(s, t, Next(w, t, ExecuteEvent(x)));
  }
}
