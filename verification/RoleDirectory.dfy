/** The workflow directory that several processes use at once. An operation reads twice, publishes at
    the bridge and writes a receipt; between any two of these others may confirm, execute or call the
    bridge directly. */
module RoleDirectory {
  import opened Basics
  import opened RoleBridge
  import opened RoleWorkflow
  import opened RoleSafety

  /** What others do between the two reads, before the publication, before it is read back, and before
      the receipt is written. */
  datatype Meanwhile = Meanwhile(reading: seq<Event>, publishing: seq<Event>, readBack: seq<Event>, receipt: seq<Event>)

  function SecondRead(w: Setup, s: Store, at: Time, point: Point, first: View): Option<Fault>
    requires s.bridge != []
  {
    var second := Observed(w, s, at);
    if second.Err? then Some(second.error)
    else if PointOf(s.bridge) != point || second.value != first then Some(BindingFault)
    else None
  }

  /** From a confirmation at the bridge to the receipt. */
  function Conclude(w: Setup, s: Store, preview: Bridge, confirmed: Bridge, r: Role, c: ConfirmCall, e: ConfirmWorld,
                    others: seq<Event>): (result: (Store, Option<Fault>))
    requires s.bridge != [] && preview != [] && confirmed != [] && r in Last(preview).art.requests
    ensures result.0.bridge != []
  {
    var confirmations := Last(confirmed).art.confirmations;
    if e.crash then (s, Some(Crashed))
    else if r !in confirmations || confirmations[r].requestSig != Last(preview).art.requests[r].sig
            || confirmations[r].ids != c.ids then (s, Some(BindingFault))
    else if e.afterBridge >= confirmations[r].expiresAt then (s, Some(ExpiredFault))
    else
      var s' := After(w, s, others);
      if r in s'.receipts then (s', Some(BindingFault))
      else (Store(s'.bridge, s'.receipts[r := MadeReceipt(w, preview, confirmed, r)]), None)
  }

  /** From the second read on: the publication, unless the role is confirmed already, and the receipt. */
  function ConfirmFrom(w: Setup, s: Store, r: Role, c: ConfirmCall, e: ConfirmWorld, m: Meanwhile)
    : (result: (Store, Option<Fault>))
    requires s.bridge != [] && r in Last(s.bridge).art.requests
    ensures result.0.bridge != []
  {
    var s2 := After(w, s, m.publishing);
    if r in Last(s.bridge).art.confirmations then
      Conclude(w, After(w, s2, m.readBack), s.bridge, s.bridge, r, c, e, m.receipt)
    // The bridge publishes only on the revision the caller named.
    else if PointOf(s2.bridge) != PointOf(s.bridge) then (s2, Some(BindingFault))
    else
      var published := ConfirmRole(s2.bridge, r, c.ids, e.bridgeTime, e.claimed, e.shas);
      if published.None? then (s2, Some(BindingFault))
      else
        var s3 := After(w, Store(published.value, s2.receipts), m.readBack);
        if Last(s3.bridge).number != Last(s.bridge).number + 1 then (s3, Some(BindingFault))
        else Conclude(w, s3, s.bridge, s3.bridge, r, c, e, m.receipt)
  }

  function ConfirmAmid(w: Setup, s: Store, c: ConfirmCall, e: ConfirmWorld, m: Meanwhile): (result: (Store, Option<Fault>))
    requires s.bridge != []
    ensures result.0.bridge != []
  {
    var first := Observed(w, s, e.observedAt);
    if first.Err? then (s, Some(first.error))
    else if w.localOnly then (s, Some(LocalOnly))
    else if Admitted(first.value, AwaitingConfirmation).Some? then (s, Admitted(first.value, AwaitingConfirmation))
    else
      var s1 := After(w, s, m.reading);
      var changed := SecondRead(w, s1, e.observedAt, PointOf(s.bridge), first.value);
      if changed.Some? then (s1, changed)
      else
        var r := first.value.progress.next.value;
        var a := Last(s1.bridge).art;
        if c.expected.role != r then (s1, Some(OrderFault))
        else if r !in a.requests || !ExpectedMatches(w, s1.bridge, r, c.expected) then (s1, Some(BindingFault))
        else if e.beforeBridge >= a.requests[r].expiresAt then (s1, Some(ExpiredFault))
        else ConfirmFrom(w, s1, r, c, e, m)
  }

  function ExecuteAmid(w: Setup, s: Store, e: ExecuteWorld, reading: seq<Event>, admitting: seq<Event>)
    : (result: (Store, Option<Fault>))
    requires s.bridge != []
    ensures result.0.bridge != []
  {
    var first := Observed(w, s, e.observedAt);
    if first.Err? then (s, Some(first.error))
    else if w.localOnly then (s, Some(LocalOnly))
    else if Admitted(first.value, ReadyToExecute).Some? then (s, Admitted(first.value, ReadyToExecute))
    else
      var s1 := After(w, s, reading);
      var changed := SecondRead(w, s1, e.observedAt, PointOf(s.bridge), first.value);
      if changed.Some? then (s1, changed)
      else
        var r := first.value.progress.next.value;
        var a := Last(s1.bridge).art;
        if r !in a.confirmations then (s1, Some(BindingFault))
        else if e.beforeBridge >= a.confirmations[r].expiresAt then (s1, Some(ExpiredFault))
        else
          var s2 := After(w, s1, admitting);
          var executed := ExecuteRole(s2.bridge, r, e.admittedAt, e.shas, e.outcome);
          if executed.None? then (s2, Some(Reread(w, s2, e.rereadAt)))
          else
            var s' := Store(executed.value, s2.receipts);
            if e.outcome.Finished? then (s', Ending(w, s', e.rereadAt))
            else (s', Some(if e.died then Crashed else Reread(w, s', e.rereadAt)))
  }

  // ------------------------------------------------------------------ the workflow directory

  /** The directory's files: the bridge's revisions and one receipt file per role. */
  class Directory {
    const setup: Setup
    var bridge: Bridge
    var receipts: map<Role, Receipt>

    ghost predicate Valid() reads this { bridge != [] }

    ghost function Contents(): Store reads this { Store(bridge, receipts) }

    constructor (setup: Setup, bridge: Bridge)
      requires bridge != []
      ensures Valid() && this.setup == setup && Contents() == Store(bridge, map[])
    {
      this.setup, this.bridge, this.receipts := setup, bridge, map[];
    }

    /** Every receipt on disk verifies, and every role that needs one has one. */
    method VerifyBindings(a: Artifacts) returns (verified: Option<set<Role>>)
      requires Valid() && a == Last(bridge).art
      ensures verified.Some? <==> BindingsOk(setup.anchor, Contents())
      ensures verified.Some? ==> verified.value == receipts.Keys
    {
      var found: set<Role> := {};
      for n := 0 to 5
        invariant forall r: Role :: r in found <==> r < n && r in receipts
        invariant forall r: Role :: r < n && r in receipts ==>
          receipts[r].role == r && Verifies(setup.anchor, bridge, receipts[r])
      {
        var role: Role := n;
        if role in receipts {
          if receipts[role].role != role || !Verifies(setup.anchor, bridge, receipts[role]) { return None; }
          found := found + {role};
        }
      }
      for n := 0 to 5
        invariant forall r: Role :: r < n && NeedsReceipt(a, r) ==> r in receipts
      {
        var role: Role := n;
        if NeedsReceipt(a, role) && role !in found { return None; }
      }
      assert found == receipts.Keys;
      return Some(found);
    }

    method Observe(now: Time) returns (r: Result<View, Fault>)
      requires Valid()
      ensures r == Observed(setup, Contents(), now)
    {
      var v := Last(bridge);
      if !Chained(bridge) { return Err(BridgeFault); }
      var replayed := Replay(v);
      if replayed.None? { return Err(BridgeFault); }
      var bound := VerifyBindings(v.art);
      if bound.None? { return Err(BindingFault); }
      var progress := RoleProgress(setup.localOnly, v, replayed.value, bound.value, now);
      if progress.None? { return Err(StateFault); }
      return Ok(View(replayed.value, progress.value));
    }

    /** What other processes do in between. */
    method Elsewhere(events: seq<Event>)
      requires Valid()
      modifies this
      ensures Valid() && Contents() == After(setup, old(Contents()), events)
    {
      var s := Store(bridge, receipts);
      for k := 0 to |events|
        invariant s.bridge != [] && s == After(setup, old(Contents()), events[..k])
      {
        assert events[..k + 1][..k] == events[..k];
        s := Next(setup, s, events[k]);
      }
      assert events[..|events|] == events;
      bridge, receipts := s.bridge, s.receipts;
    }

    /** The second read must show what the first one did. */
    method Again(point: Point, first: View, at: Time) returns (fault: Option<Fault>)
      requires Valid()
      ensures fault == SecondRead(setup, Contents(), at, point, first)
    {
      var second := Observe(at);
      if second.Err? { return Some(second.error); }
      if PointOf(bridge) != point || second.value != first { return Some(BindingFault); }
      return None;
    }

    method Confirm(c: ConfirmCall, e: ConfirmWorld, m: Meanwhile) returns (fault: Option<Fault>)
      requires Valid()
      modifies this
      ensures Valid()
      ensures (Contents(), fault) == ConfirmAmid(setup, old(Contents()), c, e, m)
    {
      hide Observed, Verifies, ReplayOk, Chained, After, SecondRead;
      var first := Observe(e.observedAt);
      if first.Err? { return Some(first.error); }
      if setup.localOnly { return Some(LocalOnly); }
      if Admitted(first.value, AwaitingConfirmation).Some? { return Admitted(first.value, AwaitingConfirmation); }
      var point := PointOf(bridge);
      Elsewhere(m.reading);
      var changed := Again(point, first.value, e.observedAt);
      if changed.Some? { return changed; }
      var r := first.value.progress.next.value;
      var preview := bridge;
      var a := Last(preview).art;
      if c.expected.role != r { return Some(OrderFault); }
      if r !in a.requests || !ExpectedMatches(setup, preview, r, c.expected) { return Some(BindingFault); }
      if e.beforeBridge >= a.requests[r].expiresAt { return Some(ExpiredFault); }
      Elsewhere(m.publishing);
      var confirmed := preview;
      if r in a.confirmations {
        Elsewhere(m.readBack);
      } else {
        if PointOf(bridge) != PointOf(preview) { return Some(BindingFault); }
        var published := ConfirmRole(bridge, r, c.ids, e.bridgeTime, e.claimed, e.shas);
        if published.None? { return Some(BindingFault); }
        bridge := published.value;
        Elsewhere(m.readBack);
        if Last(bridge).number != Last(preview).number + 1 { return Some(BindingFault); }
        confirmed := bridge;
      }
      if e.crash { return Some(Crashed); }
      var confirmations := Last(confirmed).art.confirmations;
      if r !in confirmations || confirmations[r].requestSig != a.requests[r].sig || confirmations[r].ids != c.ids {
        return Some(BindingFault);
      }
      if e.afterBridge >= confirmations[r].expiresAt { return Some(ExpiredFault); }
      Elsewhere(m.receipt);
      if r in receipts { return Some(BindingFault); }
      receipts := receipts[r := MadeReceipt(setup, preview, confirmed, r)];
      return None;
    }

    method Execute(e: ExecuteWorld, reading: seq<Event>, admitting: seq<Event>) returns (fault: Option<Fault>)
      requires Valid()
      modifies this
      ensures Valid()
      ensures (Contents(), fault) == ExecuteAmid(setup, old(Contents()), e, reading, admitting)
    {
      hide Observed, Verifies, ReplayOk, Chained, After, SecondRead;
      var first := Observe(e.observedAt);
      if first.Err? { return Some(first.error); }
      if setup.localOnly { return Some(LocalOnly); }
      if Admitted(first.value, ReadyToExecute).Some? { return Admitted(first.value, ReadyToExecute); }
      var point := PointOf(bridge);
      Elsewhere(reading);
      var changed := Again(point, first.value, e.observedAt);
      if changed.Some? { return changed; }
      var r := first.value.progress.next.value;
      var a := Last(bridge).art;
      if r !in a.confirmations { return Some(BindingFault); }
      if e.beforeBridge >= a.confirmations[r].expiresAt { return Some(ExpiredFault); }
      Elsewhere(admitting);
      var executed := ExecuteRole(bridge, r, e.admittedAt, e.shas, e.outcome);
      if executed.None? {
        var refusal := RereadAfterFailure(e.rereadAt);
        return Some(refusal);
      }
      bridge := executed.value;
      if e.outcome.LeftOpen? {
        if e.died { return Some(Crashed); }
        var refusal := RereadAfterFailure(e.rereadAt);
        return Some(refusal);
      }
      var ending := Observe(e.rereadAt);
      return if ending.Err? then Some(ending.error) else None;
    }

    method RereadAfterFailure(now: Time) returns (fault: Fault)
      requires Valid()
      ensures fault == Reread(setup, Contents(), now)
    {
      var view := Observe(now);
      if view.Ok? {
        if view.value.replayed.reconcile || view.value.progress.state == Running { return ReconciliationNeeded; }
        if view.value.progress.state == Expired { return ExpiredFault; }
      }
      return ExecutionFault;
    }
  }
}
