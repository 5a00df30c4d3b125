/** The mutable `active` and `pending` queues decide exactly the legal hands of `BettingOrder`. */
module BettingMachine {
  import opened Basics
  import opened BettingOrder

  // ------------------------------------------------------------------ filtering an order

  lemma {:induction false} OnlyMember(s: seq<string>, keep: set<string>, p: string)
    ensures p in Only(s, keep) <==> p in s && p in keep
  {
    if s != [] {
      OnlyMember(s[1..], keep, p);
      assert s == [s[0]] + s[1..];
    }
  }

  lemma {:induction false} OnlyAppend(a: seq<string>, b: seq<string>, keep: set<string>)
    ensures Only(a + b, keep) == Only(a, keep) + Only(b, keep)
  {
    if a == [] {
      assert a + b == b;
    } else {
      OnlyAppend(a[1..], b, keep);
      assert (a + b)[1..] == a[1..] + b;
    }
  }

  lemma {:induction false} OnlyDistinct(s: seq<string>, keep: set<string>)
    requires Distinct(s)
    ensures Distinct(Only(s, keep))
  {
    if s != [] {
      OnlyDistinct(s[1..], keep);
      OnlyMember(s[1..], keep, s[0]);
      DistinctSplit(s, 0);
    }
  }

  lemma {:induction false} OnlyWithout(s: seq<string>, keep: set<string>, p: string)
    requires p !in s
    ensures Only(s, keep - {p}) == Only(s, keep)
  {
    if s != [] {
      OnlyWithout(s[1..], keep, p);
    }
  }

  /** Whoever heads a filtered order is the one removed by dropping that player from the filter. */
  lemma {:induction false} OnlyHead(s: seq<string>, keep: set<string>)
    requires Distinct(s) && Only(s, keep) != []
    ensures Only(s, keep - {Only(s, keep)[0]}) == Only(s, keep)[1..]
  {
    if s[0] in keep {
      assert s[0] !in s[1..];
      OnlyWithout(s[1..], keep, s[0]);
    } else {
      OnlyHead(s[1..], keep);
    }
  }

  lemma {:induction false} Split(s: seq<string>, k: nat)
    requires k < |s|
    ensures s == s[..k] + [s[k]] + s[k + 1..]
  {
  }

  lemma {:induction false} DistinctSplit(s: seq<string>, k: nat)
    requires k < |s| && Distinct(s)
    ensures s[k] !in s[..k] && s[k] !in s[k + 1..]
  {
    forall j | 0 <= j < |s| && j != k
      ensures s[j] != s[k]
    {
    }
  }

  lemma {:induction false} OthersFromSplit(a: seq<string>, p: string, b: seq<string>)
    requires p !in a
    ensures p in a + [p] + b && IndexOf(a + [p] + b, p) == |a| && OthersFrom(a + [p] + b, p) == b + a
  {
    var s := a + [p] + b;
    assert s[|a|] == p;
    if a != [] {
      OthersFromSplit(a[1..], p, b);
      assert s[1..] == a[1..] + [p] + b;
      assert s[0] == a[0] != p;
    }
  }

  /** Filtering commutes with rotating past a kept player. */
  lemma {:induction false} OnlyRotated(order: seq<string>, keep: set<string>, p: string)
    requires Distinct(order) && p in order && p in keep
    ensures p in Only(order, keep)
    ensures Only(OthersFrom(order, p), keep - {p}) == OthersFrom(Only(order, keep), p)
  {
    hide Only, OthersFrom, Distinct;
    var k := IndexOf(order, p);
    var before, after := order[..k], order[k + 1..];
    Split(order, k);
    DistinctSplit(order, k);
    OthersFromSplit(before, p, after);
    OnlyAppend(before + [p], after, keep);
    OnlyAppend(before, [p], keep);
    assert Only([p], keep) == [p] by { OnlyIdentity([p], keep); }
    OnlyMember(before, keep, p);
    OthersFromSplit(Only(before, keep), p, Only(after, keep));
    OnlyWithout(before, keep, p);
    OnlyWithout(after, keep, p);
    OnlyAppend(after, before, keep - {p});
  }

  // ------------------------------------------------------------------ one action more

  lemma {:induction false} Prefix<T>(h: seq<T>, x: T)
    ensures (h + [x])[..|h|] == h && (h + [x])[|h|] == x
  {
  }

  lemma {:induction false} RoundStartExtend(h: History, x: Action)
    requires |h| >= 2
    ensures RoundStart(h + [x]) == if Aggressive(x) || x.street != CurrentStreet(h) then |h| else RoundStart(h)
  {
    Prefix(h, x);
  }

  lemma {:induction false} RoundStartBounds(h: History)
    requires |h| >= 2
    ensures 2 <= RoundStart(h) <= |h|
    ensures RoundStart(h) < |h| ==> RoundStart(h) >= 2
  {
    if |h| > 2 {
      RoundStartBounds(h[..|h| - 1]);
    }
  }

  lemma {:induction false} ActorsExtend(h: History, x: Action, start: nat)
    requires start <= |h|
    ensures Actors(h + [x], start) == Actors(h, start) + {x.actor}
  {
    var g := h + [x];
    assert g[|h|] == x;
    forall p | p in Actors(h, start)
      ensures p in Actors(g, start)
    {
      var k :| start <= k < |h| && h[k].actor == p;
      assert g[k].actor == p;
    }
  }

  lemma {:induction false} FoldedExtend(h: History, x: Action)
    ensures Folded(h + [x]) == Folded(h) + if x.kind == Fold then {x.actor} else {}
  {
    var g := h + [x];
    assert g[|h|] == x;
    forall p | p in Folded(h)
      ensures p in Folded(g)
    {
      var k :| 0 <= k < |h| && h[k].kind == Fold && h[k].actor == p;
      assert g[k].kind == Fold && g[k].actor == p;
    }
  }

  lemma {:induction false} ActiveExtend(players: seq<Player>, h: History, x: Action)
    ensures Active(players, h + [x]) == if x.kind == Fold then Active(players, h) - {x.actor} else Active(players, h)
  {
    FoldedExtend(h, x);
  }

  lemma {:induction false} OthersFromDistinct(order: seq<string>, p: string)
    requires Distinct(order) && p in order
    ensures Distinct(OthersFrom(order, p))
    ensures forall q :: q in OthersFrom(order, p) <==> q in order && q != p
  {
    var k := IndexOf(order, p);
    var others := OthersFrom(order, p);
    var n := |order| - k - 1;
    assert forall i :: 0 <= i < n ==> others[i] == order[i + k + 1];
    assert forall i :: n <= i < |others| ==> others[i] == order[i - n];
    forall q
      ensures q in others <==> q in order && q != p
    {
      Split(order, k);
      DistinctSplit(order, k);
    }
  }

  lemma {:induction false} RoundOrderDistinct(players: seq<Player>, h: History)
    requires Seated(players) && DistinctPlayers(players)
    ensures Distinct(RoundOrder(players, h))
    ensures forall p :: p in RoundOrder(players, h) ==> p in Ids(players)
  {
    hide Seated, StreetOrder;
    var order, s := StreetOrder(players, CurrentStreet(h)), RoundStart(h);
    StreetOrderComplete(players, CurrentStreet(h));
    if s < |h| && Aggressive(h[s]) && h[s].actor in order {
      OthersFromDistinct(order, h[s].actor);
    }
  }

  lemma {:induction false} TurnIsActive(players: seq<Player>, h: History, street: Street, p: string)
    requires p in ToActOn(players, h, street)
    ensures p in Active(players, h)
  {
    OnlyMember(RoundOrder(players, h), Owed(players, h), p);
    OnlyMember(StreetOrder(players, street), Active(players, h), p);
  }

  lemma {:induction false} QueueSameStreet(players: seq<Player>, h: History, x: Action)
    requires Seated(players) && DistinctPlayers(players) && |h| >= 2
    requires x.street == CurrentStreet(h) && !Aggressive(x)
    requires |Active(players, h)| >= 2 && |Active(players, h + [x])| >= 2
    requires ToAct(players, h) != [] && ToAct(players, h)[0] == x.actor
    ensures ToAct(players, h + [x]) == ToAct(players, h)[1..]
  {
    hide Seated, StreetOrder, Only, Active, Actors, Folded, RoundStart;
    var g := h + [x];
    StreetAfter(h, x);
    RoundStartExtend(h, x);
    RoundStartBounds(h);
    ActorsExtend(h, x, RoundStart(g));
    ActiveExtend(players, h, x);
    assert Owed(players, g) == Owed(players, h) - {x.actor};
    assert RoundOrder(players, g) == RoundOrder(players, h);
    RoundOrderDistinct(players, h);
    OnlyHead(RoundOrder(players, h), Owed(players, h));
  }

  lemma {:induction false} QueueNewStreet(players: seq<Player>, h: History, x: Action)
    requires Seated(players) && DistinctPlayers(players) && |h| >= 2
    requires x.street != CurrentStreet(h) && !Aggressive(x)
    requires |Active(players, h)| >= 2 && |Active(players, h + [x])| >= 2
    requires var queue := Only(StreetOrder(players, x.street), Active(players, h)); queue != [] && queue[0] == x.actor
    ensures ToAct(players, h + [x]) == Only(StreetOrder(players, x.street), Active(players, h))[1..]
  {
    hide Seated, StreetOrder, Only, Active, RoundStart, Folded;
    var g := h + [x];
    StreetAfter(h, x);
    RoundStartExtend(h, x);
    ActorsExtend(h, x, |h|);
    ActiveExtend(players, h, x);
    assert Actors(h, |h|) == {};
    assert Owed(players, g) == Active(players, h) - {x.actor};
    assert RoundOrder(players, g) == StreetOrder(players, x.street);
    StreetOrderComplete(players, x.street);
    OnlyHead(StreetOrder(players, x.street), Active(players, h));
  }

  /** A check, call or fold takes its player off the head of the queue. */
  lemma {:induction false} QueueAfterPassive(players: seq<Player>, h: History, x: Action)
    requires Seated(players) && DistinctPlayers(players) && |h| >= 2
    requires LegalNext(players, h, x) && !Aggressive(x)
    requires |Active(players, h + [x])| >= 2
    ensures ToAct(players, h + [x]) == ToActOn(players, h, x.street)[1..]
  {
    hide Seated, StreetOrder, Only, Active, RoundStart, Folded, ToAct;
    if x.street == CurrentStreet(h) {
      QueueSameStreet(players, h, x);
    } else {
      QueueNewStreet(players, h, x);
    }
  }

  /** A bet or raise makes everybody else still in the hand owe an action, from the next seat on. */
  lemma {:induction false} QueueAfterAggression(players: seq<Player>, h: History, x: Action)
    requires Seated(players) && DistinctPlayers(players) && |h| >= 2
    requires LegalNext(players, h, x) && Aggressive(x)
    ensures var order := Only(StreetOrder(players, x.street), Active(players, h));
            x.actor in order && ToAct(players, h + [x]) == OthersFrom(order, x.actor)
  {
    var g := h + [x];
    Prefix(h, x);
    RoundStartExtend(h, x);
    ActorsExtend(h, x, |h|);
    ActiveExtend(players, h, x);
    assert Actors(h, |h|) == {};
    assert Owed(players, g) == Active(players, h) - {x.actor};
    TurnIsActive(players, h, x.street, x.actor);
    StreetOrderComplete(players, x.street);
    OnlyRotated(StreetOrder(players, x.street), Active(players, h), x.actor);
  }

  lemma {:induction false} OpeningQueue(players: seq<Player>, h: History)
    requires Seated(players) && DistinctPlayers(players) && BlindsPosted(players, h)
    ensures Active(players, h[..2]) == Ids(players) && |Ids(players)| >= 2
    ensures ToAct(players, h[..2]) == Only(StreetOrder(players, Preflop), Ids(players))
    ensures ToAct(players, h[..2]) != [] && CurrentStreet(h[..2]) == Preflop
  {
    var g := h[..2];
    assert g[0] == h[0] && g[1] == h[1];
    assert Folded(g) == {} && Actors(g, 2) == {};
    IdsCount(players);
    StreetOrderComplete(players, Preflop);
    OnlyMember(StreetOrder(players, Preflop), Ids(players), players[0].id);
  }

  lemma {:induction false} IdsCount(players: seq<Player>)
    requires DistinctPlayers(players)
    ensures |Ids(players)| == |players|
  {
    if players != [] {
      var init, last := players[..|players| - 1], players[|players| - 1];
      IdsCount(init);
      assert Ids(players) == Ids(init) + {last.id} by {
        forall p | p in Ids(init) + {last.id}
          ensures p in Ids(players)
        {
          if p == last.id {
            assert players[|players| - 1].id == p;
          } else {
            var i :| 0 <= i < |init| && init[i].id == p;
            assert players[i].id == p;
          }
        }
        forall p | p in Ids(players)
          ensures p in Ids(init) + {last.id}
        {
          var i :| 0 <= i < |players| && players[i].id == p;
          if i < |init| { assert init[i].id == p; }
        }
      }
      assert last.id !in Ids(init);
    }
  }

  // ------------------------------------------------------------------ the machine

  datatype OrderFault =
    | Positions
    | TooFewActions
    | BlindOrder
    | Terminal(at: nat)
    | StreetChange(at: nat)
    | ActorOrder(at: nat)
    | Unfinished

  ghost predicate LegalUpTo(players: seq<Player>, actions: History, n: nat) {
    && n <= |actions|
    && Seated(players)
    && BlindsPosted(players, actions)
    && forall i :: 2 <= i < n ==> LegalNext(players, actions[..i], actions[i])
  }

  ghost predicate MayMoveTo(players: seq<Player>, h: History, street: Street) {
    street != CurrentStreet(h) ==> street.Rank() == CurrentStreet(h).Rank() + 1 && ToAct(players, h) == [] && |h| > 2
  }

  /** What each refusal says: where the first illegal action stands and which rule it breaks. */
  ghost predicate Explains(players: seq<Player>, actions: History, f: OrderFault) {
    match f
    case Positions => !Seated(players)
    case TooFewActions => Seated(players) && |actions| < 3
    case BlindOrder => Seated(players) && |actions| >= 3 && !BlindsPosted(players, actions)
    case Terminal(at) =>
      && at < |actions| && LegalUpTo(players, actions, at)
      && (|Active(players, actions[..at])| == 1 || actions[at].kind == PostBlind)
    case StreetChange(at) =>
      && at < |actions| && LegalUpTo(players, actions, at)
      && |Active(players, actions[..at])| >= 2 && actions[at].kind != PostBlind
      && !MayMoveTo(players, actions[..at], actions[at].street)
    case ActorOrder(at) =>
      && at < |actions| && LegalUpTo(players, actions, at)
      && |Active(players, actions[..at])| >= 2 && actions[at].kind != PostBlind
      && MayMoveTo(players, actions[..at], actions[at].street)
      && var turn := ToActOn(players, actions[..at], actions[at].street);
         turn == [] || turn[0] != actions[at].actor
    case Unfinished => LegalUpTo(players, actions, |actions|) && |Active(players, actions)| >= 2
  }

  lemma {:induction false} OnlyIdentity(s: seq<string>, keep: set<string>)
    requires forall p :: p in s ==> p in keep
    ensures Only(s, keep) == s
  {
    if s != [] {
      OnlyIdentity(s[1..], keep);
    }
  }

  /** Refiltering the queue after a fold removes nobody: the folder was already popped. */
  lemma {:induction false} OnlyKeepsAll(players: seq<Player>, h: History, x: Action)
    requires Seated(players) && DistinctPlayers(players) && |h| >= 2 && LegalNext(players, h, x)
    ensures var rest := ToActOn(players, h, x.street)[1..]; Only(rest, Active(players, h) - {x.actor}) == rest
  {
    var queue := ToActOn(players, h, x.street);
    RoundOrderDistinct(players, h);
    OnlyDistinct(RoundOrder(players, h), Owed(players, h));
    StreetOrderComplete(players, x.street);
    OnlyDistinct(StreetOrder(players, x.street), Active(players, h));
    forall p | p in queue[1..]
      ensures p in Active(players, h) - {x.actor}
    {
      TurnIsActive(players, h, x.street, p);
      var k :| 0 <= k < |queue[1..]| && queue[1..][k] == p;
      assert queue[k + 1] == p;
    }
    OnlyIdentity(queue[1..], Active(players, h) - {x.actor});
  }
  /** The three rules an action must meet: two players left, street reached, own turn. */
  lemma {:induction false} LegalNextRules(players: seq<Player>, h: History, x: Action)
    ensures LegalNext(players, h, x) <==>
      && |Active(players, h)| >= 2 && x.kind != PostBlind && MayMoveTo(players, h, x.street)
      && ToActOn(players, h, x.street) != [] && ToActOn(players, h, x.street)[0] == x.actor
  {
  }

  lemma {:induction false} QueueOn(players: seq<Player>, h: History, street: Street)
    ensures ToActOn(players, h, street) ==
      if street == CurrentStreet(h) then ToAct(players, h) else Only(StreetOrder(players, street), Active(players, h))
  {
  }

  lemma {:induction false} NoQueueLeft(players: seq<Player>, h: History)
    requires |Active(players, h)| == 1
    ensures ToAct(players, h) == []
  {
  }

  lemma {:induction false} StreetAfter(h: History, x: Action)
    ensures CurrentStreet(h + [x]) == x.street
  {
  }

  method ValidateActionOrder(players: seq<Player>, actions: History) returns (fault: Option<OrderFault>)
    requires DistinctPlayers(players)
    ensures fault.None? <==> LegalHand(players, actions)
    ensures fault.Some? ==> Explains(players, actions, fault.value)
  {
    hide Seated, Active, ToAct, ToActOn, LegalNext, StreetOrder, RoundOrder, CurrentStreet, Only;
    if !Seated(players) { return Some(Positions); }
    if |actions| < 3 { return Some(TooFewActions); }
    if !BlindsPosted(players, actions) { return Some(BlindOrder); }
    var active := Ids(players);
    var currentStreet := Preflop;
    var streetActionCount := 0;
    var terminal := false;
    var pending := Only(StreetOrder(players, currentStreet), active);
    OpeningQueue(players, actions);
    var i := 2;
    while i < |actions|
      invariant 2 <= i <= |actions|
      invariant LegalUpTo(players, actions, i)
      invariant active == Active(players, actions[..i]) && |active| >= 1
      invariant currentStreet == CurrentStreet(actions[..i])
      invariant streetActionCount == 0 <==> i == 2
      invariant terminal <==> |active| == 1
      invariant pending == ToAct(players, actions[..i])
    {
      ghost var h := actions[..i];
      var action := actions[i];
      assert actions[..i + 1] == h + [action];
      LegalNextRules(players, h, action);
      QueueOn(players, h, action.street);
      StreetAfter(h, action);
      if terminal || action.kind == PostBlind { return Some(Terminal(i)); }
      if action.street != currentStreet {
        if action.street.Rank() != currentStreet.Rank() + 1 || pending != [] || streetActionCount == 0 || |active| < 2 {
          return Some(StreetChange(i));
        }
        currentStreet := action.street;
        streetActionCount := 0;
        pending := Only(StreetOrder(players, currentStreet), active);
      }
      if action.actor !in active || pending == [] || action.actor != pending[0] {
        assert pending != [] && pending[0] == action.actor ==> action.actor in active by {
          if pending != [] { TurnIsActive(players, h, action.street, pending[0]); }
        }
        return Some(ActorOrder(i));
      }
      pending := pending[1..];
      streetActionCount := streetActionCount + 1;
      ActiveExtend(players, h, action);
      if action.kind == Fold {
        active := active - {action.actor};
        OnlyKeepsAll(players, h, action);
        pending := Only(pending, active);
        if |active| == 1 {
          terminal := true;
          pending := [];
          NoQueueLeft(players, h + [action]);
        } else {
          QueueAfterPassive(players, h, action);
        }
      } else if action.kind == Bet || action.kind == Raise {
        var order := Only(StreetOrder(players, currentStreet), active);
        QueueAfterAggression(players, h, action);
        var actorIndex := IndexOf(order, action.actor);
        pending := order[actorIndex + 1..] + order[..actorIndex];
      } else {
        QueueAfterPassive(players, h, action);
      }
      i := i + 1;
    }
    assert actions[..i] == actions;
    if !terminal { return Some(Unfinished); }
    return None;
  }

}
