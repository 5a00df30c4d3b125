/** What acceptance by the betting-order machine guarantees about whole hands. */
module BettingTheorems {
  import opened Basics
  import opened BettingOrder
  import opened BettingMachine

  /** The queue never names a player twice and never names one who folded. */
  lemma {:induction false} QueueIsSound(players: seq<Player>, h: History)
    requires Seated(players) && DistinctPlayers(players)
    ensures Distinct(ToAct(players, h))
    ensures forall p :: p in ToAct(players, h) ==> p in Active(players, h)
  {
    hide Seated, RoundOrder;
    RoundOrderDistinct(players, h);
    OnlyDistinct(RoundOrder(players, h), Owed(players, h));
    forall p | p in ToAct(players, h)
      ensures p in Active(players, h)
    {
      OnlyMember(RoundOrder(players, h), Owed(players, h), p);
    }
  }

  lemma {:induction false} LegalAt(players: seq<Player>, actions: History, i: nat)
    requires LegalUpTo(players, actions, |actions|) && 2 <= i < |actions|
    ensures |Active(players, actions[..i])| >= 2
    ensures actions[i].kind != PostBlind && MayMoveTo(players, actions[..i], actions[i].street)
    ensures var queue := ToActOn(players, actions[..i], actions[i].street); queue != [] && queue[0] == actions[i].actor
    ensures actions[i].actor in Active(players, actions[..i])
  {
    hide Seated, BlindsPosted, LegalNext, ToActOn, Active, MayMoveTo;
    LegalNextRules(players, actions[..i], actions[i]);
    TurnIsActive(players, actions[..i], actions[i].street, actions[i].actor);
  }

  lemma {:induction false} StreetBefore(actions: History, i: nat)
    requires 0 < i <= |actions|
    ensures CurrentStreet(actions[..i]) == actions[i - 1].street
  {
  }

  // ------------------------------------------------------------------ folds and streets

  lemma {:induction false} StreetsRise(players: seq<Player>, actions: History, i: nat, j: nat)
    requires LegalUpTo(players, actions, |actions|) && i <= j < |actions|
    ensures actions[i].street.Rank() <= actions[j].street.Rank()
  {
    hide Seated, LegalNext, Active, ToAct, ToActOn;
    if i < j {
      StreetsRise(players, actions, i, j - 1);
      if j >= 2 {
        LegalAt(players, actions, j);
        StreetBefore(actions, j);
      }
    }
  }

  /** A folded player never acts again, and the street either stays or moves on by one. */
  lemma {:induction false} FoldedStayOut(players: seq<Player>, actions: History, i: nat, j: nat)
    requires LegalUpTo(players, actions, |actions|) && 2 <= i < j < |actions|
    ensures actions[i].kind == Fold ==> actions[j].actor != actions[i].actor
    ensures actions[j].street == actions[j - 1].street || actions[j].street.Rank() == actions[j - 1].street.Rank() + 1
  {
    LegalAt(players, actions, j);
    StreetBefore(actions, j);
    assert actions[..j][i] == actions[i];
  }

  function FoldCount(h: History): nat {
    if h == [] then 0 else FoldCount(h[..|h| - 1]) + if h[|h| - 1].kind == Fold then 1 else 0
  }

  lemma {:induction false} FoldsLeaveTheHand(players: seq<Player>, actions: History, n: nat)
    requires DistinctPlayers(players) && LegalUpTo(players, actions, |actions|) && 2 <= n <= |actions|
    ensures |Active(players, actions[..n])| + FoldCount(actions[..n]) == |players|
  {
    hide Seated, LegalNext, Active;
    var h := actions[..n];
    if n == 2 {
      OpeningQueue(players, actions);
      IdsCount(players);
      assert h[..1] == [actions[0]] && h[..1][..0] == [] && h[1] == actions[1];
      assert FoldCount(h) == FoldCount(h[..1]) == 0;
    } else {
      FoldsLeaveTheHand(players, actions, n - 1);
      LegalAt(players, actions, n - 1);
      assert h == actions[..n - 1] + [actions[n - 1]] && h[..n - 1] == actions[..n - 1];
      ActiveExtend(players, actions[..n - 1], actions[n - 1]);
    }
  }

  lemma {:induction false} LegalHandIsLegal(players: seq<Player>, actions: History)
    requires LegalHand(players, actions)
    ensures LegalUpTo(players, actions, |actions|) && |Active(players, actions)| == 1 && |actions| >= 3
  {
  }

  /** Acceptance means that all players but one folded, the last of them with the last action. */
  lemma {:induction false} CompleteHandFoldsToOne(players: seq<Player>, actions: History)
    requires DistinctPlayers(players) && LegalHand(players, actions)
    ensures FoldCount(actions) == |players| - 1
    ensures actions[|actions| - 1].kind == Fold
    ensures |Active(players, actions[..|actions| - 1])| == 2
  {
    hide Seated, LegalNext, Active, LegalHand, BlindsPosted;
    LegalHandIsLegal(players, actions);
    var last := |actions| - 1;
    FoldsLeaveTheHand(players, actions, |actions|);
    assert actions[..|actions|] == actions == actions[..last] + [actions[last]];
    LegalAt(players, actions, last);
    ActiveExtend(players, actions[..last], actions[last]);
  }

  // ------------------------------------------------------------------ rounds are fair

  /** From the round's start on there is one street, and no bet or raise after the first action;
      the start itself is the opening, a change of street, or a bet or raise. */
  lemma {:induction false} RoundShape(h: History)
    requires |h| > 2
    ensures 2 <= RoundStart(h) < |h|
    ensures forall k :: RoundStart(h) <= k < |h| ==> h[k].street == CurrentStreet(h)
    ensures forall k :: RoundStart(h) < k < |h| ==> !Aggressive(h[k])
    ensures RoundStart(h) == 2 || Aggressive(h[RoundStart(h)]) || h[RoundStart(h)].street != h[RoundStart(h) - 1].street
  {
    var last := |h| - 1;
    if !Aggressive(h[last]) && h[last].street == CurrentStreet(h[..last]) && |h| > 3 {
      RoundShape(h[..last]);
      assert forall k :: 0 <= k < last ==> h[..last][k] == h[k];
    }
  }

  /** An empty queue means that every active player acted in the present round. */
  lemma {:induction false} EmptyQueue(players: seq<Player>, h: History, p: string)
    requires Seated(players) && DistinctPlayers(players)
    requires |h| > 2 && ToAct(players, h) == [] && |Active(players, h)| >= 2 && p in Active(players, h)
    ensures p in Actors(h, RoundStart(h))
  {
    hide Seated, Actors, Only, Active, StreetOrder, RoundStart;
    RoundShape(h);
    var order, s := StreetOrder(players, CurrentStreet(h)), RoundStart(h);
    StreetOrderComplete(players, CurrentStreet(h));
    OnlyMember(RoundOrder(players, h), Owed(players, h), p);
    ActiveSeated(players, h, p);
    if s < |h| && Aggressive(h[s]) && h[s].actor in order {
      OthersFromDistinct(order, h[s].actor);
      if p == h[s].actor { ActorAt(h, s, s); }
    }
  }

  lemma {:induction false} ActiveSeated(players: seq<Player>, h: History, p: string)
    requires p in Active(players, h)
    ensures p in Ids(players)
  {
  }

  lemma {:induction false} ActorAt(h: History, start: nat, k: nat)
    requires start <= k < |h|
    ensures h[k].actor in Actors(h, start)
  {
  }

  /** When the street changes, every player still in the hand has acted on the street just closed,
      at or after its last bet or raise. */
  lemma {:induction false} StreetClosesFairly(players: seq<Player>, actions: History, i: nat, p: string)
    requires DistinctPlayers(players) && LegalUpTo(players, actions, |actions|)
    requires 2 <= i < |actions| && actions[i].street != actions[i - 1].street
    requires p in Active(players, actions[..i])
    ensures exists k :: (2 <= k < i && actions[k].actor == p && actions[k].street == actions[i - 1].street
                         && forall j :: k < j < i ==> !Aggressive(actions[j]))
  {
    hide Seated, LegalNext, Active, BlindsPosted, ToAct, ToActOn, RoundStart;
    var h := actions[..i];
    StreetBefore(actions, i);
    LegalAt(players, actions, i);
    EmptyQueue(players, h, p);
    RoundShape(h);
    var k :| RoundStart(h) <= k < |h| && h[k].actor == p;
    assert actions[k].actor == p && actions[k].street == actions[i - 1].street;
    assert forall j :: k < j < i ==> actions[j] == h[j];
  }

  /** Nobody acts twice on a street unless another player bet or raised in between. */
  lemma {:induction false} NobodyActsTwice(players: seq<Player>, actions: History, i: nat, j: nat)
    requires DistinctPlayers(players) && LegalUpTo(players, actions, |actions|)
    requires 2 <= i < j < |actions| && actions[i].street == actions[j].street && actions[i].actor == actions[j].actor
    ensures exists k :: i < k < j && Aggressive(actions[k]) && actions[k].actor != actions[i].actor
  {
    hide Seated, LegalNext, Active, BlindsPosted, RoundStart, RoundOrder, StreetOrder;
    var h, p := actions[..j], actions[j].actor;
    LegalAt(players, actions, j);
    StreetBefore(actions, j);
    StreetsRise(players, actions, i, j - 1);
    StreetsRise(players, actions, j - 1, j);
    RankInjective(actions[j - 1].street, actions[j].street);
    OnlyMember(RoundOrder(players, h), Owed(players, h), p);
    assert p !in Actors(h, RoundStart(h));
    RoundShape(h);
    var s := RoundStart(h);
    assert i < s by {
      if s <= i { ActorAt(h, s, i); assert false; }
    }
    StreetsRise(players, actions, i, s - 1);
    StreetsRise(players, actions, s - 1, s);
    StreetsRise(players, actions, s, j);
    RankInjective(actions[s - 1].street, actions[s].street);
    ActorAt(h, s, s);
    assert Aggressive(actions[s]) && actions[s].actor != p;
  }

  lemma {:induction false} RankInjective(a: Street, b: Street)
    ensures a.Rank() == b.Rank() <==> a == b
  {
  }

  // ------------------------------------------------------------------ determinism

  /** The players, the streets and the kinds of action fix who acts. */
  lemma {:induction false} ActorsAreForced(players: seq<Player>, a: History, b: History, n: nat)
    requires LegalUpTo(players, a, |a|) && LegalUpTo(players, b, |b|) && n <= |a| && n <= |b|
    requires forall k :: 0 <= k < n ==> a[k].kind == b[k].kind && a[k].street == b[k].street
    ensures a[..n] == b[..n]
  {
    hide Seated, LegalNext, ToActOn, Active, MayMoveTo;
    if n > 0 {
      ActorsAreForced(players, a, b, n - 1);
      if n > 2 {
        LegalAt(players, a, n - 1);
        LegalAt(players, b, n - 1);
      }
      assert a[n - 1] == b[n - 1];
      assert a[..n] == a[..n - 1] + [a[n - 1]] && b[..n] == b[..n - 1] + [b[n - 1]];
    }
  }

  // ------------------------------------------------------------------ length of a street

  /** Actions on a street, the two blind posts not counted. */
  function CountOn(h: History, street: Street): nat {
    if |h| <= 2 then 0
    else CountOn(h[..|h| - 1], street) + if h[|h| - 1].street == street then 1 else 0
  }

  function AggressionsOn(h: History, street: Street): nat {
    if |h| <= 2 then 0
    else AggressionsOn(h[..|h| - 1], street) + if h[|h| - 1].street == street && Aggressive(h[|h| - 1]) then 1 else 0
  }

  function Allowance(players: seq<Player>, h: History, street: Street): int {
    |players| + AggressionsOn(h, street) * (|players| - 1)
  }

  lemma {:induction false} QueueLength(players: seq<Player>, h: History, s: seq<string>)
    requires Distinct(s) && forall p :: p in s ==> p in Ids(players)
    requires DistinctPlayers(players)
    ensures |s| <= |players|
  {
    IdsCount(players);
    DistinctCardinality(s);
    SubsetCardinality((set p | p in s), Ids(players));
  }

  lemma {:induction false} CountStep(h: History, x: Action, street: Street)
    requires |h| >= 2
    ensures CountOn(h + [x], street) == CountOn(h, street) + if x.street == street then 1 else 0
    ensures AggressionsOn(h + [x], street) == AggressionsOn(h, street) + if x.street == street && Aggressive(x) then 1 else 0
  {
    Prefix(h, x);
  }

  /** Who is still to act never outgrows the table, and an aggressor is not among them. */
  lemma {:induction false} QueueStep(players: seq<Player>, h: History, x: Action)
    requires Seated(players) && DistinctPlayers(players) && |h| >= 2 && LegalNext(players, h, x)
    ensures |ToActOn(players, h, x.street)| <= |players|
    ensures |ToAct(players, h + [x])| <=
            if Aggressive(x) then |players| - 1 else |ToActOn(players, h, x.street)| - 1
  {
    hide Seated, LegalNext, StreetOrder, RoundOrder, Only, Active, Owed, RoundStart;
    LegalNextRules(players, h, x);
    var order := Only(StreetOrder(players, x.street), Active(players, h));
    StreetOrderComplete(players, x.street);
    OnlyDistinct(StreetOrder(players, x.street), Active(players, h));
    forall p | p in order
      ensures p in Ids(players)
    {
      OnlyMember(StreetOrder(players, x.street), Active(players, h), p);
    }
    QueueLength(players, h, order);
    QueueIsSound(players, h);
    forall p | p in ToAct(players, h)
      ensures p in Ids(players)
    {
      ActiveSeated(players, h, p);
    }
    QueueLength(players, h, ToAct(players, h));
    if Aggressive(x) {
      QueueAfterAggression(players, h, x);
    } else if |Active(players, h + [x])| >= 2 {
      QueueAfterPassive(players, h, x);
    }
  }

  lemma {:induction false} OneMore(a: nat, b: nat, n: int)
    requires b == a + 1
    ensures b * n == a * n + n
  {
  }

  lemma {:induction false} AllowanceStep(players: seq<Player>, h: History, x: Action, street: Street)
    requires |h| >= 2
    ensures Allowance(players, h + [x], street) ==
            Allowance(players, h, street) + if x.street == street && Aggressive(x) then |players| - 1 else 0
    ensures AggressionsOn(h, street) == 0 ==> Allowance(players, h, street) == |players|
  {
    hide CountOn, AggressionsOn;
    CountStep(h, x, street);
    if x.street == street && Aggressive(x) {
      OneMore(AggressionsOn(h, street), AggressionsOn(h + [x], street), |players| - 1);
    }
  }

  lemma {:induction false} StreetBoundStep(players: seq<Player>, h: History, x: Action, street: Street)
    requires Seated(players) && DistinctPlayers(players) && |h| >= 2 && LegalNext(players, h, x)
    requires CountOn(h, street) <= Allowance(players, h, street)
    requires street == CurrentStreet(h) ==> CountOn(h, street) + |ToAct(players, h)| <= Allowance(players, h, street)
    requires street.Rank() > CurrentStreet(h).Rank() ==> CountOn(h, street) == AggressionsOn(h, street) == 0
    ensures var g := h + [x];
            && CountOn(g, street) <= Allowance(players, g, street)
            && (street == x.street ==> CountOn(g, street) + |ToAct(players, g)| <= Allowance(players, g, street))
            && (street.Rank() > x.street.Rank() ==> CountOn(g, street) == AggressionsOn(g, street) == 0)
  {
    hide Seated, LegalNext, ToAct, ToActOn, Active, StreetOrder, Only, CountOn, AggressionsOn, Allowance, CurrentStreet;
    AllowanceStep(players, h, x, street);
    CountStep(h, x, street);
    QueueStep(players, h, x);
    QueueOn(players, h, x.street);
    LegalNextRules(players, h, x);
  }

  /** A street with `a` bets and raises among `n` players takes at most `n + a * (n - 1)` actions. */
  lemma {:induction false} StreetIsBounded(players: seq<Player>, actions: History, n: nat, street: Street)
    requires DistinctPlayers(players) && LegalUpTo(players, actions, |actions|) && 2 <= n <= |actions|
    ensures CountOn(actions[..n], street) <= |players| + AggressionsOn(actions[..n], street) * (|players| - 1)
    ensures street == CurrentStreet(actions[..n]) ==>
              CountOn(actions[..n], street) + |ToAct(players, actions[..n])| <= Allowance(players, actions[..n], street)
    ensures street.Rank() > CurrentStreet(actions[..n]).Rank() ==>
              CountOn(actions[..n], street) == AggressionsOn(actions[..n], street) == 0
  {
    hide Seated, LegalNext, ToAct, Active, StreetOrder, Only, BlindsPosted, ToActOn, MayMoveTo;
    var h := actions[..n];
    if n == 2 {
      OpeningQueue(players, actions);
      QueueIsSound(players, h);
      forall p | p in ToAct(players, h)
        ensures p in Ids(players)
      {
        ActiveSeated(players, h, p);
      }
      QueueLength(players, h, ToAct(players, h));
    } else {
      StreetIsBounded(players, actions, n - 1, street);
      assert h == actions[..n - 1] + [actions[n - 1]];
      StreetBoundStep(players, actions[..n - 1], actions[n - 1], street);
      StreetAfter(actions[..n - 1], actions[n - 1]);
    }
  }
}
