/** Who acts, by seat: the next remaining seat clockwise from whoever acted last, and from the button
    when a street opens. */
module BettingSeats {
  import opened Basics
  import opened BettingOrder
  import opened BettingMachine
  import opened BettingTheorems

  // ------------------------------------------------------------------ the table

  /** Seats numbered clockwise; the button sits before the small blind. */
  function Number(p: Position): (n: nat)
    ensures n < 6
  {
    match p case SB => 0 case BB => 1 case UTG => 2 case HJ => 3 case CO => 4 case BTN => 5
  }

  /** How many seats a token moving clockwise from `a` passes before it comes to `b`. */
  function Passed(a: Position, b: Position): (n: nat)
    ensures n < 6
  {
    if Number(a) < Number(b) then Number(b) - Number(a) - 1 else Number(b) + 5 - Number(a)
  }

  /** Of these seats, the first one clockwise from `a`; `a` itself comes last. */
  predicate NextClockwise(seats: set<Position>, a: Position, b: Position) {
    b in seats && forall c :: c in seats ==> Passed(a, b) <= Passed(a, c)
  }

  /** Heads-up the small blind has the button. */
  function Button(players: seq<Player>): Position {
    if |players| == 2 then SB else BTN
  }

  /** The seats of these players. */
  function SeatsOf(players: seq<Player>, who: set<string>): set<Position> {
    set i | 0 <= i < |players| && players[i].id in who :: players[i].position
  }

  predicate SitsAt(players: seq<Player>, who: string, p: Position) {
    exists i :: 0 <= i < |players| && players[i] == Player(who, p)
  }

  // ------------------------------------------------------------------ once around the table

  /** All six seats clockwise from `a`, `a` last. */
  function Circle(a: Position): (s: seq<Position>)
    ensures |s| == 6
  {
    match a
    case SB => [BB, UTG, HJ, CO, BTN, SB]
    case BB => [UTG, HJ, CO, BTN, SB, BB]
    case UTG => [HJ, CO, BTN, SB, BB, UTG]
    case HJ => [CO, BTN, SB, BB, UTG, HJ]
    case CO => [BTN, SB, BB, UTG, HJ, CO]
    case BTN => [SB, BB, UTG, HJ, CO, BTN]
  }

  lemma {:induction false} CircleExact(a: Position, i: nat)
    requires i < 6
    ensures Passed(a, Circle(a)[i]) == i
  {
    assert i == 0 || i == 1 || i == 2 || i == 3 || i == 4 || i == 5;
  }

  lemma {:induction false} CircleAt(a: Position, b: Position)
    ensures Passed(a, b) < 6 && Circle(a)[Passed(a, b)] == b
  {
    match a case SB => case BB => case UTG => case HJ => case CO => case BTN =>
  }

  lemma {:induction false} PassedFrom(a: Position, b: Position, c: Position)
    ensures Passed(a, c) > Passed(a, b) ==> Passed(b, c) == Passed(a, c) - Passed(a, b) - 1
    ensures Passed(a, c) <= Passed(a, b) ==> Passed(b, c) == Passed(a, c) + 5 - Passed(a, b)
  {
  }

  lemma {:induction false} TurnedAt(a: Position, b: Position, i: nat)
    requires i < 6
    ensures Circle(b)[i] == Circle(a)[if i < 5 - Passed(a, b) then Passed(a, b) + 1 + i else i + Passed(a, b) - 5]
  {
    var k := Passed(a, b);
    CircleAt(a, b);
    hide Circle;
    var j := if i < 5 - k then k + 1 + i else i + k - 5;
    CircleExact(a, j);
    PassedFrom(a, b, Circle(a)[j]);
    CircleAt(b, Circle(a)[j]);
  }

  /** Turning the table. */
  lemma {:induction false} CircleTurns(a: Position, b: Position)
    ensures var k := Passed(a, b);
            k < 6 && Circle(a) == Circle(a)[..k] + [b] + Circle(a)[k + 1..]
            && Circle(b) == Circle(a)[k + 1..] + Circle(a)[..k] + [b]
  {
    var k := Passed(a, b);
    CircleAt(a, b);
    hide Circle, Passed;
    forall i | 0 <= i < 6
      ensures Circle(b)[i] == (Circle(a)[k + 1..] + Circle(a)[..k] + [b])[i]
    {
      TurnedAt(a, b, i);
    }
  }

  // ------------------------------------------------------------------ players around the table

  /** These players, clockwise from the seat `a`. */
  function Around(players: seq<Player>, who: set<string>, a: Position): seq<string> {
    Only(Occupants(Circle(a), Seats(players)), who)
  }

  lemma {:induction false} OccupantsAppend(a: seq<Position>, b: seq<Position>, seats: map<Position, string>)
    ensures Occupants(a + b, seats) == Occupants(a, seats) + Occupants(b, seats)
  {
    if a == [] {
      assert a + b == b;
    } else {
      var rest := a[1..];
      OccupantsAppend(rest, b, seats);
      assert (a + b)[0] == a[0] && (a + b)[1..] == rest + b;
      var head := if a[0] in seats then [seats[a[0]]] else [];
      assert Occupants(a + b, seats) == head + Occupants(rest + b, seats);
      assert Occupants(a, seats) == head + Occupants(rest, seats);
    }
  }

  lemma {:induction false} Unoccupied(order: seq<Position>, seats: map<Position, string>)
    requires forall i :: 0 <= i < |order| ==> order[i] !in seats
    ensures Occupants(order, seats) == []
  {
    if order != [] {
      assert order[0] !in seats;
      Unoccupied(order[1..], seats);
    }
  }

  /** Before the flop the seats follow the big blind, afterwards the button. */
  lemma {:induction false} StreetStartsAt(players: seq<Player>, street: Street, who: set<string>)
    requires Seated(players)
    ensures Only(StreetOrder(players, street), who) ==
            Around(players, who, if street == Preflop then BB else Button(players))
  {
    if street != Preflop && |players| == 2 {
      var seats, middle := Seats(players), [UTG, HJ, CO, BTN];
      assert seats.Keys == {SB, BB};
      Unoccupied(middle, seats);
      OccupantsAppend([BB], middle + [SB], seats);
      OccupantsAppend(middle, [SB], seats);
      OccupantsAppend([BB], [SB], seats);
      assert Circle(SB) == [BB] + (middle + [SB]) && HEADS_UP_POSTFLOP_ORDER == [BB] + [SB];
      assert StreetOrder(players, street) == Occupants(Circle(SB), seats);
    }
  }

  lemma {:induction false} OnlyOne(p: string, who: set<string>)
    ensures Only([p], who) == if p in who then [p] else []
  {
    assert [p][1..] == [];
  }

  /** Taking one player's place as the new starting point moves everybody before him to the end. */
  lemma {:induction false} AroundTurns(players: seq<Player>, who: set<string>, a: Position, b: Position)
    returns (before: seq<string>, rest: seq<string>)
    requires b in Seats(players)
    ensures var self := if Seats(players)[b] in who then [Seats(players)[b]] else [];
            Around(players, who, a) == before + self + rest && Around(players, who, b) == rest + before + self
    ensures before == Only(Occupants(Circle(a)[..Passed(a, b)], Seats(players)), who)
  {
    var seats, k := Seats(players), Passed(a, b);
    CircleTurns(a, b);
    hide Circle, Occupants, Passed, Only, Seats;
    var x, y := Circle(a)[..k], Circle(a)[k + 1..];
    before, rest := Only(Occupants(x, seats), who), Only(Occupants(y, seats), who);
    OccupantOf(b, seats);
    OnlyOne(seats[b], who);
    OccupantsParts(x, [b], y, seats, who);
    OccupantsParts(y, x, [b], seats, who);
  }

  lemma {:induction false} OccupantOf(b: Position, seats: map<Position, string>)
    requires b in seats
    ensures Occupants([b], seats) == [seats[b]]
  {
    assert [b][1..] == [];
  }

  lemma {:induction false} OccupantsParts(a: seq<Position>, b: seq<Position>, c: seq<Position>, seats: map<Position, string>,
                                          who: set<string>)
    ensures Only(Occupants(a + b + c, seats), who) ==
            Only(Occupants(a, seats), who) + Only(Occupants(b, seats), who) + Only(Occupants(c, seats), who)
  {
    OccupantsAppend(a + b, c, seats);
    OccupantsAppend(a, b, seats);
    OnlyAppend(Occupants(a, seats) + Occupants(b, seats), Occupants(c, seats), who);
    OnlyAppend(Occupants(a, seats), Occupants(b, seats), who);
  }

  // ------------------------------------------------------------------ seats and players

  lemma {:induction false} SeatedExactly(players: seq<Player>, who: set<string>, c: Position)
    requires Seated(players)
    ensures c in SeatsOf(players, who) <==> c in Seats(players) && Seats(players)[c] in who
    ensures forall p :: SitsAt(players, p, c) <==> c in Seats(players) && Seats(players)[c] == p
  {
    SeatsCardinality(players);
    PositionsCount(|players|);
    if c in Seats(players) { SeatsSound(players, c); }
  }

  lemma {:induction false} CircleIsDistinct(a: Position)
    ensures Distinct(Circle(a))
  {
    hide Circle, Passed;
    var order := Circle(a);
    forall i, j | 0 <= i < j < |order|
      ensures order[i] != order[j]
    {
      CircleExact(a, i);
      CircleExact(a, j);
    }
  }

  lemma {:induction false} AroundMember(players: seq<Player>, who: set<string>, a: Position, p: string)
    requires Seated(players)
    ensures p in Around(players, who, a) <==> p in who && p in Ids(players)
  {
    hide Circle, Passed, Only, Occupants, Seats;
    var order, seats := Circle(a), Seats(players);
    SeatsCardinality(players);
    PositionsCount(|players|);
    OnlyMember(Occupants(order, seats), who, p);
    OccupantsMember(order, seats, p);
    if p in Ids(players) {
      var i :| 0 <= i < |players| && players[i].id == p;
      CircleAt(a, players[i].position);
    }
    if k :| 0 <= k < |order| && order[k] in seats && seats[order[k]] == p {
      SeatsSound(players, order[k]);
    }
  }

  lemma {:induction false} AroundExact(players: seq<Player>, who: set<string>, a: Position)
    requires Seated(players) && DistinctPlayers(players)
    ensures Distinct(Around(players, who, a))
    ensures forall p :: p in Around(players, who, a) <==> p in who && p in Ids(players)
  {
    CircleIsDistinct(a);
    SeatsInjective(players);
    OccupantsDistinct(Circle(a), Seats(players));
    OnlyDistinct(Occupants(Circle(a), Seats(players)), who);
    hide Seated, Around, Ids;
    forall p
      ensures p in Around(players, who, a) <==> p in who && p in Ids(players)
    {
      AroundMember(players, who, a, p);
    }
  }

  lemma {:induction false} PassedApart(a: Position, b: Position, c: Position)
    ensures Passed(a, b) == Passed(a, c) <==> b == c
  {
    CircleAt(a, b);
    CircleAt(a, c);
  }

  lemma {:induction false} EarlierSeat(a: Position, k: nat, seats: map<Position, string>, who: set<string>, b: Position)
    requires k <= 6 && InjectiveSeats(seats) && b in seats
    requires seats[b] in Only(Occupants(Circle(a)[..k], seats), who)
    ensures Passed(a, b) < k
  {
    var order := Circle(a)[..k];
    OnlyMember(Occupants(order, seats), who, seats[b]);
    OccupantsMember(order, seats, seats[b]);
    var j :| 0 <= j < |order| && order[j] in seats && seats[order[j]] == seats[b];
    CircleExact(a, j);
  }

  /** Whoever comes first around the table sits in the next seat. */
  lemma {:induction false} FirstIsNext(players: seq<Player>, who: set<string>, a: Position, b: Position)
    requires Seated(players) && DistinctPlayers(players) && b in Seats(players) && who <= Ids(players)
    ensures Around(players, who, a) != [] && Around(players, who, a)[0] == Seats(players)[b] ==>
              NextClockwise(SeatsOf(players, who), a, b)
  {
    hide Seated, Circle, Around, Occupants, Only, Passed;
    var seats, around := Seats(players), Around(players, who, a);
    SeatsInjective(players);
    AroundExact(players, who, a);
    if around != [] && around[0] == seats[b] {
      SeatedExactly(players, who, b);
      forall c | c in SeatsOf(players, who)
        ensures Passed(a, b) <= Passed(a, c)
      {
        SeatedExactly(players, who, c);
        CircleAt(a, c);
        if c != b {
          var before, rest := AroundTurns(players, who, a, c);
          assert around[0] == seats[b] != seats[c];
          assert before != [] && around[0] == before[0];
          EarlierSeat(a, Passed(a, c), seats, who, b);
        }
      }
    }
  }

  lemma {:induction false} NextIsFirst(players: seq<Player>, who: set<string>, a: Position, b: Position)
    requires Seated(players) && DistinctPlayers(players) && who <= Ids(players)
    requires NextClockwise(SeatsOf(players, who), a, b)
    ensures b in Seats(players) && Around(players, who, a) != [] && Around(players, who, a)[0] == Seats(players)[b]
  {
    hide Seated, Circle, Around, Occupants, Only, Passed;
    SeatedExactly(players, who, b);
    AroundExact(players, who, a);
    var around := Around(players, who, a);
    assert Seats(players)[b] in around;
    var c := SeatOf(players, around[0]);
    FirstIsNext(players, who, a, c);
    SeatedExactly(players, who, c);
    PassedApart(a, b, c);
  }

  lemma {:induction false} SeatOf(players: seq<Player>, who: string) returns (c: Position)
    requires Seated(players) && who in Ids(players)
    ensures c in Seats(players) && Seats(players)[c] == who && SitsAt(players, who, c)
  {
    var i :| 0 <= i < |players| && players[i].id == who;
    c := players[i].position;
    SeatsCardinality(players);
    PositionsCount(|players|);
    assert players[i] == Player(who, c);
  }

  // ------------------------------------------------------------------ the queue goes around the table

  lemma {:induction false} OnlyTwice(s: seq<string>, keep: set<string>, p: string)
    ensures Only(s, keep - {p}) == Only(Only(s, keep), keep - {p})
  {
    if s != [] {
      OnlyTwice(s[1..], keep, p);
      var head := if s[0] in keep then [s[0]] else [];
      OnlyAppend(head, Only(s[1..], keep), keep - {p});
      if s[0] in keep { OnlyOne(s[0], keep - {p}); }
    }
  }

  /** A player who leaves drops out of the circle. */
  lemma {:induction false} AroundWithout(players: seq<Player>, who: set<string>, a: Position, rest: seq<string>, p: string)
    requires Around(players, who, a) == rest + [p] && p !in rest && forall q :: q in rest ==> q in who
    ensures Around(players, who - {p}, a) == rest
  {
    OnlyTwice(Occupants(Circle(a), Seats(players)), who, p);
    OnlyAppend(rest, [p], who - {p});
    OnlyIdentity(rest, who - {p});
    OnlyOne(p, who - {p});
  }

  /** Of those still in, the players who have to act are the next ones clockwise from the seat `a`. */
  ghost predicate InTurnFrom(players: seq<Player>, h: History, a: Position) {
    ToAct(players, h) <= Around(players, Active(players, h), a)
  }

  lemma {:induction false} HeadOfCircle(around: seq<string>, before: seq<string>, p: string, rest: seq<string>)
    requires Distinct(around) && around == before + [p] + rest && around[0] == p
    ensures before == [] && p !in rest
  {
    assert around[|before|] == p;
    assert forall i :: 0 <= i < |rest| ==> around[|before| + 1 + i] == rest[i];
  }

  /** After an action those who still have to act go on from the actor's seat. */
  lemma {:induction false} TurnGoesOn(players: seq<Player>, h: History, x: Action, a: Position, b: Position)
    requires Seated(players) && DistinctPlayers(players) && |h| >= 2 && LegalNext(players, h, x)
    requires b in Seats(players) && Seats(players)[b] == x.actor
    requires ToActOn(players, h, x.street) <= Around(players, Active(players, h), a)
    ensures InTurnFrom(players, h + [x], b)
  {
    hide Seated, Active, ToAct, ToActOn, LegalNext, StreetOrder, Only, Around, BlindsPosted;
    var who := Active(players, h);
    var around := Around(players, who, a);
    LegalNextRules(players, h, x);
    ActiveExtend(players, h, x);
    AroundExact(players, who, a);
    TurnIsActive(players, h, x.street, x.actor);
    AroundExact(players, Active(players, h + [x]), b);
    if |Active(players, h + [x])| <= 1 {
      NobodyLeft(players, h + [x]);
    } else if Aggressive(x) {
      var start := if x.street == Preflop then BB else Button(players);
      QueueAfterAggression(players, h, x);
      StreetStartsAt(players, x.street, who);
      AroundExact(players, who, start);
      var before, rest := AroundTurns(players, who, start, b);
      BeforeIsNot(before, x.actor, rest);
      OthersFromSplit(before, x.actor, rest);
    } else {
      QueueAfterPassive(players, h, x);
      var before, rest := AroundTurns(players, who, a, b);
      HeadOfCircle(around, before, x.actor, rest);
      assert around == [x.actor] + rest && Around(players, who, b) == rest + [x.actor];
      assert ToActOn(players, h, x.street)[1..] <= rest;
      if x.kind == Fold {
        AroundExact(players, who, b);
        AroundWithout(players, who, b, rest, x.actor);
      }
    }
  }

  lemma {:induction false} BeforeIsNot(before: seq<string>, p: string, rest: seq<string>)
    requires Distinct(before + [p] + rest)
    ensures p !in before
  {
    var all := before + [p] + rest;
    assert all[|before|] == p;
    assert forall i :: 0 <= i < |before| ==> all[i] == before[i];
  }

  lemma {:induction false} NobodyLeft(players: seq<Player>, h: History)
    requires |Active(players, h)| <= 1
    ensures ToAct(players, h) == []
  {
  }

  lemma {:induction false} OpeningGoesAround(players: seq<Player>, actions: History)
    requires DistinctPlayers(players) && LegalUpTo(players, actions, 2)
    ensures InTurnFrom(players, actions[..2], BB)
    ensures BB in Seats(players) && actions[1].actor == Seats(players)[BB]
  {
    OpeningQueue(players, actions);
    StreetStartsAt(players, Preflop, Ids(players));
  }

  /** In a legal hand those who still have to act go on clockwise from whoever acted last. */
  lemma {:induction false} QueueGoesAround(players: seq<Player>, actions: History, n: nat, a: Position)
    requires DistinctPlayers(players) && LegalUpTo(players, actions, n) && 2 <= n
    requires SitsAt(players, actions[n - 1].actor, a)
    ensures InTurnFrom(players, actions[..n], a)
  {
    hide Seated, Active, ToAct, ToActOn, LegalNext, StreetOrder, Only, Around, InTurnFrom;
    SeatedExactly(players, {}, a);
    SeatsInjective(players);
    if n == 2 {
      OpeningGoesAround(players, actions);
    } else {
      var h, x := actions[..n - 1], actions[n - 1];
      assert actions[..n] == h + [x] && LegalNext(players, h, x);
      var last := LastSeat(players, actions, n - 1);
      QueueGoesAround(players, actions, n - 1, last);
      LegalNextRules(players, h, x);
      FromSeat(players, h, x, last);
      TurnGoesOn(players, h, x, StartSeat(players, h, x.street, last), a);
    }
  }

  /** Where the token is when an action on `street` is due: at the last actor, or at the button when a
      street opens. */
  function StartSeat(players: seq<Player>, h: History, street: Street, last: Position): Position {
    if street == CurrentStreet(h) then last else Button(players)
  }

  lemma {:induction false} FromSeat(players: seq<Player>, h: History, x: Action, last: Position)
    requires Seated(players) && InTurnFrom(players, h, last)
    requires x.street != CurrentStreet(h) ==> x.street != Preflop
    ensures ToActOn(players, h, x.street) <= Around(players, Active(players, h), StartSeat(players, h, x.street, last))
  {
    hide Seated, Active, ToAct, StreetOrder, Only, Around;
    QueueOn(players, h, x.street);
    StreetStartsAt(players, x.street, Active(players, h));
  }

  lemma {:induction false} LastSeat(players: seq<Player>, actions: History, n: nat) returns (last: Position)
    requires DistinctPlayers(players) && LegalUpTo(players, actions, n) && 2 <= n
    ensures SitsAt(players, actions[n - 1].actor, last)
  {
    hide ToAct, ToActOn, StreetOrder, Only;
    var who := actions[n - 1].actor;
    if n == 2 {
      SeatsSound(players, BB);
    } else {
      assert LegalNext(players, actions[..n - 1], actions[n - 1]);
      LegalNextRules(players, actions[..n - 1], actions[n - 1]);
      TurnIsActive(players, actions[..n - 1], actions[n - 1].street, who);
    }
    last := SeatOf(players, who);
  }

  // ------------------------------------------------------------------ who acts next

  /** Some active player has not yet acted since the last bet or raise of the street, or since it opened. */
  predicate SomebodyOwes(players: seq<Player>, h: History) {
    Owed(players, h) != {}
  }

  lemma {:induction false} OwingIsQueued(players: seq<Player>, h: History)
    requires Seated(players) && DistinctPlayers(players) && |Active(players, h)| >= 2 && |h| >= 2
    ensures ToAct(players, h) == [] <==> !SomebodyOwes(players, h)
  {
    StreetOrderComplete(players, CurrentStreet(h));
    var order := StreetOrder(players, CurrentStreet(h));
    forall p
      ensures p in ToAct(players, h) <==> p in Owed(players, h)
    {
      OnlyMember(RoundOrder(players, h), Owed(players, h), p);
      var s := RoundStart(h);
      if s < |h| && Aggressive(h[s]) && h[s].actor in order {
        OthersFromDistinct(order, h[s].actor);
        assert h[s].actor in Actors(h, s);
      }
    }
    if SomebodyOwes(players, h) {
      var p :| p in Owed(players, h);
      assert p in ToAct(players, h);
    }
    if ToAct(players, h) != [] {
      assert ToAct(players, h)[0] in Owed(players, h);
    }
  }

  /** An action is legal exactly when two players are left, it is no blind, and it is made from the next
      remaining seat clockwise: from the last actor while somebody still owes an action on the street, and
      from the button on the next street once nobody does. */
  lemma {:induction false} LegalExactlyWhen(players: seq<Player>, actions: History, n: nat, last: Position, x: Action)
    requires DistinctPlayers(players) && LegalUpTo(players, actions, n) && 2 <= n
    requires SitsAt(players, actions[n - 1].actor, last)
    ensures var h := actions[..n];
            var street := actions[n - 1].street;
            LegalNext(players, h, x) <==>
              && |Active(players, h)| >= 2 && x.kind != PostBlind
              && (if x.street == street then SomebodyOwes(players, h)
                  else x.street.Rank() == street.Rank() + 1 && n > 2 && !SomebodyOwes(players, h))
              && exists b :: SitsAt(players, x.actor, b) &&
                   NextClockwise(SeatsOf(players, Active(players, h)), if x.street == street then last else Button(players), b)
  {
    assert n <= |actions|;
    hide Seated, Active, ToAct, ToActOn, LegalNext, StreetOrder, Only, Around, InTurnFrom, SeatsOf, SitsAt, NextClockwise,
         SomebodyOwes, LegalUpTo;
    var h := actions[..n];
    var who := Active(players, h);
    StreetBefore(actions, n);
    QueueGoesAround(players, actions, n, last);
    LegalNextRules(players, h, x);
    SeatedFrom(players, actions, n);
    if |who| >= 2 {
      OwingIsQueued(players, h);
      var start := StartSeat(players, h, x.street, last);
      var due := ToActOn(players, h, x.street);
      if MayMoveTo(players, h, x.street) {
        FromSeat(players, h, x, last);
        if x.street != CurrentStreet(h) { DueIsAround(players, actions, n, x.street); }
        if due != [] {
          FirstSits(players, who, start, x.actor);
        }
      }
    }
  }

  lemma {:induction false} SeatedFrom(players: seq<Player>, actions: History, n: nat)
    requires LegalUpTo(players, actions, n)
    ensures Seated(players) && Active(players, actions[..n]) <= Ids(players)
  {
  }

  /** A street that opens has somebody to act on it. */
  lemma {:induction false} DueIsAround(players: seq<Player>, actions: History, n: nat, street: Street)
    requires DistinctPlayers(players) && Seated(players) && n <= |actions|
    requires |Active(players, actions[..n])| >= 2 && street != CurrentStreet(actions[..n])
    ensures ToActOn(players, actions[..n], street) != []
  {
    var h := actions[..n];
    StreetOrderComplete(players, street);
    var p :| p in Active(players, h);
    OnlyMember(StreetOrder(players, street), Active(players, h), p);
  }

  lemma {:induction false} FirstSits(players: seq<Player>, who: set<string>, a: Position, p: string)
    requires Seated(players) && DistinctPlayers(players) && who <= Ids(players) && Around(players, who, a) != []
    ensures Around(players, who, a)[0] == p <==>
            exists b :: SitsAt(players, p, b) && NextClockwise(SeatsOf(players, who), a, b)
  {
    hide Seated, Around, SeatsOf, NextClockwise, SitsAt, Passed;
    var around := Around(players, who, a);
    AroundExact(players, who, a);
    if around[0] == p {
      assert p in around;
      var b := SeatOf(players, p);
      FirstIsNext(players, who, a, b);
    }
    if b :| SitsAt(players, p, b) && NextClockwise(SeatsOf(players, who), a, b) {
      NextIsFirst(players, who, a, b);
      SeatedExactly(players, who, b);
    }
  }

  /** So in every accepted hand each player in turn sits in the next remaining seat clockwise: after the
      big blind before the flop, after the button when a later street opens, after the last actor otherwise. */
  lemma {:induction false} ActsInTurn(players: seq<Player>, actions: History, i: nat, last: Position, b: Position)
    requires DistinctPlayers(players) && LegalHand(players, actions) && 2 <= i < |actions|
    requires SitsAt(players, actions[i - 1].actor, last) && SitsAt(players, actions[i].actor, b)
    ensures NextClockwise(SeatsOf(players, Active(players, actions[..i])),
                          if actions[i].street == actions[i - 1].street then last else Button(players), b)
    ensures i == 2 ==> last == BB
  {
    hide Seated, Active, ToAct, LegalNext, SeatsOf, NextClockwise;
    assert LegalUpTo(players, actions, i) && LegalNext(players, actions[..i], actions[i]);
    LegalExactlyWhen(players, actions, i, last, actions[i]);
    var c :| SitsAt(players, actions[i].actor, c) &&
             NextClockwise(SeatsOf(players, Active(players, actions[..i])),
                           if actions[i].street == actions[i - 1].street then last else Button(players), c);
    OneSeat(players, actions[i].actor, b, c);
    if i == 2 {
      OpeningGoesAround(players, actions);
      SeatsSound(players, BB);
      OneSeat(players, actions[1].actor, last, BB);
    }
  }

  lemma {:induction false} OneSeat(players: seq<Player>, p: string, a: Position, b: Position)
    requires DistinctPlayers(players) && SitsAt(players, p, a) && SitsAt(players, p, b)
    ensures a == b
  {
  }

  /** What that means at a full table of three or more: after the flop the small blind is first and the
      button last, before the flop the big blind is last. */
  lemma {:induction false} FirstAndLastSeats(seats: set<Position>, b: Position)
    ensures SB in seats && NextClockwise(seats, BTN, b) ==> b == SB
    ensures NextClockwise(seats, BTN, BTN) ==> seats == {BTN}
    ensures NextClockwise(seats, BB, BB) ==> seats == {BB}
    ensures BB in seats && seats <= {SB, BB} && NextClockwise(seats, SB, b) ==> b == BB
  {
    if NextClockwise(seats, BTN, BTN) {
      forall c | c in seats ensures c == BTN { PassedApart(BTN, c, BTN); }
    }
    if NextClockwise(seats, BB, BB) {
      forall c | c in seats ensures c == BB { PassedApart(BB, c, BB); }
    }
  }

  // ------------------------------------------------------------------ which seats are taken

  lemma {:induction false} SeatKeys(players: seq<Player>, c: Position)
    ensures c in Seats(players) <==> exists i :: 0 <= i < |players| && players[i].position == c
  {
    if players != [] {
      var init := players[..|players| - 1];
      SeatKeys(init, c);
      assert forall i :: 0 <= i < |init| ==> init[i] == players[i];
    }
  }

  predicate DistinctSeats(players: seq<Player>) {
    forall i, j :: 0 <= i < j < |players| ==> players[i].position != players[j].position
  }

  lemma {:induction false} SeatsCount(players: seq<Player>)
    ensures |Seats(players)| == |players| <==> DistinctSeats(players)
    ensures |Seats(players)| <= |players|
  {
    if players != [] {
      var init, last := players[..|players| - 1], players[|players| - 1];
      SeatsCount(init);
      SeatKeys(init, last.position);
      assert forall i :: 0 <= i < |init| ==> init[i] == players[i];
      assert Seats(players).Keys == Seats(init).Keys + {last.position};
    }
  }

  lemma {:induction false} PositionsAreLast(n: nat, c: Position)
    requires 2 <= n <= 6
    ensures c in PositionsFor(n) <==> Passed(BB, c) >= 6 - n
  {
  }

  lemma {:induction false} SameSize<T>(a: set<T>, b: set<T>)
    requires a <= b && |a| == |b|
    ensures a == b
  {
    SubsetCardinality(b - a, b);
    assert b == a + (b - a);
  }

  /** `n` players fill, one each, the last `n` of the six seats that follow the big blind. */
  lemma {:induction false} SeatedExactlyWhen(players: seq<Player>)
    ensures Seated(players) <==>
              && 2 <= |players| <= 6 && DistinctSeats(players)
              && forall i :: 0 <= i < |players| ==> Passed(BB, players[i].position) >= 6 - |players|
  {
    hide PositionsFor, Passed, Seats;
    var n := |players|;
    SeatsCount(players);
    assert |Seats(players)| == |Seats(players).Keys|;
    if 2 <= n <= 6 {
      PositionsCount(n);
      if Seated(players) {
        forall i | 0 <= i < n
          ensures Passed(BB, players[i].position) >= 6 - n
        {
          SeatKeys(players, players[i].position);
          PositionsAreLast(n, players[i].position);
        }
      }
      if DistinctSeats(players) && forall i :: 0 <= i < n ==> Passed(BB, players[i].position) >= 6 - n {
        forall c | c in Seats(players)
          ensures c in PositionsFor(n)
        {
          SeatKeys(players, c);
          PositionsAreLast(n, c);
        }
        SameSize(Seats(players).Keys, PositionsFor(n));
      }
    }
  }
}
