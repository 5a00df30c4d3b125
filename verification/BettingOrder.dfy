/** The bounded hand parser's betting-order machine. The method runs the `active` and `pending`
    queues; the specification says, from the actions so far alone, who must act next. */
module BettingOrder {
  import opened Basics

  datatype Street = Preflop | Flop | Turn | River {
    function Rank(): nat {
      match this case Preflop => 0 case Flop => 1 case Turn => 2 case River => 3
    }
  }

  datatype Kind = PostBlind | Check | Fold | Call | Bet | Raise

  datatype Action = Action(actor: string, kind: Kind, street: Street)

  datatype Position = UTG | HJ | CO | BTN | SB | BB

  datatype Player = Player(id: string, position: Position)

  type History = seq<Action>

  predicate Aggressive(a: Action) { a.kind == Bet || a.kind == Raise }

  // ------------------------------------------------------------------ seats

  function Seats(players: seq<Player>): map<Position, string> {
    if players == [] then map[]
    else
      var last := players[|players| - 1];
      Seats(players[..|players| - 1])[last.position := last.id]
  }

  function PositionsFor(tableSize: nat): set<Position> {
    match tableSize
    case 2 => {SB, BB}
    case 3 => {BTN, SB, BB}
    case 4 => {CO, BTN, SB, BB}
    case 5 => {HJ, CO, BTN, SB, BB}
    case 6 => {UTG, HJ, CO, BTN, SB, BB}
    case _ => {}
  }

  predicate Seated(players: seq<Player>) {
    2 <= |players| <= 6 && Seats(players).Keys == PositionsFor(|players|)
  }

  /** Enforced line by line by the parser: no player is declared twice. */
  predicate DistinctPlayers(players: seq<Player>) {
    forall i, j :: 0 <= i < j < |players| ==> players[i].id != players[j].id
  }

  const PREFLOP_ORDER: seq<Position> := [UTG, HJ, CO, BTN, SB, BB]
  const POSTFLOP_ORDER: seq<Position> := [SB, BB, UTG, HJ, CO, BTN]
  const HEADS_UP_POSTFLOP_ORDER: seq<Position> := [BB, SB]

  function PositionOrder(tableSize: nat, street: Street): seq<Position> {
    if street == Preflop then PREFLOP_ORDER
    else if tableSize == 2 then HEADS_UP_POSTFLOP_ORDER
    else POSTFLOP_ORDER
  }

  function Occupants(order: seq<Position>, seats: map<Position, string>): seq<string> {
    if order == [] then []
    else (if order[0] in seats then [seats[order[0]]] else []) + Occupants(order[1..], seats)
  }

  function StreetOrder(players: seq<Player>, street: Street): seq<string> {
    Occupants(PositionOrder(|players|, street), Seats(players))
  }

  function Ids(players: seq<Player>): set<string> {
    set i | 0 <= i < |players| :: players[i].id
  }

  // ------------------------------------------------------------------ the specification

  function Folded(h: History): set<string> {
    set k | 0 <= k < |h| && h[k].kind == Fold :: h[k].actor
  }

  function Active(players: seq<Player>, h: History): set<string> {
    Ids(players) - Folded(h)
  }

  function CurrentStreet(h: History): Street {
    if h == [] then Preflop else h[|h| - 1].street
  }

  /** Where the present round of obligations began: at the last bet or raise of this street, or
      where the street opened. The two blinds oblige nobody. */
  function RoundStart(h: History): (s: nat)
    ensures s <= |h| || s == 2
  {
    if |h| <= 2 then 2
    else if Aggressive(h[|h| - 1]) || h[|h| - 1].street != CurrentStreet(h[..|h| - 1]) then |h| - 1
    else RoundStart(h[..|h| - 1])
  }

  function Actors(h: History, start: nat): set<string> {
    set k | start <= k < |h| :: h[k].actor
  }

  /** An active player owes an action until acting in the present round. */
  function Owed(players: seq<Player>, h: History): set<string> {
    Active(players, h) - Actors(h, RoundStart(h))
  }

  function Only(s: seq<string>, keep: set<string>): seq<string> {
    if s == [] then [] else (if s[0] in keep then [s[0]] else []) + Only(s[1..], keep)
  }

  function IndexOf(s: seq<string>, p: string): (k: nat)
    requires p in s
    ensures k < |s| && s[k] == p && p !in s[..k]
  {
    if s[0] == p then 0
    else
      var k := 1 + IndexOf(s[1..], p);
      assert s[..k] == [s[0]] + s[1..][..k - 1];
      k
  }

  /** The order rotated to begin just after `p`, with `p` left out. */
  function OthersFrom(order: seq<string>, p: string): seq<string>
    requires p in order
  {
    var k := IndexOf(order, p);
    order[k + 1..] + order[..k]
  }

  /** Seat order on the street; after a bet or raise it runs on from the aggressor. */
  function RoundOrder(players: seq<Player>, h: History): seq<string> {
    var order, s := StreetOrder(players, CurrentStreet(h)), RoundStart(h);
    if s < |h| && Aggressive(h[s]) && h[s].actor in order then OthersFrom(order, h[s].actor) else order
  }

  /** Who still has to act on this street, in order. */
  function ToAct(players: seq<Player>, h: History): seq<string> {
    if |Active(players, h)| <= 1 then [] else Only(RoundOrder(players, h), Owed(players, h))
  }

  /** Who has to act if the next action is on `street`. */
  function ToActOn(players: seq<Player>, h: History, street: Street): seq<string> {
    if street == CurrentStreet(h) then ToAct(players, h)
    else Only(StreetOrder(players, street), Active(players, h))
  }

  predicate LegalNext(players: seq<Player>, h: History, x: Action) {
    && |Active(players, h)| >= 2
    && x.kind != PostBlind
    && (x.street != CurrentStreet(h) ==>
          x.street.Rank() == CurrentStreet(h).Rank() + 1 && ToAct(players, h) == [] && |h| > 2)
    && var turn := ToActOn(players, h, x.street);
       turn != [] && turn[0] == x.actor
  }

  predicate BlindsPosted(players: seq<Player>, actions: History)
    requires Seated(players)
  {
    && |actions| >= 3
    && actions[0] == Action(Seats(players)[SB], PostBlind, Preflop)
    && actions[1] == Action(Seats(players)[BB], PostBlind, Preflop)
  }

  /** A complete hand: blinds, then every action by the player whose turn it is, until one player is left. */
  predicate LegalHand(players: seq<Player>, actions: History) {
    && Seated(players)
    && BlindsPosted(players, actions)
    && (forall i :: 2 <= i < |actions| ==> LegalNext(players, actions[..i], actions[i]))
    && |Active(players, actions)| == 1
  }

  // ------------------------------------------------------------------ seats are complete and distinct

  lemma {:induction false} SeatsSound(players: seq<Player>, pos: Position)
    requires pos in Seats(players)
    ensures exists i :: 0 <= i < |players| && players[i] == Player(Seats(players)[pos], pos)
  {
    var init, last := players[..|players| - 1], players[|players| - 1];
    if last.position != pos {
      SeatsSound(init, pos);
      var i :| 0 <= i < |init| && init[i] == Player(Seats(init)[pos], pos);
      assert players[i] == init[i];
    } else {
      assert players[|players| - 1] == Player(Seats(players)[pos], pos);
    }
  }

  lemma {:induction false} SeatsCardinality(players: seq<Player>)
    ensures |Seats(players).Keys| <= |players|
    ensures |Seats(players).Keys| == |players| ==>
              forall i :: 0 <= i < |players| ==> players[i].position in Seats(players) && Seats(players)[players[i].position] == players[i].id
  {
    if players != [] {
      var init, last := players[..|players| - 1], players[|players| - 1];
      SeatsCardinality(init);
      assert Seats(players).Keys == Seats(init).Keys + {last.position};
      if |Seats(players).Keys| == |players| {
        assert last.position !in Seats(init);
        forall i | 0 <= i < |players|
          ensures players[i].position in Seats(players) && Seats(players)[players[i].position] == players[i].id
        {
          if i < |init| { assert players[i] == init[i]; }
        }
      }
    }
  }

  lemma {:induction false} PositionsCount(n: nat)
    requires 2 <= n <= 6
    ensures |PositionsFor(n)| == n
  {
  }

  lemma {:induction false} OccupantsMember(order: seq<Position>, seats: map<Position, string>, p: string)
    ensures p in Occupants(order, seats) <==> exists k :: 0 <= k < |order| && order[k] in seats && seats[order[k]] == p
  {
    if order != [] {
      OccupantsMember(order[1..], seats, p);
      assert forall k :: 0 <= k < |order| - 1 ==> order[1..][k] == order[k + 1];
    }
  }

  ghost predicate InjectiveSeats(seats: map<Position, string>) {
    forall a, b :: a in seats && b in seats && seats[a] == seats[b] ==> a == b
  }

  lemma {:induction false} OccupantsDistinct(order: seq<Position>, seats: map<Position, string>)
    requires Distinct(order) && InjectiveSeats(seats)
    ensures Distinct(Occupants(order, seats))
  {
    if order != [] {
      var tail := order[1..];
      assert forall i :: 0 <= i < |tail| ==> tail[i] == order[i + 1];
      OccupantsDistinct(tail, seats);
      if order[0] in seats {
        OccupantsMember(tail, seats, seats[order[0]]);
      }
    }
  }

  lemma {:induction false} SeatsInjective(players: seq<Player>)
    requires DistinctPlayers(players)
    ensures InjectiveSeats(Seats(players))
  {
    forall a, b | a in Seats(players) && b in Seats(players) && Seats(players)[a] == Seats(players)[b]
      ensures a == b
    {
      SeatsSound(players, a);
      SeatsSound(players, b);
      var i :| 0 <= i < |players| && players[i] == Player(Seats(players)[a], a);
      var j :| 0 <= j < |players| && players[j] == Player(Seats(players)[b], b);
      assert i == j;
    }
  }

  lemma {:induction false} PositionOrderComplete(tableSize: nat, street: Street, pos: Position)
    requires tableSize == 2 ==> pos == SB || pos == BB
    ensures exists k :: 0 <= k < |PositionOrder(tableSize, street)| && PositionOrder(tableSize, street)[k] == pos
    ensures Distinct(PositionOrder(tableSize, street))
  {
    var k :=
      if street == Preflop then match pos case UTG => 0 case HJ => 1 case CO => 2 case BTN => 3 case SB => 4 case BB => 5
      else if tableSize == 2 then if pos == BB then 0 else 1
      else match pos case SB => 0 case BB => 1 case UTG => 2 case HJ => 3 case CO => 4 case BTN => 5;
    assert PositionOrder(tableSize, street)[k] == pos;
  }

  /** Every street's seat order lists every player exactly once. */
  lemma {:induction false} StreetOrderComplete(players: seq<Player>, street: Street)
    requires Seated(players) && DistinctPlayers(players)
    ensures Distinct(StreetOrder(players, street))
    ensures forall p :: p in StreetOrder(players, street) <==> p in Ids(players)
  {
    var order, seats := PositionOrder(|players|, street), Seats(players);
    PositionOrderComplete(|players|, street, SB);
    SeatsInjective(players);
    OccupantsDistinct(order, seats);
    SeatsCardinality(players);
    PositionsCount(|players|);
    forall p
      ensures p in StreetOrder(players, street) <==> p in Ids(players)
    {
      OccupantsMember(order, seats, p);
      if p in Ids(players) {
        var i :| 0 <= i < |players| && players[i].id == p;
        PositionOrderComplete(|players|, street, players[i].position);
      }
      if k :| 0 <= k < |order| && order[k] in seats && seats[order[k]] == p {
        SeatsSound(players, order[k]);
      }
    }
  }
}
