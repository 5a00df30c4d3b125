/** The stage machine over classified lines accepts exactly the rendered well-formed hands, and binds
    every extracted field once. */
module LineGrammar {
  import opened Basics
  import opened BettingOrder

  datatype Assertion = PotBeforeBet | CallCost | ContestablePot

  /** A source line after matching; blank lines are skipped before. */
  datatype Line =
    | HeaderLine(count: nat)
    | BlindsLine
    | PlayerLine(player: Player)
    | HeroCardsLine
    | PreflopLine
    | BoardLine(street: Street)
    | ActionLine(actor: string, kind: Kind)
    | AssertionLine(name: Assertion)
    | FocalLine

  /** Paths of the extracted fields. */
  datatype Path = HeaderField(n: nat) | BlindsField(n: nat) | PlayerField(i: nat, n: nat) | HeroField(n: nat)
                | BoardCard(i: nat) | ActionField(i: nat, n: nat) | AssertionField(name: Assertion) | FocalField(n: nat)

  const MAX_PLAYERS := 6
  const MAX_ACTIONS := 64
  const MAX_BINDINGS := 512

  datatype State = State(stage: nat, header: Option<nat>, players: seq<Player>, street: Street, body: seq<Line>,
                         actions: History, cards: nat, assertions: seq<Assertion>, focal: bool, bindings: seq<Path>)

  const START := State(0, None, [], Preflop, [], [], 0, [], false, [])

  function Cards(s: Street): nat { if s == Flop then 3 else 1 }

  function ActionFields(k: Kind): nat {
    match k
    case PostBlind => 5
    case Raise => 5
    case Call => 4
    case Bet => 4
    case _ => 3
  }

  // ------------------------------------------------------------------ one line

  predicate NewPlayer(players: seq<Player>, p: Player) {
    forall i :: 0 <= i < |players| ==> players[i].id != p.id && players[i].position != p.position
  }

  /** May this line come next? */
  predicate Fits(s: State, l: Line) {
    match l
    case HeaderLine(_) => s.header.None? && s.stage == 0
    case BlindsLine => s.stage == 1
    case PlayerLine(p) => (s.stage == 2 || s.stage == 3) && |s.players| < MAX_PLAYERS && NewPlayer(s.players, p)
    case HeroCardsLine => s.header == Some(|s.players|) && s.stage == 3
    case PreflopLine => s.stage == 4
    case BoardLine(street) => s.stage == 5 && street.Rank() == s.street.Rank() + 1
    case ActionLine(_, _) => s.stage == 5 && |s.actions| < MAX_ACTIONS
    case AssertionLine(name) => name !in s.assertions && (s.stage == 5 || s.stage == 6)
    case FocalLine => (s.stage == 5 || s.stage == 6 || s.stage == 7) && !s.focal
  }

  /** The fields the line binds. */
  function Bound(s: State, l: Line): seq<Path> {
    match l
    case HeaderLine(_) => [HeaderField(0), HeaderField(1), HeaderField(2)]
    case BlindsLine => [BlindsField(0), BlindsField(1), BlindsField(2), BlindsField(3)]
    case PlayerLine(_) => [PlayerField(|s.players|, 0), PlayerField(|s.players|, 1), PlayerField(|s.players|, 2)]
    case HeroCardsLine => [HeroField(0), HeroField(1), HeroField(2)]
    case PreflopLine => []
    case BoardLine(street) => seq(Cards(street), i requires 0 <= i => BoardCard(s.cards + i))
    case ActionLine(_, kind) => seq(ActionFields(kind), n requires 0 <= n => ActionField(|s.actions|, n))
    case AssertionLine(name) => [AssertionField(name)]
    case FocalLine => [FocalField(0), FocalField(1), FocalField(2), FocalField(3)]
  }

  function Take(s: State, l: Line): State {
    var t := s.(bindings := s.bindings + Bound(s, l));
    match l
    case HeaderLine(count) => t.(header := Some(count), stage := 1)
    case BlindsLine => t.(stage := 2)
    case PlayerLine(p) => t.(players := s.players + [p], stage := 3)
    case HeroCardsLine => t.(stage := 4)
    case PreflopLine => t.(stage := 5)
    case BoardLine(street) => t.(street := street, body := s.body + [l], cards := s.cards + Cards(street))
    case ActionLine(actor, kind) => t.(body := s.body + [l], actions := s.actions + [Action(actor, kind, s.street)])
    case AssertionLine(name) => t.(assertions := s.assertions + [name], stage := 6)
    case FocalLine => t.(focal := true, stage := 7)
  }

  predicate Room(s: State, l: Line) { |s.bindings| + |Bound(s, l)| <= MAX_BINDINGS }

  function RunFrom(s: State, lines: seq<Line>): Option<State> {
    if lines == [] then Some(s)
    else
      var before := RunFrom(s, lines[..|lines| - 1]);
      var l := lines[|lines| - 1];
      if before.Some? && Fits(before.value, l) && Room(before.value, l) then Some(Take(before.value, l)) else None
  }

  /** What the parser checks after the last line, before the betting order. */
  predicate Finished(s: State) {
    && s.stage == 7 && s.actions != [] && s.actions[|s.actions| - 1].kind == Fold
    && "Hero" in Ids(s.players)
    && (forall a :: a in s.actions ==> a.actor in Ids(s.players))
    && s.street == s.actions[|s.actions| - 1].street
  }

  method ParseLines(lines: seq<Line>) returns (r: Option<State>)
    ensures r.Some? <==> RunFrom(START, lines).Some? && Finished(RunFrom(START, lines).value)
    ensures r.Some? ==> r.value == RunFrom(START, lines).value
  {
    hide NewPlayer, Fits, Bound, Finished;
    var stage: nat := 0;
    var header: Option<nat> := None;
    var players: seq<Player> := [];
    var currentStreet := Preflop;
    var body: seq<Line>, actions: History, assertions: seq<Assertion>, bindings: seq<Path> := [], [], [], [];
    var cards: nat := 0;
    var focal := false;
    for k := 0 to |lines|
      invariant RunFrom(START, lines[..k]) ==
        Some(State(stage, header, players, currentStreet, body, actions, cards, assertions, focal, bindings))
    {
      var l := lines[k];
      var before := State(stage, header, players, currentStreet, body, actions, cards, assertions, focal, bindings);
      RunNext(lines, k, before);
      var bound := Bound(before, l);
      if !Fits(before, l) || |bindings| + |bound| > MAX_BINDINGS {
        RunStops(START, lines, k);
        return None;
      }
      match l {
        case HeaderLine(count) => header := Some(count); stage := 1;
        case BlindsLine => stage := 2;
        case PlayerLine(p) => players := players + [p]; stage := 3;
        case HeroCardsLine => stage := 4;
        case PreflopLine => stage := 5;
        case BoardLine(street) => currentStreet := street; body := body + [l]; cards := cards + Cards(street);
        case ActionLine(actor, kind) => body := body + [l]; actions := actions + [Action(actor, kind, currentStreet)];
        case AssertionLine(name) => assertions := assertions + [name]; stage := 6;
        case FocalLine => focal := true; stage := 7;
      }
      bindings := bindings + bound;
    }
    assert lines[..|lines|] == lines;
    var s := State(stage, header, players, currentStreet, body, actions, cards, assertions, focal, bindings);
    if !Finished(s) { return None; }
    return Some(s);
  }

  lemma {:induction false} RunNext(lines: seq<Line>, k: nat, s: State)
    requires k < |lines| && RunFrom(START, lines[..k]) == Some(s)
    ensures RunFrom(START, lines[..k + 1]) == if Fits(s, lines[k]) && Room(s, lines[k]) then Some(Take(s, lines[k])) else None
  {
    assert lines[..k + 1][..k] == lines[..k] && lines[..k + 1][k] == lines[k];
  }

  lemma {:induction false} RunStops(s: State, lines: seq<Line>, k: nat)
    requires k < |lines| && RunFrom(s, lines[..k + 1]) == None
    ensures RunFrom(s, lines) == None
  {
    if k + 1 < |lines| {
      assert lines[..|lines| - 1][..k + 1] == lines[..k + 1];
      RunStops(s, lines[..|lines| - 1], k);
    } else {
      assert lines[..k + 1] == lines;
    }
  }

  // ------------------------------------------------------------------ hands as trees, and their rendering

  datatype Hand = Hand(players: seq<Player>, body: seq<Line>, assertions: seq<Assertion>)

  function PlayerLines(players: seq<Player>): seq<Line> {
    seq(|players|, i requires 0 <= i < |players| => PlayerLine(players[i]))
  }

  function AssertionLines(names: seq<Assertion>): seq<Line> {
    seq(|names|, i requires 0 <= i < |names| => AssertionLine(names[i]))
  }

  function Rendered(h: Hand): seq<Line> {
    [HeaderLine(|h.players|)] + [BlindsLine] + PlayerLines(h.players) + [HeroCardsLine] + [PreflopLine] + h.body
    + AssertionLines(h.assertions) + [FocalLine]
  }

  function StreetOf(body: seq<Line>): Street {
    if body == [] then Preflop
    else
      var l := body[|body| - 1];
      if l.BoardLine? then l.street else StreetOf(body[..|body| - 1])
  }

  function ActionsOf(body: seq<Line>): History {
    if body == [] then []
    else
      var before, l := body[..|body| - 1], body[|body| - 1];
      ActionsOf(before) + if l.ActionLine? then [Action(l.actor, l.kind, StreetOf(before))] else []
  }

  /** Actions and boards only, and every board opens the next street. */
  predicate BodyOk(body: seq<Line>) {
    body == []
    || (var before, l := body[..|body| - 1], body[|body| - 1];
        BodyOk(before) && (l.ActionLine? || (l.BoardLine? && l.street.Rank() == StreetOf(before).Rank() + 1)))
  }

  predicate DistinctSeats(players: seq<Player>) {
    forall i, j :: 0 <= i < j < |players| ==>
      players[i].id != players[j].id && players[i].position != players[j].position
  }

  predicate WellFormed(h: Hand) {
    && 1 <= |h.players| <= MAX_PLAYERS && DistinctSeats(h.players) && "Hero" in Ids(h.players)
    && BodyOk(h.body) && Distinct(h.assertions)
    && var actions := ActionsOf(h.body);
       && 1 <= |actions| <= MAX_ACTIONS && actions[|actions| - 1].kind == Fold
       && (forall a :: a in actions ==> a.actor in Ids(h.players))
       && StreetOf(h.body) == actions[|actions| - 1].street
  }

  function HandOf(s: State): Hand { Hand(s.players, s.body, s.assertions) }

  /** The lines a state has consumed. */
  function Consumed(s: State): seq<Line> {
    (if s.header.Some? then [HeaderLine(s.header.value)] else [])
    + (if s.stage >= 2 then [BlindsLine] else [])
    + PlayerLines(s.players)
    + (if s.stage >= 4 then [HeroCardsLine] else [])
    + (if s.stage >= 5 then [PreflopLine] else [])
    + s.body + AssertionLines(s.assertions)
    + (if s.focal then [FocalLine] else [])
  }

  // ------------------------------------------------------------------ the invariant of the machine

  predicate Staged(s: State) {
    && s.stage <= 7
    && (s.header.Some? <==> s.stage >= 1)
    && (s.stage < 3 ==> s.players == []) && (s.stage == 3 ==> s.players != [])
    && (s.stage >= 4 ==> s.header == Some(|s.players|) && s.players != [])
    && (s.stage < 5 ==> s.body == [])
    && (s.stage < 6 ==> s.assertions == [])
    && (s.focal <==> s.stage == 7)
  }

  predicate Lawful(s: State) {
    && |s.players| <= MAX_PLAYERS && DistinctSeats(s.players)
    && BodyOk(s.body) && s.actions == ActionsOf(s.body) && s.street == StreetOf(s.body) && |s.actions| <= MAX_ACTIONS
    && Distinct(s.assertions)
  }

  function CardsDealt(s: Street): nat { match s case Preflop => 0 case Flop => 3 case Turn => 4 case River => 5 }

  predicate Known(s: State, p: Path) {
    match p
    case HeaderField(_) => s.stage >= 1
    case BlindsField(_) => s.stage >= 2
    case PlayerField(i, _) => i < |s.players|
    case HeroField(_) => s.stage >= 4
    case BoardCard(i) => i < s.cards
    case ActionField(i, _) => i < |s.actions|
    case AssertionField(name) => name in s.assertions
    case FocalField(_) => s.focal
  }

  /** Bindings are unique, and there are at most as many as the parts read so far allow. */
  predicate Accounted(s: State) {
    && Distinct(s.bindings)
    && (forall p :: p in s.bindings ==> Known(s, p))
    && s.cards == CardsDealt(s.street)
    && |s.bindings| <= (if s.stage >= 1 then 3 else 0) + (if s.stage >= 2 then 4 else 0) + 3 * |s.players|
         + (if s.stage >= 4 then 3 else 0) + s.cards + 5 * |s.actions| + |s.assertions| + (if s.focal then 4 else 0)
  }

  lemma {:induction false} TakeStaged(s: State, l: Line)
    requires Staged(s) && Fits(s, l)
    ensures Staged(Take(s, l))
  {
    hide NewPlayer;
  }

  function Opening(s: State): seq<Line> {
    (if s.header.Some? then [HeaderLine(s.header.value)] else []) + (if s.stage >= 2 then [BlindsLine] else [])
  }

  function Seating(s: State): seq<Line> {
    PlayerLines(s.players) + (if s.stage >= 4 then [HeroCardsLine] else []) + (if s.stage >= 5 then [PreflopLine] else [])
  }

  function Closing(s: State): seq<Line> {
    AssertionLines(s.assertions) + (if s.focal then [FocalLine] else [])
  }

  lemma {:induction false} TakeOpening(s: State, l: Line)
    requires Staged(s) && Fits(s, l) && s.stage <= 1
    ensures Opening(Take(s, l)) == Opening(s) + [l]
    ensures Seating(Take(s, l)) == Seating(s) == Closing(s) == Closing(Take(s, l)) == [] && Take(s, l).body == s.body == []
  {
  }

  lemma {:induction false} TakeSeating(s: State, l: Line)
    requires Staged(s) && Fits(s, l) && 2 <= s.stage <= 4
    ensures Opening(Take(s, l)) == Opening(s) && Seating(Take(s, l)) == Seating(s) + [l]
    ensures Closing(s) == Closing(Take(s, l)) == [] && Take(s, l).body == s.body == []
  {
    hide NewPlayer;
    if l.PlayerLine? {
      assert PlayerLines(s.players + [l.player]) == PlayerLines(s.players) + [l];
    }
  }

  lemma {:induction false} TakeRest(s: State, l: Line)
    requires Staged(s) && Fits(s, l) && s.stage >= 5
    ensures Opening(Take(s, l)) == Opening(s) && Seating(Take(s, l)) == Seating(s)
    ensures if l.BoardLine? || l.ActionLine? then Take(s, l).body == s.body + [l] && Closing(s) == Closing(Take(s, l)) == []
            else Take(s, l).body == s.body && Closing(Take(s, l)) == Closing(s) + [l]
  {
    hide NewPlayer;
    if l.AssertionLine? {
      assert AssertionLines(s.assertions + [l.name]) == AssertionLines(s.assertions) + [l];
    }
  }

  lemma {:induction false} ConsumedParts(s: State)
    ensures Consumed(s) == Opening(s) + Seating(s) + s.body + Closing(s)
  {
  }

  lemma {:induction false} TakeConsumes(s: State, l: Line)
    requires Staged(s) && Fits(s, l)
    ensures Staged(Take(s, l)) && Consumed(Take(s, l)) == Consumed(s) + [l]
  {
    hide Consumed, Opening, Seating, Closing, Take, Fits;
    TakeStaged(s, l);
    ConsumedParts(s);
    ConsumedParts(Take(s, l));
    if s.stage <= 1 {
      TakeOpening(s, l);
    } else if s.stage <= 4 {
      TakeSeating(s, l);
    } else {
      TakeRest(s, l);
    }
  }

  lemma {:induction false} TakeLawful(s: State, l: Line)
    requires Lawful(s) && Fits(s, l)
    ensures Lawful(Take(s, l))
  {
    if l.BoardLine? || l.ActionLine? { assert (s.body + [l])[..|s.body|] == s.body; }
  }

  lemma {:induction false} BoundIsNew(s: State, l: Line)
    requires Staged(s) && Fits(s, l) && s.cards == CardsDealt(s.street)
    ensures Distinct(Bound(s, l)) && forall p :: p in Bound(s, l) ==> !Known(s, p) && Known(Take(s, l), p)
  {
    hide NewPlayer;
    if l.AssertionLine? { assert (s.assertions + [l.name])[|s.assertions|] == l.name; }
  }

  lemma {:induction false} KnownStays(s: State, l: Line, p: Path)
    requires Fits(s, l) && Known(s, p)
    ensures Known(Take(s, l), p)
  {
    hide NewPlayer;
  }

  lemma {:induction false} TakeCounts(s: State, l: Line)
    requires Staged(s) && Fits(s, l) && s.cards == CardsDealt(s.street)
    ensures Take(s, l).cards == CardsDealt(Take(s, l).street)
    ensures |Bound(s, l)| <= 5
    ensures Accounted(s) ==> |Take(s, l).bindings| <= Allowed(Take(s, l))
  {
    hide NewPlayer, Known, Distinct;
  }

  function Allowed(s: State): nat {
    (if s.stage >= 1 then 3 else 0) + (if s.stage >= 2 then 4 else 0) + 3 * |s.players|
    + (if s.stage >= 4 then 3 else 0) + s.cards + 5 * |s.actions| + |s.assertions| + (if s.focal then 4 else 0)
  }

  lemma {:induction false} TakeAccounted(s: State, l: Line)
    requires Staged(s) && Fits(s, l) && Accounted(s)
    ensures Accounted(Take(s, l))
  {
    hide Fits, Bound, Known;
    var t := Take(s, l);
    BoundIsNew(s, l);
    TakeCounts(s, l);
    BindingsGrow(s, l);
    forall p | p in t.bindings
      ensures Known(t, p)
    {
      if p in s.bindings { KnownStays(s, l, p); }
    }
    forall i, j | 0 <= i < j < |t.bindings|
      ensures t.bindings[i] != t.bindings[j]
    {
      var n := |s.bindings|;
      if i < n && j >= n {
        assert t.bindings[i] == s.bindings[i] && s.bindings[i] in s.bindings;
        assert t.bindings[j] == Bound(s, l)[j - n] && Bound(s, l)[j - n] in Bound(s, l);
      }
    }
  }

  lemma {:induction false} BindingsGrow(s: State, l: Line)
    ensures Take(s, l).bindings == s.bindings + Bound(s, l)
  {
  }

  lemma {:induction false} ThreeAssertions(names: seq<Assertion>)
    requires Distinct(names)
    ensures |names| <= 3
  {
    DistinctCardinality(names);
    var all := {PotBeforeBet, CallCost, ContestablePot};
    forall n: Assertion
      ensures n in all
    {
      match n case PotBeforeBet => case CallCost => case ContestablePot =>
    }
    SubsetCardinality((set n | n in names), all);
  }

  /** At most 360 fields are ever bound, so the limit of 512 is never met. */
  lemma {:induction false} BindingsAreFew(s: State)
    requires Staged(s) && Lawful(s) && Accounted(s)
    ensures |s.bindings| <= 360
  {
    ThreeAssertions(s.assertions);
    assert s.cards <= 5;
  }

  lemma {:induction false} RunInvariant(lines: seq<Line>)
    requires RunFrom(START, lines).Some?
    ensures var s := RunFrom(START, lines).value;
            && Staged(s) && Lawful(s) && Accounted(s) && Consumed(s) == lines && |s.bindings| <= 360
  {
    hide Fits, Staged, Lawful, Accounted, Consumed, Take, Bound;
    if lines == [] {
      StartHolds();
    } else {
      var before, l := lines[..|lines| - 1], lines[|lines| - 1];
      RunInvariant(before);
      var s := RunFrom(START, before).value;
      TakeConsumes(s, l);
      TakeLawful(s, l);
      TakeAccounted(s, l);
      assert before + [l] == lines;
    }
    BindingsAreFew(RunFrom(START, lines).value);
  }

  lemma {:induction false} StartHolds()
    ensures Staged(START) && Lawful(START) && Accounted(START) && Consumed(START) == []
  {
  }

  // ------------------------------------------------------------------ accepted lines are rendered hands

  lemma {:induction false} AcceptedIsRendered(lines: seq<Line>)
    requires RunFrom(START, lines).Some? && Finished(RunFrom(START, lines).value)
    ensures var h := HandOf(RunFrom(START, lines).value); WellFormed(h) && lines == Rendered(h)
  {
    hide BodyOk, ActionsOf, StreetOf, Accounted;
    RunInvariant(lines);
    var s := RunFrom(START, lines).value;
    assert Consumed(s) == Rendered(HandOf(s));
  }

  // ------------------------------------------------------------------ rendered hands are accepted

  function Clamp(n: int, m: nat): nat { if n < 0 then 0 else if n > m then m else n }

  /** Where the machine stands after `n` lines of a rendered hand, bindings left out. */
  function Track(h: Hand, n: nat): State {
    var p, b, a := |h.players|, |h.body|, |h.assertions|;
    var body := h.body[..Clamp(n - 4 - p, b)];
    var stage :=
      if n <= 2 then n else if n <= 2 + p then 3 else if n == 3 + p then 4 else if n <= 4 + p + b then 5
      else if n <= 4 + p + b + a then 6 else 7;
    State(stage, if n >= 1 then Some(p) else None, h.players[..Clamp(n - 2, p)], StreetOf(body), body, ActionsOf(body),
          CardsDealt(StreetOf(body)), h.assertions[..Clamp(n - 4 - p - b, a)], n > 4 + p + b + a, [])
  }

  function Strip(s: State): State { s.(bindings := []) }

  lemma {:induction false} RenderedAt(h: Hand, n: nat)
    requires n < |Rendered(h)|
    ensures var p, b, a := |h.players|, |h.body|, |h.assertions|;
            && |Rendered(h)| == 5 + p + b + a
            && Rendered(h)[n] ==
               if n == 0 then HeaderLine(p) else if n == 1 then BlindsLine
               else if n < 2 + p then PlayerLine(h.players[n - 2])
               else if n == 2 + p then HeroCardsLine else if n == 3 + p then PreflopLine
               else if n < 4 + p + b then h.body[n - 4 - p]
               else if n < 4 + p + b + a then AssertionLine(h.assertions[n - 4 - p - b])
               else FocalLine
  {
  }

  lemma {:induction false} BodyPrefix(body: seq<Line>, j: nat)
    requires BodyOk(body) && j <= |body|
    ensures BodyOk(body[..j]) && |ActionsOf(body[..j])| <= |ActionsOf(body)|
  {
    if j < |body| {
      BodyPrefix(body[..|body| - 1], j);
      assert body[..|body| - 1][..j] == body[..j];
    } else {
      assert body[..j] == body;
    }
  }

  lemma {:induction false} BodyStep(body: seq<Line>, j: nat)
    requires BodyOk(body) && j < |body|
    ensures var l, before := body[j], body[..j];
            && body[..j + 1] == before + [l]
            && (l.ActionLine? || (l.BoardLine? && l.street.Rank() == StreetOf(before).Rank() + 1))
            && StreetOf(before + [l]) == (if l.BoardLine? then l.street else StreetOf(before))
            && ActionsOf(before + [l]) == ActionsOf(before) + (if l.ActionLine? then [Action(l.actor, l.kind, StreetOf(before))] else [])
            && (l.ActionLine? ==> |ActionsOf(before)| < |ActionsOf(body)|)
  {
    BodyPrefix(body, j + 1);
    assert body[..j + 1][..j] == body[..j] && body[..j + 1][j] == body[j];
    assert (body[..j] + [body[j]])[..j] == body[..j];
    assert body[..j + 1] == body[..j] + [body[j]];
  }

  lemma {:induction false} TrackPlayers(h: Hand, n: nat)
    requires WellFormed(h) && 2 <= n < 2 + |h.players|
    ensures Fits(Track(h, n), PlayerLine(h.players[n - 2]))
    ensures Strip(Take(Track(h, n), PlayerLine(h.players[n - 2]))) == Track(h, n + 1)
  {
    assert h.players[..n - 2] + [h.players[n - 2]] == h.players[..n - 1];
  }

  lemma {:induction false} TrackBody(h: Hand, n: nat)
    requires WellFormed(h) && 4 + |h.players| <= n < 4 + |h.players| + |h.body|
    ensures Fits(Track(h, n), h.body[n - 4 - |h.players|])
    ensures Strip(Take(Track(h, n), h.body[n - 4 - |h.players|])) == Track(h, n + 1)
  {
    hide StreetOf, ActionsOf, BodyOk;
    WellFormedBody(h);
    BodyStep(h.body, n - 4 - |h.players|);
    assert h.players[..|h.players|] == h.players && h.assertions[..0] == [];
  }

  lemma {:induction false} WellFormedBody(h: Hand)
    requires WellFormed(h)
    ensures BodyOk(h.body) && |ActionsOf(h.body)| <= MAX_ACTIONS
  {
  }

  lemma {:induction false} TrackAssertions(h: Hand, n: nat)
    requires WellFormed(h)
    requires 4 + |h.players| + |h.body| <= n < 4 + |h.players| + |h.body| + |h.assertions|
    ensures var l := AssertionLine(h.assertions[n - 4 - |h.players| - |h.body|]);
            Fits(Track(h, n), l) && Strip(Take(Track(h, n), l)) == Track(h, n + 1)
  {
    hide StreetOf, ActionsOf, BodyOk;
    var k := n - 4 - |h.players| - |h.body|;
    assert h.assertions[..k] + [h.assertions[k]] == h.assertions[..k + 1];
  }

  lemma {:induction false} TrackFixed(h: Hand, n: nat)
    requires WellFormed(h)
    requires n <= 1 || n == 2 + |h.players| || n == 3 + |h.players| || n == 4 + |h.players| + |h.body| + |h.assertions|
    requires n < |Rendered(h)|
    ensures Fits(Track(h, n), Rendered(h)[n]) && Strip(Take(Track(h, n), Rendered(h)[n])) == Track(h, n + 1)
  {
    hide StreetOf, ActionsOf, BodyOk;
    RenderedAt(h, n);
    hide Rendered;
    assert h.players[..|h.players|] == h.players;
  }

  lemma {:induction false} TrackStep(h: Hand, n: nat)
    requires WellFormed(h) && n < |Rendered(h)|
    ensures Fits(Track(h, n), Rendered(h)[n]) && Strip(Take(Track(h, n), Rendered(h)[n])) == Track(h, n + 1)
  {
    hide WellFormed, Track, Fits, Take;
    RenderedAt(h, n);
    var p, b, a := |h.players|, |h.body|, |h.assertions|;
    if 2 <= n < 2 + p {
      TrackPlayers(h, n);
    } else if 4 + p <= n < 4 + p + b {
      TrackBody(h, n);
    } else if 4 + p + b <= n < 4 + p + b + a {
      TrackAssertions(h, n);
    } else {
      TrackFixed(h, n);
    }
  }

  lemma {:induction false} StripFits(s: State, l: Line)
    ensures Fits(s, l) <==> Fits(Strip(s), l)
    ensures Strip(Take(s, l)) == Strip(Take(Strip(s), l))
    ensures |Bound(s, l)| <= 5
  {
    hide NewPlayer;
  }

  lemma {:induction false} RenderedRuns(h: Hand, n: nat)
    requires WellFormed(h) && n <= |Rendered(h)|
    ensures RunFrom(START, Rendered(h)[..n]).Some? && Strip(RunFrom(START, Rendered(h)[..n]).value) == Track(h, n)
  {
    hide WellFormed, Rendered, Fits, Staged, Lawful, Accounted, Consumed, Take, Track, Bound;
    if n == 0 {
      TrackStart(h);
    } else {
      RenderedRuns(h, n - 1);
      var lines := Rendered(h);
      var s := RunFrom(START, lines[..n - 1]).value;
      RunInvariant(lines[..n - 1]);
      assert lines[..n][..n - 1] == lines[..n - 1] && lines[..n][n - 1] == lines[n - 1];
      TrackStep(h, n - 1);
      StripFits(s, lines[n - 1]);
    }
  }

  lemma {:induction false} TrackStart(h: Hand)
    ensures Track(h, 0) == START
  {
  }

  lemma {:induction false} TrackEnd(h: Hand)
    requires WellFormed(h)
    ensures Finished(Track(h, |Rendered(h)|)) && HandOf(Track(h, |Rendered(h)|)) == h
  {
    var p, b, a := |h.players|, |h.body|, |h.assertions|;
    assert h.players[..p] == h.players && h.body[..b] == h.body && h.assertions[..a] == h.assertions;
    RenderedAt(h, 0);
  }

  lemma {:induction false} StripFinished(s: State)
    ensures Finished(s) <==> Finished(Strip(s))
    ensures HandOf(s) == HandOf(Strip(s))
  {
  }

  /** The machine is the inverse of rendering: every well-formed hand is read back from its lines. */
  lemma {:induction false} RenderedIsAccepted(h: Hand)
    requires WellFormed(h)
    ensures var r := RunFrom(START, Rendered(h)); r.Some? && Finished(r.value) && HandOf(r.value) == h
  {
    hide WellFormed, Rendered, Track, Finished;
    assert Rendered(h)[..|Rendered(h)|] == Rendered(h);
    RenderedRuns(h, |Rendered(h)|);
    TrackEnd(h);
    StripFinished(RunFrom(START, Rendered(h)).value);
  }

  /** The accepted line sequences are exactly the renderings of well-formed hands. */
  lemma {:induction false} AcceptedExactlyWhen(lines: seq<Line>)
    ensures (RunFrom(START, lines).Some? && Finished(RunFrom(START, lines).value)) <==>
            exists h :: WellFormed(h) && lines == Rendered(h)
  {
    hide WellFormed, Rendered, Finished;
    if RunFrom(START, lines).Some? && Finished(RunFrom(START, lines).value) {
      AcceptedIsRendered(lines);
    }
    if h :| WellFormed(h) && lines == Rendered(h) {
      RenderedIsAccepted(h);
    }
  }

  /** So the betting-order machine is only ever asked about players with distinct names. */
  lemma {:induction false} AcceptedPlayersAreDistinct(lines: seq<Line>)
    requires RunFrom(START, lines).Some? && Finished(RunFrom(START, lines).value)
    ensures DistinctPlayers(RunFrom(START, lines).value.players)
    ensures Distinct(RunFrom(START, lines).value.bindings) && |RunFrom(START, lines).value.bindings| <= 360
  {
    RunInvariant(lines);
  }
}
