/** The river call boundary composed with the betting-order machine: at the focal decision of an
    accepted hand only Hero and the bettor are left. */
module RiverBoundary {
  import opened Basics
  import opened BettingOrder
  import opened BettingMachine
  import opened BettingTheorems

  datatype Focal = Focal(street: Street, selectorActor: string, facingIndex: nat, heroIndex: nat, response: Kind)

  /** What the check reads of the hand beside players and actions. */
  datatype HandFacts = HandFacts(gameType: string, format: string, ante: int, rake: Option<int>, tournament: bool,
                                 board: nat, heroCards: nat, tableSize: nat)

  /** What a range definition says it is for; `prefix` is the digest of an action prefix. */
  datatype Conditions = Conditions(target: string, street: string, format: string, gameType: string,
                                   tableSize: nat, asOf: int, prefix: string)

  datatype BoundaryFault = UnsupportedHand | NotRiver | NotFinalResponse | FocalMismatch | WrongTarget | NotHeadsUp

  /** What the parser establishes when it binds a focal selector to the action list. */
  predicate FocalBound(actions: History, hero: string, f: Focal) {
    && f.heroIndex == f.facingIndex + 1 < |actions|
    && var facing, answer := actions[f.facingIndex], actions[f.heroIndex];
       && facing.street == f.street && facing.actor == f.selectorActor && Aggressive(facing)
       && f.selectorActor != hero
       && answer.actor == hero && answer.street == f.street
       && answer.kind == f.response && (f.response == Call || f.response == Fold)
  }

  /** The players not yet folded before action `n`. */
  method EligiblePlayers(players: seq<Player>, actions: History, n: nat) returns (eligible: set<string>)
    requires n <= |actions|
    ensures forall p :: p in eligible <==>
      p in Ids(players) && forall k :: 0 <= k < n ==> actions[k].kind == Fold ==> actions[k].actor != p
  {
    eligible := Ids(players);
    for i := 0 to n
      invariant forall p :: p in eligible <==>
        p in Ids(players) && forall k :: 0 <= k < i ==> actions[k].kind == Fold ==> actions[k].actor != p
    {
      if actions[i].kind == Fold {
        eligible := eligible - {actions[i].actor};
      }
    }
  }

  predicate CashHand(facts: HandFacts) {
    && facts.gameType == "NLHE" && facts.format == "cash" && facts.ante == 0
    && facts.rake in {None, Some(0)} && !facts.tournament
  }

  /** The definition is for this bettor, this game and exactly the actions up to the bet. */
  predicate MadeFor(c: Conditions, facts: HandFacts, actions: History, f: Focal, digest: History -> string)
    requires f.facingIndex < |actions|
  {
    && c.target == actions[f.facingIndex].actor && c.street == "river" && c.format == "cash" && c.gameType == "NLHE"
    && c.tableSize == facts.tableSize && c.asOf == f.facingIndex + 1
    && c.prefix == digest(actions[..f.facingIndex + 1])
  }

  /** The hand ends with Hero's answer to a bet or raise on the river. */
  predicate RiverDecision(facts: HandFacts, actions: History, hero: string, f: Focal)
    requires f.heroIndex < |actions| && f.facingIndex < |actions|
  {
    var facing, answer := actions[f.facingIndex], actions[f.heroIndex];
    && f.street == River && facts.board == 5 && facts.heroCards == 2
    && f.heroIndex == |actions| - 1 && (f.response == Call || f.response == Fold)
    && facing.street == River && facing.actor == f.selectorActor && Aggressive(facing)
    && answer.actor == hero && answer.kind == f.response
  }

  /** The checks before the eligibility rule. */
  predicate BoundaryGuards(facts: HandFacts, actions: History, hero: string, f: Focal, c: Conditions,
                           digest: History -> string)
    requires f.heroIndex < |actions| && f.facingIndex < |actions|
  {
    CashHand(facts) && RiverDecision(facts, actions, hero, f) && MadeFor(c, facts, actions, f, digest)
  }

  method ValidateRiverBoundary(facts: HandFacts, players: seq<Player>, actions: History, hero: string, f: Focal,
                               c: Conditions, digest: History -> string)
    returns (fault: Option<BoundaryFault>)
    requires f.heroIndex < |actions| && f.facingIndex < |actions|
    ensures fault.None? <==>
      && BoundaryGuards(facts, actions, hero, f, c, digest)
      && Active(players, actions[..f.facingIndex + 1]) == {hero, c.target}
    ensures fault == Some(NotHeadsUp) <==>
      && BoundaryGuards(facts, actions, hero, f, c, digest)
      && Active(players, actions[..f.facingIndex + 1]) != {hero, c.target}
    ensures fault == Some(UnsupportedHand) <==> !CashHand(facts)
    ensures fault == Some(WrongTarget) <==>
      CashHand(facts) && RiverDecision(facts, actions, hero, f) && !MadeFor(c, facts, actions, f, digest)
  {
    if facts.gameType != "NLHE" || facts.format != "cash" || facts.ante != 0 || facts.rake !in {None, Some(0)}
       || facts.tournament {
      return Some(UnsupportedHand);
    }
    if f.street != River || facts.board != 5 || facts.heroCards != 2 { return Some(NotRiver); }
    if f.heroIndex != |actions| - 1 || f.response !in {Call, Fold} { return Some(NotFinalResponse); }
    var facing, answer := actions[f.facingIndex], actions[f.heroIndex];
    if facing.street != River || facing.actor != f.selectorActor || !(facing.kind == Bet || facing.kind == Raise)
       || answer.actor != hero || answer.kind != f.response {
      return Some(FocalMismatch);
    }
    if c.target != facing.actor || c.street != "river" || c.format != "cash" || c.gameType != "NLHE"
       || c.tableSize != facts.tableSize || c.asOf != f.facingIndex + 1 || c.prefix != digest(actions[..c.asOf]) {
      return Some(WrongTarget);
    }
    var eligible := EligiblePlayers(players, actions, c.asOf);
    EligibleIsActive(players, actions, c.asOf, eligible);
    var required := {hero, c.target};
    if eligible != required { return Some(NotHeadsUp); }
    return None;
  }

  lemma {:induction false} EligibleIsActive(players: seq<Player>, actions: History, n: nat, eligible: set<string>)
    requires n <= |actions|
    requires forall p :: p in eligible <==>
      p in Ids(players) && forall k :: 0 <= k < n ==> actions[k].kind == Fold ==> actions[k].actor != p
    ensures eligible == Active(players, actions[..n])
  {
    var h := actions[..n];
    forall p
      ensures p in Folded(h) <==> exists k :: 0 <= k < n && actions[k].kind == Fold && actions[k].actor == p
    {
      if p in Folded(h) {
        var k :| 0 <= k < |h| && h[k].kind == Fold && h[k].actor == p;
        assert actions[k].kind == Fold && actions[k].actor == p;
      }
      if k :| 0 <= k < n && actions[k].kind == Fold && actions[k].actor == p {
        assert h[k].kind == Fold && h[k].actor == p;
      }
    }
  }

  lemma {:induction false} PairOf(s: set<string>, a: string, b: string)
    requires |s| == 2 && a in s && b in s && a != b
    ensures s == {a, b}
  {
    SubsetCardinality(s - {a, b}, s);
    assert |s - {a, b}| == |s| - |{a, b}|;
  }

  /** In an accepted hand whose last action answers the focal bet or raise, the answer is a fold and
      the players left when it was made are exactly Hero and the bettor. */
  lemma {:induction false} FocalDecisionIsHeadsUp(players: seq<Player>, actions: History, hero: string, f: Focal)
    requires DistinctPlayers(players) && LegalHand(players, actions)
    requires FocalBound(actions, hero, f) && f.heroIndex == |actions| - 1
    ensures f.response == Fold
    ensures Active(players, actions[..f.facingIndex + 1]) == {hero, f.selectorActor}
  {
    hide Seated, LegalNext, Active, LegalHand, BlindsPosted, ToActOn;
    LegalHandIsLegal(players, actions);
    CompleteHandFoldsToOne(players, actions);
    LegalAt(players, actions, f.heroIndex);
    FacingIsPlayed(players, actions, f.facingIndex);
    LegalAt(players, actions, f.facingIndex);
    assert actions[..f.heroIndex] == actions[..f.facingIndex] + [actions[f.facingIndex]];
    ActiveExtend(players, actions[..f.facingIndex], actions[f.facingIndex]);
    PairOf(Active(players, actions[..f.heroIndex]), hero, f.selectorActor);
  }

  lemma {:induction false} FacingIsPlayed(players: seq<Player>, actions: History, k: nat)
    requires LegalUpTo(players, actions, |actions|) && k < |actions| && Aggressive(actions[k])
    ensures k >= 2
  {
  }

  /** So on parser output the boundary check never refuses for eligibility; it accepts exactly when
      the hand is a river cash hand ending with the response, and the range was made for the bettor there. */
  lemma {:induction false} EligibilityNeverRefuses(facts: HandFacts, players: seq<Player>, actions: History, hero: string,
                                        f: Focal, c: Conditions, digest: History -> string)
    requires DistinctPlayers(players) && LegalHand(players, actions) && FocalBound(actions, hero, f)
    ensures BoundaryGuards(facts, actions, hero, f, c, digest) <==>
      && CashHand(facts) && f.street == River && facts.board == 5 && facts.heroCards == 2
      && f.heroIndex == |actions| - 1 && MadeFor(c, facts, actions, f, digest)
    ensures BoundaryGuards(facts, actions, hero, f, c, digest) ==>
      Active(players, actions[..f.facingIndex + 1]) == {hero, c.target}
  {
    hide LegalHand, Active;
    if BoundaryGuards(facts, actions, hero, f, c, digest) {
      FocalDecisionIsHeadsUp(players, actions, hero, f);
    }
  }

  // ------------------------------------------------------------------ the hypotheses can be met

  const RIVER_TABLE := [Player("Hero", SB), Player("Villain", BB)]
  const RIVER_HAND := [
    Action("Hero", PostBlind, Preflop), Action("Villain", PostBlind, Preflop),
    Action("Hero", Call, Preflop), Action("Villain", Check, Preflop),
    Action("Villain", Check, Flop), Action("Hero", Check, Flop),
    Action("Villain", Check, Turn), Action("Hero", Check, Turn),
    Action("Villain", Bet, River), Action("Hero", Fold, River)]
  const RIVER_FOCAL := Focal(River, "Villain", 8, 9, Fold)

  lemma {:induction false} RiverTableSeats()
    ensures Seated(RIVER_TABLE) && DistinctPlayers(RIVER_TABLE) && Ids(RIVER_TABLE) == {"Hero", "Villain"}
    ensures Seats(RIVER_TABLE) == map[SB := "Hero", BB := "Villain"] && "Hero" != "Villain"
  {
    var players := RIVER_TABLE;
    assert players[..1] == [players[0]] && players[..1][..0] == [];
    assert Seats(players[..1]) == map[SB := "Hero"];
    assert players[0].id == "Hero" && players[1].id == "Villain";
    assert "Hero"[0] != "Villain"[0];
  }

  lemma {:induction false} RiverTableOrder(street: Street)
    ensures Only(StreetOrder(RIVER_TABLE, street), Ids(RIVER_TABLE)) ==
      if street == Preflop then ["Hero", "Villain"] else ["Villain", "Hero"]
  {
    RiverTableSeats();
    var seats := map[SB := "Hero", BB := "Villain"];
    assert [BB][1..] == [] && [SB][1..] == [] && [BB, SB][1..] == [SB];
    assert [SB, BB][1..] == [BB] && [BTN, SB, BB][1..] == [SB, BB];
    assert [CO, BTN, SB, BB][1..] == [BTN, SB, BB] && [HJ, CO, BTN, SB, BB][1..] == [CO, BTN, SB, BB];
    assert PREFLOP_ORDER[1..] == [HJ, CO, BTN, SB, BB];
    assert Occupants([BB], seats) == ["Villain"] && Occupants([SB], seats) == ["Hero"];
    assert Occupants([SB, BB], seats) == ["Hero", "Villain"] && Occupants([BB, SB], seats) == ["Villain", "Hero"];
    assert Occupants([BTN, SB, BB], seats) == ["Hero", "Villain"];
    assert Occupants([CO, BTN, SB, BB], seats) == ["Hero", "Villain"];
    assert Occupants([HJ, CO, BTN, SB, BB], seats) == ["Hero", "Villain"];
    OnlyIdentity(StreetOrder(RIVER_TABLE, street), Ids(RIVER_TABLE));
  }

  /** The hand is legal so far, nobody has folded, and these players still have to act. */
  ghost predicate Reached(n: nat, queue: seq<string>, street: Street) {
    && 2 <= n <= |RIVER_HAND| && LegalUpTo(RIVER_TABLE, RIVER_HAND, n)
    && Active(RIVER_TABLE, RIVER_HAND[..n]) == Ids(RIVER_TABLE)
    && ToAct(RIVER_TABLE, RIVER_HAND[..n]) == queue && CurrentStreet(RIVER_HAND[..n]) == street
  }

  lemma {:induction false} ActionIsLegal(n: nat, queue: seq<string>, street: Street)
    requires n < |RIVER_HAND| && Reached(n, queue, street)
    requires var x := RIVER_HAND[n];
             if x.street == street then queue != [] && queue[0] == x.actor
             else queue == [] && n > 2 && x.street.Rank() == street.Rank() + 1 && x.actor == "Villain"
    ensures LegalNext(RIVER_TABLE, RIVER_HAND[..n], RIVER_HAND[n])
    ensures ToActOn(RIVER_TABLE, RIVER_HAND[..n], RIVER_HAND[n].street) ==
      if RIVER_HAND[n].street == street then queue else ["Villain", "Hero"]
  {
    hide Seated, Active, ToAct, ToActOn, LegalNext, StreetOrder, Only, BlindsPosted;
    RiverTableSeats();
    RiverTableOrder(RIVER_HAND[n].street);
    LegalNextRules(RIVER_TABLE, RIVER_HAND[..n], RIVER_HAND[n]);
    QueueOn(RIVER_TABLE, RIVER_HAND[..n], RIVER_HAND[n].street);
    IdsCount(RIVER_TABLE);
  }

  lemma {:induction false} AfterPassive(n: nat, queue: seq<string>, street: Street)
    requires n < 8 && Reached(n, queue, street)
    requires var x := RIVER_HAND[n];
             if x.street == street then queue != [] && queue[0] == x.actor
             else queue == [] && n > 2 && x.street.Rank() == street.Rank() + 1 && x.actor == "Villain"
    ensures Reached(n + 1, if RIVER_HAND[n].street == street then queue[1..] else ["Hero"], RIVER_HAND[n].street)
  {
    hide Seated, Active, ToAct, ToActOn, LegalNext, StreetOrder, Only, BlindsPosted;
    var h, x := RIVER_HAND[..n], RIVER_HAND[n];
    RiverTableSeats();
    ActionIsLegal(n, queue, street);
    assert RIVER_HAND[..n + 1] == h + [x];
    ActiveExtend(RIVER_TABLE, h, x);
    IdsCount(RIVER_TABLE);
    QueueAfterPassive(RIVER_TABLE, h, x);
    StreetAfter(h, x);
  }

  lemma {:induction false} RiverIsReached()
    ensures Reached(8, [], Turn)
  {
    hide Seated, Active, ToAct, LegalNext, StreetOrder, Only;
    RiverTableSeats();
    RiverTableOrder(Preflop);
    OpeningQueue(RIVER_TABLE, RIVER_HAND);
    assert Reached(2, ["Hero", "Villain"], Preflop);
    hide Reached;
    AfterPassive(2, ["Hero", "Villain"], Preflop);
    assert ["Hero", "Villain"][1..] == ["Villain"] && ["Villain"][1..] == [] && ["Hero"][1..] == [];
    AfterPassive(3, ["Villain"], Preflop);
    AfterPassive(4, [], Preflop);
    AfterPassive(5, ["Hero"], Flop);
    AfterPassive(6, [], Flop);
    AfterPassive(7, ["Hero"], Turn);
  }

  /** Hero's fold to a bet on the river ends an accepted hand that the boundary admits. */
  lemma {:induction false} RiverHandIsAdmitted(digest: History -> string)
    ensures DistinctPlayers(RIVER_TABLE) && LegalHand(RIVER_TABLE, RIVER_HAND)
    ensures FocalBound(RIVER_HAND, "Hero", RIVER_FOCAL)
    ensures var c := Conditions("Villain", "river", "cash", "NLHE", 2, 9, digest(RIVER_HAND[..9]));
            BoundaryGuards(HandFacts("NLHE", "cash", 0, None, false, 5, 2, 2), RIVER_HAND, "Hero", RIVER_FOCAL, c, digest)
  {
    hide Seated, Active, ToAct, ToActOn, LegalNext, StreetOrder, Only;
    var players, h := RIVER_TABLE, RIVER_HAND[..9];
    RiverTableSeats();
    RiverTableOrder(River);
    RiverIsReached();
    ActionIsLegal(8, [], Turn);
    QueueAfterAggression(players, RIVER_HAND[..8], RIVER_HAND[8]);
    assert OthersFrom(["Villain", "Hero"], "Villain") == ["Hero"];
    ActiveExtend(players, RIVER_HAND[..8], RIVER_HAND[8]);
    assert h == RIVER_HAND[..8] + [RIVER_HAND[8]];
    assert Reached(9, ["Hero"], River);
    ActionIsLegal(9, ["Hero"], River);
    ActiveExtend(players, h, RIVER_HAND[9]);
    assert h + [RIVER_HAND[9]] == RIVER_HAND;
    assert Active(players, RIVER_HAND) == {"Villain"};
  }
}
