/** END_TURN: the active player draws, the threat deck strikes, the festival
    and the loss rule are checked, the round's passive reduction runs after
    the last player, and the turn passes on. Each stage that the engine runs
    as a loop is a method proved equal to a function; the stages compose
    into `EndTurnSpec`, which the `EndTurn` method computes. */
module EndTurn {
  import opened Prelude
  import opened Constants
  import opened GameTypes
  import opened PlayerActions
  import opened PlayCard

  /** The random source of one reducer call: `rng(k, bound)` is the `k`-th
      call of `Math.random()` scaled by `bound` and rounded down. */
  type Rng = (nat, nat) -> nat

  /** `Math.floor(Math.random() * bound)` for the call at `cursor`; the source
      can only answer below `bound`, so a larger answer is read as the largest pick. */
  function Pick(rng: Rng, cursor: nat, bound: nat): (r: nat)
    requires bound > 0
    ensures r < bound
  {
    var x := rng(cursor, bound);
    if x < bound then x else bound - 1
  }

  function IsStorm(c: Card): bool
  {
    c.cardType == StormCard
  }

  // ---------------------------------------------------------------------------
  // 1. The active player draws two action cards.

  /** The engine reads the active player and, later, `players[0]`. */
  predicate EndTurnDefined(s: GameState)
  {
    ValidActive(s) && CitiesComplete(s.cities)
  }

  /** The first two cards of the action deck leave it; storms raise the storm
      count and every other drawn card joins the active player's hand, whose
      actions are reset to four. */
  function DrawActionCards(s: GameState): (r: GameState)
    requires ValidActive(s)
    ensures r == s.(players := r.players, actionDeck := r.actionDeck, stormCount := r.stormCount)
    ensures OnlyPlayerChanged(s.players, r.players, s.activePlayerIndex)
  {
    var drawn := Take(s.actionDeck, 2);
    var p := ActivePlayer(s);
    s.(actionDeck := Drop(s.actionDeck, 2),
       stormCount := s.stormCount + |Filter(drawn, IsStorm)|,
       players := s.players[s.activePlayerIndex := p.(hand := p.hand + Filter(drawn, Not(IsStorm)),
                                                      actionsRemaining := 4,
                                                      specialAbilityUsed := false)])
  }

  /** The draw moves cards and loses none: what the hand gains plus the storms
      drawn is exactly what left the deck. */
  lemma DrawConservesCards(s: GameState)
    requires ValidActive(s)
    ensures var r := DrawActionCards(s);
            var a := s.activePlayerIndex;
            var storms := Filter(Take(s.actionDeck, 2), IsStorm);
            && r.players[a].hand[..|s.players[a].hand|] == s.players[a].hand
            && (forall k :: |s.players[a].hand| <= k < |r.players[a].hand| ==> !IsStorm(r.players[a].hand[k]))
            && multiset(r.players[a].hand) + multiset(storms) + multiset(r.actionDeck)
               == multiset(s.players[a].hand) + multiset(s.actionDeck)
            && r.stormCount == s.stormCount + |storms|
            && r.actionDeck == Drop(s.actionDeck, 2)
            && r.players[a].actionsRemaining == 4 && !r.players[a].specialAbilityUsed
  {
    var drawn := Take(s.actionDeck, 2);
    var kept := Filter(drawn, Not(IsStorm));
    var a := s.activePlayerIndex;
    var hand := s.players[a].hand;
    assert forall k :: 0 <= k < |kept| ==> Not(IsStorm)(kept[k]);
    assert (hand + kept)[..|hand|] == hand;
    FilterPartition(drawn, IsStorm);
    TakeDrop(s.actionDeck, 2);
    assert multiset(s.actionDeck) == multiset(drawn) + multiset(Drop(s.actionDeck, 2));
  }

  // ---------------------------------------------------------------------------
  // 2. The threat deck strikes.

  /** How many threat cards are drawn: one, plus one per four storms. */
  function ThreatDrawCount(stormCount: nat): (r: nat)
    ensures r >= 1
    ensures (r - 1) * 4 <= stormCount < r * 4
  {
    1 + stormCount / 4
  }

  /** What the threat cards act on: the board, the log, the outbreak counter
      and how many random numbers have been used. */
  datatype Strike = Strike(cities: map<CityName, City>, messages: seq<Message>, outbreaks: nat, cursor: nat)

  /** `city.threats.push(t)`. */
  function Push(cities: map<CityName, City>, c: CityName, t: ThreatType): (r: map<CityName, City>)
    requires c in cities
    ensures r.Keys == cities.Keys
    ensures r[c] == cities[c].(threats := cities[c].threats + [t])
    ensures forall d :: d in cities && d != c ==> r[d] == cities[d]
  {
    cities[c := cities[c].(threats := cities[c].threats + [t])]
  }

  /** The crisis loops: `count` times a random city of `names` receives `t`,
      unless `spareLost` is set and the city is lost. */
  function Scatter(cities: map<CityName, City>, names: seq<CityName>, rng: Rng, cursor: nat,
                   count: nat, t: ThreatType, spareLost: bool): (r: (map<CityName, City>, nat))
    requires |names| > 0 && forall i :: 0 <= i < |names| ==> names[i] in cities
    ensures r.0.Keys == cities.Keys
    ensures r.1 == cursor + count
    decreases count
  {
    if count == 0 then (cities, cursor)
    else Scatter(Hit(cities, names, rng, cursor, t, spareLost), names, rng, cursor + 1, count - 1, t, spareLost)
  }

  /** One pass of the crisis loop: the city picked at `cursor` receives `t`,
      unless `spareLost` is set and it is lost. */
  function Hit(cities: map<CityName, City>, names: seq<CityName>, rng: Rng, cursor: nat,
               t: ThreatType, spareLost: bool): (r: map<CityName, City>)
    requires |names| > 0 && forall i :: 0 <= i < |names| ==> names[i] in cities
    ensures r.Keys == cities.Keys
  {
    var c := names[Pick(rng, cursor, |names|)];
    if spareLost && cities[c].isLost then cities else Push(cities, c, t)
  }

  /** The crisis loop as the engine runs it, pushing into the picked cities in place. */
  method ScatterThreats(cities: map<CityName, City>, names: seq<CityName>, rng: Rng, cursor: nat,
                        count: nat, t: ThreatType, spareLost: bool) returns (r: map<CityName, City>, next: nat)
    requires |names| > 0 && forall i :: 0 <= i < |names| ==> names[i] in cities
    ensures (r, next) == Scatter(cities, names, rng, cursor, count, t, spareLost)
  {
    r, next := cities, cursor;
    for i := 0 to count
      invariant r.Keys == cities.Keys && next == cursor + i
      invariant Scatter(r, names, rng, next, count - i, t, spareLost) == Scatter(cities, names, rng, cursor, count, t, spareLost)
    {
      ghost var hit := Hit(r, names, rng, next, t, spareLost);
      var rnd := names[Pick(rng, next, |names|)];
      if !(spareLost && r[rnd].isLost) {
        r := Push(r, rnd, t);
      }
      assert r == hit;
      next := next + 1;
    }
  }

  /** Each pick adds one threat to the board, or none when a lost city is spared. */
  lemma {:induction false} ScatterTotal(cities: map<CityName, City>, names: seq<CityName>, rng: Rng, cursor: nat,
                                        count: nat, t: ThreatType, spareLost: bool)
    requires |names| > 0 && forall i :: 0 <= i < |names| ==> names[i] in cities
    ensures var r := Scatter(cities, names, rng, cursor, count, t, spareLost).0;
            && TotalThreats(cities) <= TotalThreats(r) <= TotalThreats(cities) + count
            && (!spareLost ==> TotalThreats(r) == TotalThreats(cities) + count)
    decreases count
  {
    if count > 0 {
      var c := names[Pick(rng, cursor, |names|)];
      var next := Hit(cities, names, rng, cursor, t, spareLost);
      if !(spareLost && cities[c].isLost) {
        TotalThreatsUpdate(cities, c, next[c]);
      }
      ScatterTotal(next, names, rng, cursor + 1, count - 1, t, spareLost);
    }
  }

  /** Scattering only ever adds `t`: every other threat keeps its count in every city. */
  lemma {:induction false} ScatterAddsOnly(cities: map<CityName, City>, names: seq<CityName>, rng: Rng, cursor: nat,
                                           count: nat, t: ThreatType, spareLost: bool, c: CityName, u: ThreatType)
    requires |names| > 0 && forall i :: 0 <= i < |names| ==> names[i] in cities
    requires c in cities && u != t
    ensures multiset(Scatter(cities, names, rng, cursor, count, t, spareLost).0[c].threats)[u]
         == multiset(cities[c].threats)[u]
    decreases count
  {
    if count > 0 {
      var next := Hit(cities, names, rng, cursor, t, spareLost);
      HitAddsOnly(cities, names, rng, cursor, t, spareLost, c, u);
      ScatterAddsOnly(next, names, rng, cursor + 1, count - 1, t, spareLost, c, u);
      assert Scatter(cities, names, rng, cursor, count, t, spareLost)
          == Scatter(next, names, rng, cursor + 1, count - 1, t, spareLost);
    }
  }

  /** One pass of the crisis loop adds only `t`. */
  lemma HitAddsOnly(cities: map<CityName, City>, names: seq<CityName>, rng: Rng, cursor: nat,
                    t: ThreatType, spareLost: bool, c: CityName, u: ThreatType)
    requires |names| > 0 && forall i :: 0 <= i < |names| ==> names[i] in cities
    requires c in cities && u != t
    ensures multiset(Hit(cities, names, rng, cursor, t, spareLost)[c].threats)[u] == multiset(cities[c].threats)[u]
  {
    var d := names[Pick(rng, cursor, |names|)];
    if !(spareLost && cities[d].isLost) {
      PushAddsOnly(cities, d, t, c, u);
    }
  }

  /** Pushing `t` leaves the count of every other threat alone. */
  lemma PushAddsOnly(cities: map<CityName, City>, d: CityName, t: ThreatType, c: CityName, u: ThreatType)
    requires d in cities && c in cities && u != t
    ensures multiset(Push(cities, d, t)[c].threats)[u] == multiset(cities[c].threats)[u]
  {
    if c == d {
      assert multiset(cities[c].threats + [t]) == multiset(cities[c].threats) + multiset{t};
    }
  }

  /** One threat card, in the order the engine checks: a crisis is logged and
      played out; a card naming a city and a threat places it unless the city
      is lost, and an outbreak is counted when the city then holds three or
      more threats. Any other card does nothing. */
  function StrikeCard(b: Strike, card: Card, rng: Rng): (r: Strike)
    requires CitiesComplete(b.cities)
    ensures r.cities.Keys == b.cities.Keys
    ensures r.outbreaks >= b.outbreaks
    ensures b.messages <= r.messages
  {
    if card.cardType == CrisisCard then
      var logged := b.(messages := b.messages + [CrisisDrawn(card.name)]);
      if card.crisisType == Some(BirodalomFelbomlasa) then Collapse(logged, rng)
      else if card.crisisType == Some(NagyEhinseg) then Famine(logged, rng)
      else logged
    else if card.targetCity.Some? && card.threatType.Some? then
      Place(b, card.targetCity.value, card.threatType.value)
    else b
  }

  /** Birodalom felbomlása: three to five random cities receive unrest, lost ones spared. */
  function Collapse(b: Strike, rng: Rng): (r: Strike)
    requires CitiesComplete(b.cities)
    ensures r.cities.Keys == b.cities.Keys
    ensures r == b.(cities := r.cities, cursor := r.cursor)
  {
    AllCityKeys(b.cities);
    var count := 3 + Pick(rng, b.cursor, 3);
    var scattered := Scatter(b.cities, CityKeys(b.cities), rng, b.cursor + 1, count, Belviszaly, true);
    b.(cities := scattered.0, cursor := scattered.1)
  }

  /** Nagy éhínség: two random cities receive a bad harvest, lost or not. */
  function Famine(b: Strike, rng: Rng): (r: Strike)
    requires CitiesComplete(b.cities)
    ensures r.cities.Keys == b.cities.Keys
    ensures r == b.(cities := r.cities, cursor := r.cursor)
  {
    AllCityKeys(b.cities);
    var scattered := Scatter(b.cities, CityKeys(b.cities), rng, b.cursor, 2, RosszTermes, false);
    b.(cities := scattered.0, cursor := scattered.1)
  }

  /** A threat card's placement on its city. */
  function Place(b: Strike, c: CityName, t: ThreatType): (r: Strike)
    requires c in b.cities
    ensures r.cities.Keys == b.cities.Keys
    ensures r.outbreaks >= b.outbreaks
    ensures b.messages <= r.messages
  {
    var city := b.cities[c];
    if city.isLost then b
    else
      var cities := Push(b.cities, c, t);
      var logged := b.messages + [NewThreat(t, city.name)];
      if |cities[c].threats| >= 3
      then b.(cities := cities, messages := logged + [Uprising(city.name)], outbreaks := b.outbreaks + 1)
      else b.(cities := cities, messages := logged)
  }

  /** On a complete board the keys are nonempty and all present. */
  lemma AllCityKeys(cities: map<CityName, City>)
    requires CitiesComplete(cities)
    ensures |CityKeys(cities)| > 0
    ensures forall i :: 0 <= i < |CityKeys(cities)| ==> CityKeys(cities)[i] in cities
  {
    CityKeysPresent(cities);
    CityKeysComplete(cities, Etil);
  }

  /** A threat lands on its city exactly when the city is not lost; an outbreak
      is counted exactly when the city then holds three or more; no other
      city changes. */
  lemma PlaceEffect(b: Strike, c: CityName, t: ThreatType)
    requires c in b.cities
    ensures var r := Place(b, c, t);
            && (b.cities[c].isLost ==> r == b)
            && (!b.cities[c].isLost ==>
                  && r.cities[c].threats == b.cities[c].threats + [t]
                  && (forall d :: d in b.cities && d != c ==> r.cities[d] == b.cities[d])
                  && (r.outbreaks == b.outbreaks + 1 <==> |b.cities[c].threats| >= 2)
                  && (r.outbreaks == b.outbreaks <==> |b.cities[c].threats| < 2))
            && TotalThreats(r.cities) == TotalThreats(b.cities) + (if b.cities[c].isLost then 0 else 1)
  {
    if !b.cities[c].isLost {
      var cities := Push(b.cities, c, t);
      TotalThreatsUpdate(b.cities, c, cities[c]);
    }
  }

  /** Nagy éhínség adds exactly two threats to the board, both of them bad harvests. */
  lemma FamineAddsTwo(b: Strike, card: Card, rng: Rng, c: CityName, u: ThreatType)
    requires CitiesComplete(b.cities)
    requires card.cardType == CrisisCard && card.crisisType == Some(NagyEhinseg)
    requires u != RosszTermes
    ensures var r := StrikeCard(b, card, rng);
            && TotalThreats(r.cities) == TotalThreats(b.cities) + 2
            && multiset(r.cities[c].threats)[u] == multiset(b.cities[c].threats)[u]
            && r.outbreaks == b.outbreaks
  {
    var logged := b.(messages := b.messages + [CrisisDrawn(card.name)]);
    FamineEffect(logged, rng, c, u);
    assert StrikeCard(b, card, rng) == Famine(logged, rng);
  }

  /** The famine adds two bad harvests, and nothing else. */
  lemma FamineEffect(b: Strike, rng: Rng, c: CityName, u: ThreatType)
    requires CitiesComplete(b.cities) && u != RosszTermes
    ensures var r := Famine(b, rng);
            && TotalThreats(r.cities) == TotalThreats(b.cities) + 2
            && multiset(r.cities[c].threats)[u] == multiset(b.cities[c].threats)[u]
  {
    AllCityKeys(b.cities);
    var names := CityKeys(b.cities);
    ScatterTotal(b.cities, names, rng, b.cursor, 2, RosszTermes, false);
    ScatterAddsOnly(b.cities, names, rng, b.cursor, 2, RosszTermes, false, c, u);
  }

  /** Birodalom felbomlása adds between none and five threats, all of them unrest. */
  lemma CollapseAddsUnrest(b: Strike, card: Card, rng: Rng, c: CityName, u: ThreatType)
    requires CitiesComplete(b.cities)
    requires card.cardType == CrisisCard && card.crisisType == Some(BirodalomFelbomlasa)
    requires u != Belviszaly
    ensures var r := StrikeCard(b, card, rng);
            && TotalThreats(b.cities) <= TotalThreats(r.cities) <= TotalThreats(b.cities) + 5
            && multiset(r.cities[c].threats)[u] == multiset(b.cities[c].threats)[u]
            && r.outbreaks == b.outbreaks
  {
    var logged := b.(messages := b.messages + [CrisisDrawn(card.name)]);
    CollapseEffect(logged, rng, c, u);
    assert StrikeCard(b, card, rng) == Collapse(logged, rng);
  }

  /** The collapse adds three to five unrest threats at most, and nothing else. */
  lemma CollapseEffect(b: Strike, rng: Rng, c: CityName, u: ThreatType)
    requires CitiesComplete(b.cities) && u != Belviszaly
    ensures var r := Collapse(b, rng);
            && TotalThreats(b.cities) <= TotalThreats(r.cities) <= TotalThreats(b.cities) + 5
            && multiset(r.cities[c].threats)[u] == multiset(b.cities[c].threats)[u]
  {
    AllCityKeys(b.cities);
    var names := CityKeys(b.cities);
    var k := Pick(rng, b.cursor, 3);
    var scattered := Scatter(b.cities, names, rng, b.cursor + 1, 3 + k, Belviszaly, true).0;
    assert Collapse(b, rng).cities == scattered;
    ScatterTotal(b.cities, names, rng, b.cursor + 1, 3 + k, Belviszaly, true);
    assert TotalThreats(scattered) <= TotalThreats(b.cities) + 3 + k;
    ScatterAddsOnly(b.cities, names, rng, b.cursor + 1, 3 + k, Belviszaly, true, c, u);
  }

  /** The drawn threat cards, one after another. */
  function StrikeAll(b: Strike, cards: seq<Card>, rng: Rng): (r: Strike)
    requires CitiesComplete(b.cities)
    ensures r.cities.Keys == b.cities.Keys
    ensures r.outbreaks >= b.outbreaks
    ensures b.messages <= r.messages
    decreases |cards|
  {
    if cards == [] then b else StrikeAll(StrikeCard(b, cards[0], rng), cards[1..], rng)
  }

  /** The engine's `forEach` over the drawn threat cards. */
  method StrikeCards(b: Strike, cards: seq<Card>, rng: Rng) returns (r: Strike)
    requires CitiesComplete(b.cities)
    ensures r == StrikeAll(b, cards, rng)
  {
    r := b;
    for i := 0 to |cards|
      invariant r.cities.Keys == b.cities.Keys
      invariant StrikeAll(r, cards[i..], rng) == StrikeAll(b, cards, rng)
    {
      assert cards[i..][1..] == cards[i + 1..];
      r := StrikeOne(r, cards[i], rng);
    }
  }

  /** One threat card as the engine runs it. */
  method StrikeOne(b: Strike, card: Card, rng: Rng) returns (r: Strike)
    requires CitiesComplete(b.cities)
    ensures r == StrikeCard(b, card, rng)
  {
    if card.cardType == CrisisCard {
      var logged := b.(messages := b.messages + [CrisisDrawn(card.name)]);
      var names := CityKeys(b.cities);
      AllCityKeys(b.cities);
      if card.crisisType == Some(BirodalomFelbomlasa) {
        var count := 3 + Pick(rng, b.cursor, 3);
        var cities, cursor := ScatterThreats(b.cities, names, rng, b.cursor + 1, count, Belviszaly, true);
        r := logged.(cities := cities, cursor := cursor);
      } else if card.crisisType == Some(NagyEhinseg) {
        var cities, cursor := ScatterThreats(b.cities, names, rng, b.cursor, 2, RosszTermes, false);
        r := logged.(cities := cities, cursor := cursor);
      } else {
        r := logged;
      }
    } else if card.targetCity.Some? && card.threatType.Some? {
      r := Place(b, card.targetCity.value, card.threatType.value);
    } else {
      r := b;
    }
  }

  /** Draws the threat cards and lets them strike. The drawn cards leave the
      threat deck and go nowhere: they are not put on the threat discard. */
  function DrawThreats(s: GameState, rng: Rng): (r: GameState)
    requires CitiesComplete(s.cities)
    ensures r == s.(threatDeck := r.threatDeck, cities := r.cities, messages := r.messages, outbreakCount := r.outbreakCount)
    ensures r.threatDeck == Drop(s.threatDeck, ThreatDrawCount(s.stormCount))
    ensures r.cities.Keys == s.cities.Keys
    ensures r.outbreakCount >= s.outbreakCount
    ensures s.messages <= r.messages
  {
    var k := ThreatDrawCount(s.stormCount);
    var b := StrikeAll(Strike(s.cities, s.messages, s.outbreakCount, 0), Take(s.threatDeck, k), rng);
    s.(threatDeck := Drop(s.threatDeck, k), cities := b.cities, messages := b.messages, outbreakCount := b.outbreaks)
  }

  // ---------------------------------------------------------------------------
  // 3. Nimród's festival.

  /** Every player stands in the first player's city. */
  predicate AllTogether(players: seq<Player>)
    requires |players| > 0
  {
    forall i :: 0 <= i < |players| ==> players[i].currentCity == players[0].currentCity
  }

  /** Every player gains one action. */
  function BonusAction(players: seq<Player>): (r: seq<Player>)
    ensures |r| == |players|
    ensures forall i :: 0 <= i < |players| ==>
      r[i] == players[i].(actionsRemaining := players[i].actionsRemaining + 1)
  {
    seq(|players|, i requires 0 <= i < |players| => players[i].(actionsRemaining := players[i].actionsRemaining + 1))
  }

  /** The festival's `forEach`, raising each player's actions in place. */
  method GrantBonusAction(players: seq<Player>) returns (r: seq<Player>)
    ensures r == BonusAction(players)
  {
    r := players;
    for i := 0 to |r|
      invariant |r| == |players|
      invariant forall j :: 0 <= j < i ==> r[j] == players[j].(actionsRemaining := players[j].actionsRemaining + 1)
      invariant forall j :: i <= j < |r| ==> r[j] == players[j]
    {
      r := r[i := r[i].(actionsRemaining := r[i].actionsRemaining + 1)];
    }
  }

  /** When every player shares a city, each gains an action and the festival is logged. */
  function NimrodFestival(s: GameState): (r: GameState)
    requires |s.players| > 0
    ensures r == s.(players := r.players, messages := r.messages)
    ensures |r.players| == |s.players|
  {
    if AllTogether(s.players) then s.(players := BonusAction(s.players), messages := s.messages + [Festival])
    else s
  }

  // ---------------------------------------------------------------------------
  // 4. The loss rule.

  /** A board holding the ceiling's worth of threats loses the game, whatever its status was. */
  function LossCheck(s: GameState): (r: GameState)
    ensures r == s.(gameStatus := r.gameStatus, messages := r.messages)
    ensures r.gameStatus == if TotalThreats(s.cities) >= MaxThreatsOnBoard then Lost else s.gameStatus
    ensures r.messages == s.messages + (if TotalThreats(s.cities) >= MaxThreatsOnBoard then [EmpireCollapsed] else [])
  {
    if TotalThreats(s.cities) >= MaxThreatsOnBoard
    then s.(gameStatus := Lost, messages := s.messages + [EmpireCollapsed])
    else s
  }

  // ---------------------------------------------------------------------------
  // 5. The end-of-round reduction.

  /** The cities some player stands in. */
  function Occupied(players: seq<Player>): set<CityName>
  {
    set i | 0 <= i < |players| :: players[i].currentCity
  }

  function Reducible(cities: map<CityName, City>, occupied: set<CityName>): CityName -> bool
  {
    c => c in occupied && c in cities && |cities[c].threats| > 0
  }

  /** The walk over the board: an occupied city with threats loses its last one;
      the second component counts the cities reduced. */
  function Reduction(cities: map<CityName, City>, keys: seq<CityName>, occupied: set<CityName>): (r: (map<CityName, City>, nat))
    ensures r.0.Keys == cities.Keys
    decreases |keys|
  {
    if keys == [] then (cities, 0)
    else
      var c := keys[0];
      if c in occupied && c in cities && |cities[c].threats| > 0 then
        var rest := Reduction(cities[c := Popped(cities[c])], keys[1..], occupied);
        (rest.0, rest.1 + 1)
      else Reduction(cities, keys[1..], occupied)
  }

  /** The engine's `forEach` over `Object.entries(cities)`, popping in place. */
  method ReduceOccupied(cities: map<CityName, City>, occupied: set<CityName>) returns (r: map<CityName, City>, reduced: nat)
    ensures (r, reduced) == Reduction(cities, CityKeys(cities), occupied)
  {
    var names := CityKeys(cities);
    ghost var goal := Reduction(cities, names, occupied);
    r, reduced := cities, 0;
    for i := 0 to |names|
      invariant Reduction(r, names[i..], occupied).0 == goal.0
      invariant Reduction(r, names[i..], occupied).1 + reduced == goal.1
    {
      ReductionUnfold(r, names[i..], occupied);
      assert names[i..][1..] == names[i + 1..];
      var name := names[i];
      if name in occupied && name in r && |r[name].threats| > 0 {
        r := r[name := Popped(r[name])];
        reduced := reduced + 1;
      }
    }
  }

  /** The walk's first step, split off. */
  lemma ReductionUnfold(cities: map<CityName, City>, keys: seq<CityName>, occupied: set<CityName>)
    requires keys != []
    ensures var c := keys[0];
            Reduction(cities, keys, occupied) ==
              if c in occupied && c in cities && |cities[c].threats| > 0 then
                var rest := Reduction(cities[c := Popped(cities[c])], keys[1..], occupied);
                (rest.0, rest.1 + 1)
              else Reduction(cities, keys[1..], occupied)
  {
  }

  /** In closed form: the walk pops exactly the reducible cities among the keys,
      and counts them. */
  lemma {:induction false} ReductionPops(cities: map<CityName, City>, keys: seq<CityName>, occupied: set<CityName>)
    requires Distinct(keys)
    ensures Reduction(cities, keys, occupied).0 == PopEach(cities, Filter(keys, Reducible(cities, occupied)))
    ensures Reduction(cities, keys, occupied).1 == |Filter(keys, Reducible(cities, occupied))|
    decreases |keys|
  {
    if keys != [] {
      var c, rest := keys[0], keys[1..];
      var p := Reducible(cities, occupied);
      assert Distinct(rest) && c !in rest;
      assert Filter(keys, p) == (if p(c) then [c] else []) + Filter(rest, p);
      if p(c) {
        ReductionPops(cities[c := Popped(cities[c])], rest, occupied);
        ReductionPopStep(cities, keys, occupied);
      } else {
        assert !(c in occupied && c in cities && |cities[c].threats| > 0);
        assert Reduction(cities, keys, occupied) == Reduction(cities, rest, occupied);
        assert Filter(keys, p) == Filter(rest, p);
        ReductionPops(cities, rest, occupied);
      }
    }
  }

  /** One step of the walk that pops its first city, given the rest of the walk. */
  lemma ReductionPopStep(cities: map<CityName, City>, keys: seq<CityName>, occupied: set<CityName>)
    requires keys != [] && keys[0] !in keys[1..] && Reducible(cities, occupied)(keys[0])
    requires var popped := cities[keys[0] := Popped(cities[keys[0]])];
      && Reduction(popped, keys[1..], occupied).0 == PopEach(popped, Filter(keys[1..], Reducible(popped, occupied)))
      && Reduction(popped, keys[1..], occupied).1 == |Filter(keys[1..], Reducible(popped, occupied))|
    ensures Reduction(cities, keys, occupied).0 == PopEach(cities, Filter(keys, Reducible(cities, occupied)))
    ensures Reduction(cities, keys, occupied).1 == |Filter(keys, Reducible(cities, occupied))|
  {
    var c, rest := keys[0], keys[1..];
    var p := Reducible(cities, occupied);
    var popped := cities[c := Popped(cities[c])];
    FilterAgree(rest, Reducible(popped, occupied), p);
    var ts := Filter(keys, p);
    assert ts == [c] + Filter(rest, p);
    assert ts[0] == c && ts[1..] == Filter(rest, p);
  }

  /** The cities the walk pops are listed once each and each has a threat to lose. */
  lemma ReductionTargetsValid(cities: map<CityName, City>, occupied: set<CityName>)
    ensures var ts := Filter(CityKeys(cities), Reducible(cities, occupied));
            && Distinct(ts)
            && (forall i :: 0 <= i < |ts| ==> HasThreats(cities)(ts[i]))
  {
    var keys := CityKeys(cities);
    var p := Reducible(cities, occupied);
    var ts := Filter(keys, p);
    CityKeysDistinct(cities);
    FilterDistinct(keys, p);
    forall i | 0 <= i < |ts|
      ensures HasThreats(cities)(ts[i])
    {
      assert p(ts[i]);
    }
  }

  /** The cities the walk pops are exactly the reducible ones. */
  lemma ReductionTargetsExact(cities: map<CityName, City>, occupied: set<CityName>, c: CityName)
    ensures c in Filter(CityKeys(cities), Reducible(cities, occupied))
        <==> c in occupied && c in cities && |cities[c].threats| > 0
  {
    var keys := CityKeys(cities);
    FilterMember(keys, Reducible(cities, occupied), c);
    if c in cities {
      CityKeysComplete(cities, c);
    }
  }

  /** The reduction takes exactly the last threat of every occupied city that
      has one and leaves every other city alone. */
  lemma ReductionEffect(cities: map<CityName, City>, occupied: set<CityName>, c: CityName)
    requires c in cities
    ensures var r := Reduction(cities, CityKeys(cities), occupied).0;
            && (c in occupied && |cities[c].threats| > 0 ==> r[c] == Popped(cities[c]))
            && (c !in occupied || |cities[c].threats| == 0 ==> r[c] == cities[c])
  {
    CityKeysDistinct(cities);
    ReductionPops(cities, CityKeys(cities), occupied);
    ReductionTargetsValid(cities, occupied);
    ReductionTargetsExact(cities, occupied, c);
    PopEachAt(cities, Filter(CityKeys(cities), Reducible(cities, occupied)), c);
  }

  /** The board total falls by exactly the number of cities the reduction reports. */
  lemma ReductionLowersTotal(cities: map<CityName, City>, occupied: set<CityName>)
    ensures var r := Reduction(cities, CityKeys(cities), occupied);
            TotalThreats(r.0) + r.1 == TotalThreats(cities)
  {
    CityKeysDistinct(cities);
    ReductionPops(cities, CityKeys(cities), occupied);
    ReductionTargetsValid(cities, occupied);
    PopEachLowersTotal(cities, Filter(CityKeys(cities), Reducible(cities, occupied)));
  }

  /** After the last player of the round, every occupied city loses a threat. */
  function EndOfRound(s: GameState): (r: GameState)
    ensures r == s.(cities := r.cities, messages := r.messages)
    ensures r.cities.Keys == s.cities.Keys
  {
    var reduced := Reduction(s.cities, CityKeys(s.cities), Occupied(s.players));
    s.(cities := reduced.0, messages := s.messages + (if reduced.1 > 0 then [PassiveReduction(reduced.1)] else []))
  }

  // ---------------------------------------------------------------------------
  // 6. The whole arm.

  /** The seat after `a` at a table of `n`. */
  function NextSeat(a: nat, n: nat): nat
  {
    if a + 1 < n then a + 1 else 0
  }

  /** The seat `k` places after `a`. */
  function SeatAfter(a: nat, k: nat, n: nat): nat
    decreases k
  {
    if k == 0 then a else SeatAfter(NextSeat(a, n), k - 1, n)
  }

  /** Stepping seat by seat is adding and wrapping around. */
  lemma {:induction false} SeatAfterWraps(a: nat, k: nat, n: nat)
    requires a < n
    ensures SeatAfter(a, k, n) == (a + k) % n
    decreases k
  {
    if k == 0 {
      ModSmall(a, n);
    } else {
      SeatAfterWraps(NextSeat(a, n), k - 1, n);
      if a + 1 < n {
        assert NextSeat(a, n) + (k - 1) == a + k;
      } else {
        ModShift(k - 1, n);
        assert a + k == k - 1 + n;
      }
    }
  }

  /** The next seat is the one after, modulo the table size. */
  lemma NextSeatWraps(a: nat, n: nat)
    requires a < n
    ensures NextSeat(a, n) == (a + 1) % n
  {
    if a + 1 < n {
      ModSmall(a + 1, n);
    } else {
      ModSmall(0, n);
      ModShift(0, n);
    }
  }

  /** The turn passes to the next player, wrapping around (`(i + 1) % n`, see
      `NextSeatWraps`). */
  function Advance(s: GameState): (r: GameState)
    requires ValidActive(s)
    ensures r == s.(activePlayerIndex := r.activePlayerIndex)
    ensures ValidActive(r)
  {
    s.(activePlayerIndex := NextSeat(s.activePlayerIndex, |s.players|))
  }

  /** The threat-phase state the loss rule looks at. */
  function Struck(s: GameState, rng: Rng): (r: GameState)
    requires EndTurnDefined(s)
    ensures ValidActive(r) && CitiesComplete(r.cities)
  {
    DrawThreats(DrawActionCards(s), rng)
  }

  /** The cities the festival and the loss rule see. */
  lemma FestivalKeepsBoard(s: GameState)
    requires |s.players| > 0
    ensures NimrodFestival(s).cities == s.cities
    ensures forall i :: 0 <= i < |s.players| ==> NimrodFestival(s).players[i].id == s.players[i].id
    ensures forall i :: 0 <= i < |s.players| ==> NimrodFestival(s).players[i].currentCity == s.players[i].currentCity
  {
  }

  /** END_TURN, stage by stage. */
  function EndTurnSpec(s: GameState, rng: Rng): (r: GameState)
    requires EndTurnDefined(s)
    ensures EndTurnDefined(r) && |r.players| == |s.players|
    ensures r.activePlayerIndex == NextSeat(s.activePlayerIndex, |s.players|)
  {
    var checked := LossCheck(NimrodFestival(Struck(s, rng)));
    var rounded := if checked.activePlayerIndex == |checked.players| - 1 then EndOfRound(checked) else checked;
    Advance(rounded)
  }

  /** The first two stages of END_TURN: the active player's draw, then the
      threat cards drawn and played out one by one. */
  method DrawPhase(s: GameState, rng: Rng) returns (r: GameState)
    requires EndTurnDefined(s)
    ensures r == Struck(s, rng)
  {
    r := DrawActionCards(s);
    var k := ThreatDrawCount(r.stormCount);
    var drawnThreats := Take(r.threatDeck, k);
    r := r.(threatDeck := Drop(r.threatDeck, k));
    var b := StrikeCards(Strike(r.cities, r.messages, r.outbreakCount, 0), drawnThreats, rng);
    r := r.(cities := b.cities, messages := b.messages, outbreakCount := b.outbreaks);
  }

  /** END_TURN as the engine runs it, one stage after another. */
  method EndTurn(s: GameState, rng: Rng) returns (r: GameState)
    requires EndTurnDefined(s)
    ensures r == EndTurnSpec(s, rng)
  {
    r := DrawPhase(s, rng);
    ghost var struck := r;
    if AllTogether(r.players) {
      var players := GrantBonusAction(r.players);
      r := r.(players := players, messages := r.messages + [Festival]);
    }
    assert r == NimrodFestival(struck);
    r := LossCheck(r);
    ghost var checked := r;
    if r.activePlayerIndex == |r.players| - 1 {
      var cities, reduced := ReduceOccupied(r.cities, Occupied(r.players));
      r := r.(cities := cities, messages := r.messages + (if reduced > 0 then [PassiveReduction(reduced)] else []));
      assert r == EndOfRound(checked);
    }
    ghost var rounded := r;
    var next := (r.activePlayerIndex + 1) % |r.players|;
    NextSeatWraps(r.activePlayerIndex, |r.players|);
    assert next == NextSeat(rounded.activePlayerIndex, |rounded.players|);
    r := r.(activePlayerIndex := next);
  }

  // ---------------------------------------------------------------------------
  // 7. What a turn guarantees.

  /** A threat card adds at most five threats to the board and never removes one. */
  lemma StrikeCardTotal(b: Strike, card: Card, rng: Rng)
    requires CitiesComplete(b.cities)
    ensures var r := StrikeCard(b, card, rng);
            TotalThreats(b.cities) <= TotalThreats(r.cities) <= TotalThreats(b.cities) + 5
  {
    if card.cardType == CrisisCard {
      var logged := b.(messages := b.messages + [CrisisDrawn(card.name)]);
      if card.crisisType == Some(BirodalomFelbomlasa) {
        CollapseEffect(logged, rng, Etil, RosszTermes);
        assert StrikeCard(b, card, rng) == Collapse(logged, rng);
      } else if card.crisisType == Some(NagyEhinseg) {
        FamineEffect(logged, rng, Etil, Belviszaly);
        assert StrikeCard(b, card, rng) == Famine(logged, rng);
      }
    } else if card.targetCity.Some? && card.threatType.Some? {
      PlaceEffect(b, card.targetCity.value, card.threatType.value);
    }
  }

  /** The threat phase only adds threats, at most five per card drawn. */
  lemma {:induction false} StrikeAllTotal(b: Strike, cards: seq<Card>, rng: Rng)
    requires CitiesComplete(b.cities)
    ensures var r := StrikeAll(b, cards, rng);
            TotalThreats(b.cities) <= TotalThreats(r.cities) <= TotalThreats(b.cities) + 5 * |cards|
    decreases |cards|
  {
    if cards != [] {
      var next := StrikeCard(b, cards[0], rng);
      StrikeCardTotal(b, cards[0], rng);
      StrikeAllTotal(next, cards[1..], rng);
    }
  }

  /** The stages before the reduction: the players keep their ids and places,
      the board keeps its cities, and only the active player's hand and
      actions change before the festival. */
  lemma StruckShape(s: GameState, rng: Rng)
    requires EndTurnDefined(s)
    ensures var r := Struck(s, rng);
            && OnlyPlayerChanged(s.players, r.players, s.activePlayerIndex)
            && r.players[s.activePlayerIndex].id == s.players[s.activePlayerIndex].id
            && r.players[s.activePlayerIndex].currentCity == s.players[s.activePlayerIndex].currentCity
            && r.players[s.activePlayerIndex].actionsRemaining == 4
            && r.activePlayerIndex == s.activePlayerIndex
            && r.cities.Keys == s.cities.Keys
            && r.actionDeck == Drop(s.actionDeck, 2)
            && r.stormCount == s.stormCount + |Filter(Take(s.actionDeck, 2), IsStorm)|
            && r.threatDeck == Drop(s.threatDeck, ThreatDrawCount(r.stormCount))
            && r.outbreakCount >= s.outbreakCount
            && r == s.(players := r.players, actionDeck := r.actionDeck, stormCount := r.stormCount,
                       threatDeck := r.threatDeck, cities := r.cities, messages := r.messages,
                       outbreakCount := r.outbreakCount)
  {
  }

  /** END_TURN passes the turn on, keeps every player (id, role and city) and
      every city, draws two action cards and `ThreatDrawCount` threat cards,
      never lowers the outbreak count and leaves the discards, the legacies,
      the phase and the tutorial alone. */
  lemma EndTurnShape(s: GameState, rng: Rng)
    requires EndTurnDefined(s)
    ensures var r := EndTurnSpec(s, rng);
            && |r.players| == |s.players|
            && r.activePlayerIndex == NextSeat(s.activePlayerIndex, |s.players|)
            && (forall i :: 0 <= i < |s.players| ==>
                  r.players[i].id == s.players[i].id && r.players[i].currentCity == s.players[i].currentCity)
            && r.cities.Keys == s.cities.Keys
            && r.actionDeck == Drop(s.actionDeck, 2)
            && r.stormCount == s.stormCount + |Filter(Take(s.actionDeck, 2), IsStorm)|
            && r.threatDeck == Drop(s.threatDeck, ThreatDrawCount(r.stormCount))
            && r.outbreakCount >= s.outbreakCount
            && r.actionDiscard == s.actionDiscard && r.threatDiscard == s.threatDiscard
            && r.legaciesCollected == s.legaciesCollected && r.turnPhase == s.turnPhase
            && r.tutorialStep == s.tutorialStep
  {
    StruckShape(s, rng);
    FestivalKeepsBoard(Struck(s, rng));
  }

  /** END_TURN keeps a well-formed game well formed. */
  lemma EndTurnWellformed(s: GameState, rng: Rng)
    requires Wellformed(s)
    ensures Wellformed(EndTurnSpec(s, rng))
  {
    EndTurnShape(s, rng);
  }

  /** The game is lost after END_TURN exactly when it was lost before or the
      board, after the threat phase, holds the ceiling's worth of threats. */
  lemma EndTurnLoss(s: GameState, rng: Rng)
    requires EndTurnDefined(s)
    ensures var r := EndTurnSpec(s, rng);
            && (r.gameStatus == Lost <==> s.gameStatus == Lost || TotalThreats(Struck(s, rng).cities) >= MaxThreatsOnBoard)
            && (r.gameStatus != Lost ==> r.gameStatus == s.gameStatus)
  {
    StruckShape(s, rng);
    FestivalKeepsBoard(Struck(s, rng));
  }

  /** The threat phase raises the board total by at most five per card drawn. */
  lemma StruckTotal(s: GameState, rng: Rng)
    requires EndTurnDefined(s)
    ensures var d := DrawActionCards(s);
            TotalThreats(s.cities) <= TotalThreats(Struck(s, rng).cities)
              <= TotalThreats(s.cities) + 5 * |Take(d.threatDeck, ThreatDrawCount(d.stormCount))|
  {
    var d := DrawActionCards(s);
    StrikeAllTotal(Strike(d.cities, d.messages, d.outbreakCount, 0), Take(d.threatDeck, ThreatDrawCount(d.stormCount)), rng);
  }

  /** Threats leave the board only after the last player of the round: then
      each occupied city with a threat loses one, and the board falls by the
      number reported; otherwise the board is the threat phase's. */
  lemma EndTurnReduction(s: GameState, rng: Rng, c: CityName)
    requires EndTurnDefined(s)
    ensures var r := EndTurnSpec(s, rng);
            var t := Struck(s, rng);
            && (s.activePlayerIndex != |s.players| - 1 ==> r.cities == t.cities)
            && (s.activePlayerIndex == |s.players| - 1 ==>
                  && (c in Occupied(s.players) && |t.cities[c].threats| > 0 ==> r.cities[c] == Popped(t.cities[c]))
                  && (c !in Occupied(s.players) || |t.cities[c].threats| == 0 ==> r.cities[c] == t.cities[c])
                  && TotalThreats(r.cities) <= TotalThreats(t.cities))
  {
    var t := Struck(s, rng);
    StruckShape(s, rng);
    FestivalKeepsBoard(t);
    var checked := LossCheck(NimrodFestival(t));
    assert Occupied(checked.players) == Occupied(s.players) by {
      assert forall i :: 0 <= i < |s.players| ==> checked.players[i].currentCity == s.players[i].currentCity;
    }
    ReductionEffect(t.cities, Occupied(s.players), c);
    ReductionLowersTotal(t.cities, Occupied(s.players));
  }

  /** Nimród's festival: when every player stands in one city, each gains an
      action, so the active player starts the next turn of theirs with five;
      otherwise only the active player's actions change, back to four. */
  lemma EndTurnActions(s: GameState, rng: Rng, j: nat)
    requires EndTurnDefined(s) && j < |s.players|
    ensures var r := EndTurnSpec(s, rng);
            var bonus := if AllTogether(s.players) then 1 else 0;
            && (j == s.activePlayerIndex ==> r.players[j].actionsRemaining == 4 + bonus)
            && (j != s.activePlayerIndex ==> r.players[j].actionsRemaining == s.players[j].actionsRemaining + bonus)
  {
    var t := Struck(s, rng);
    StruckShape(s, rng);
    assert AllTogether(t.players) == AllTogether(s.players) by {
      assert forall i :: 0 <= i < |s.players| ==> t.players[i].currentCity == s.players[i].currentCity;
    }
    FestivalKeepsBoard(t);
  }

  /** Several END_TURNs in a row, one random source each. */
  function EndTurns(s: GameState, rngs: seq<Rng>): (r: GameState)
    requires EndTurnDefined(s)
    ensures EndTurnDefined(r) && |r.players| == |s.players|
    decreases |rngs|
  {
    if rngs == [] then s else EndTurns(EndTurnSpec(s, rngs[0]), rngs[1..])
  }

  /** The turn goes round the table: after `k` END_TURNs it is `k` seats on. */
  lemma {:induction false} EndTurnsRotate(s: GameState, rngs: seq<Rng>)
    requires EndTurnDefined(s)
    ensures EndTurns(s, rngs).activePlayerIndex == SeatAfter(s.activePlayerIndex, |rngs|, |s.players|)
    decreases |rngs|
  {
    if rngs != [] {
      EndTurnsRotate(EndTurnSpec(s, rngs[0]), rngs[1..]);
      EndTurnsUnfold(s, rngs);
      SeatAfterUnfold(s, rngs);
    }
  }

  lemma EndTurnsUnfold(s: GameState, rngs: seq<Rng>)
    requires EndTurnDefined(s) && rngs != []
    ensures EndTurns(s, rngs) == EndTurns(EndTurnSpec(s, rngs[0]), rngs[1..])
  {
  }

  lemma SeatAfterUnfold(s: GameState, rngs: seq<Rng>)
    requires EndTurnDefined(s) && rngs != []
    ensures SeatAfter(s.activePlayerIndex, |rngs|, |s.players|)
        == SeatAfter(EndTurnSpec(s, rngs[0]).activePlayerIndex, |rngs[1..]|, |EndTurnSpec(s, rngs[0]).players|)
  {
  }

  /** A full round of END_TURNs gives the turn back to the player who had it. */
  lemma RoundReturnsTurn(s: GameState, rngs: seq<Rng>)
    requires EndTurnDefined(s) && |rngs| == |s.players|
    ensures EndTurns(s, rngs).activePlayerIndex == s.activePlayerIndex
  {
    var a, n := s.activePlayerIndex, |s.players|;
    EndTurnsRotate(s, rngs);
    SeatAfterWraps(a, n, n);
    ModShift(a, n);
    ModSmall(a, n);
  }

  /** END_TURN only appends to the log. */
  lemma EndTurnKeepsLog(s: GameState, rng: Rng)
    requires EndTurnDefined(s)
    ensures s.messages <= EndTurnSpec(s, rng).messages
  {
    var t := Struck(s, rng);
    StruckShape(s, rng);
    var checked := LossCheck(NimrodFestival(t));
    assert s.messages <= t.messages <= NimrodFestival(t).messages <= checked.messages;
    if checked.activePlayerIndex == |checked.players| - 1 {
      assert checked.messages <= EndOfRound(checked).messages;
    }
  }
}
