/** PLAY_CARD: a blessing card leaves the player's hand and takes effect.
    The three blessings with an effect walk over the board or the players
    step by step; each walk is a method proved equal to a function that
    states what it computes, and the functions are characterised by lemmas
    in closed form. */
module PlayCard {
  import opened Prelude
  import opened Constants
  import opened GameTypes
  import opened PlayerActions

  // ---------------------------------------------------------------------------
  // Nimród áldása: pop the last threat of the first two cities that have one.

  /** `threats.pop()` on a city that has a threat. */
  function Popped(city: City): (r: City)
    requires |city.threats| > 0
    ensures city.threats == r.threats + [city.threats[|city.threats| - 1]]
    ensures r == city.(threats := r.threats)
  {
    city.(threats := city.threats[..|city.threats| - 1])
  }

  /** The walk over `keys` after `removed` threats have been taken: a city
      with threats loses its last one until two have been taken. */
  function NimrodRemoval(cities: map<CityName, City>, keys: seq<CityName>, removed: nat): map<CityName, City>
    decreases |keys|
  {
    if keys == [] || removed >= 2 then cities
    else
      var c := keys[0];
      if c in cities && |cities[c].threats| > 0
      then NimrodRemoval(cities[c := Popped(cities[c])], keys[1..], removed + 1)
      else NimrodRemoval(cities, keys[1..], removed)
  }

  /** The blessing's loop over `Object.keys(cities)`, popping in place. */
  method ApplyNimrod(cities: map<CityName, City>) returns (r: map<CityName, City>)
    ensures r == NimrodRemoval(cities, CityKeys(cities), 0)
  {
    var names := CityKeys(cities);
    r := cities;
    var removed := 0;
    for i := 0 to |names|
      invariant NimrodRemoval(r, names[i..], removed) == NimrodRemoval(cities, names, 0)
    {
      if removed >= 2 {
        break;
      }
      assert names[i..][1..] == names[i + 1..];
      var name := names[i];
      if name in r && |r[name].threats| > 0 {
        r := r[name := Popped(r[name])];
        removed := removed + 1;
      }
    }
  }

  function HasThreats(cities: map<CityName, City>): CityName -> bool
  {
    c => c in cities && |cities[c].threats| > 0
  }

  /** Pops the last threat of each listed city in turn, skipping a city without one. */
  function PopEach(cities: map<CityName, City>, targets: seq<CityName>): (r: map<CityName, City>)
    ensures r.Keys == cities.Keys
    decreases |targets|
  {
    if targets == [] then cities
    else
      var t := targets[0];
      PopEach(if HasThreats(cities)(t) then cities[t := Popped(cities[t])] else cities, targets[1..])
  }

  /** The cities the blessing picks: the first `n`, in key order, that have a threat. */
  function NimrodTargets(cities: map<CityName, City>, keys: seq<CityName>, n: nat): (r: seq<CityName>)
    ensures |r| <= n
    ensures forall i :: 0 <= i < |r| ==> HasThreats(cities)(r[i])
  {
    Take(Filter(keys, HasThreats(cities)), n)
  }

  /** Filtering by two predicates that agree on the sequence gives the same result. */
  lemma {:induction false} FilterAgree<T>(s: seq<T>, p: T -> bool, q: T -> bool)
    requires forall i :: 0 <= i < |s| ==> p(s[i]) == q(s[i])
    ensures Filter(s, p) == Filter(s, q)
    decreases |s|
  {
    if s != [] {
      FilterAgree(s[1..], p, q);
    }
  }

  /** The picks among `keys` start with its first city when that city has a threat. */
  lemma NimrodTargetsCons(cities: map<CityName, City>, keys: seq<CityName>, n: nat)
    requires keys != [] && n > 0
    ensures NimrodTargets(cities, keys, n) ==
      if HasThreats(cities)(keys[0]) then [keys[0]] + NimrodTargets(cities, keys[1..], n - 1)
      else NimrodTargets(cities, keys[1..], n)
  {
    var has := HasThreats(cities);
    assert Filter(keys, has) == (if has(keys[0]) then [keys[0]] else []) + Filter(keys[1..], has);
  }

  /** Popping a city that is not among the later keys leaves their picks alone. */
  lemma NimrodTargetsAfterPop(cities: map<CityName, City>, c: CityName, rest: seq<CityName>, n: nat)
    requires HasThreats(cities)(c) && c !in rest
    ensures NimrodTargets(cities[c := Popped(cities[c])], rest, n) == NimrodTargets(cities, rest, n)
  {
    FilterAgree(rest, HasThreats(cities[c := Popped(cities[c])]), HasThreats(cities));
  }

  /** What the walk does, in closed form: it pops exactly the first
      `2 - removed` cities of `keys` that have a threat. */
  lemma {:induction false} NimrodRemovalPops(cities: map<CityName, City>, keys: seq<CityName>, removed: nat)
    requires Distinct(keys) && removed <= 2
    ensures NimrodRemoval(cities, keys, removed) == PopEach(cities, NimrodTargets(cities, keys, 2 - removed))
    decreases |keys|
  {
    if keys == [] || removed >= 2 {
      assert NimrodTargets(cities, keys, 2 - removed) == [];
    } else {
      var c, rest := keys[0], keys[1..];
      assert Distinct(rest) && c !in rest;
      NimrodTargetsCons(cities, keys, 2 - removed);
      if HasThreats(cities)(c) {
        NimrodRemovalPops(cities[c := Popped(cities[c])], rest, removed + 1);
        NimrodPopStep(cities, keys, removed);
      } else {
        NimrodRemovalPops(cities, rest, removed);
      }
    }
  }

  /** One step of the walk that pops its first city, given the rest of the walk. */
  lemma NimrodPopStep(cities: map<CityName, City>, keys: seq<CityName>, removed: nat)
    requires keys != [] && removed < 2 && HasThreats(cities)(keys[0]) && keys[0] !in keys[1..]
    requires var popped := cities[keys[0] := Popped(cities[keys[0]])];
      NimrodRemoval(popped, keys[1..], removed + 1) == PopEach(popped, NimrodTargets(popped, keys[1..], 1 - removed))
    ensures NimrodRemoval(cities, keys, removed) == PopEach(cities, NimrodTargets(cities, keys, 2 - removed))
  {
    var c, rest := keys[0], keys[1..];
    NimrodTargetsCons(cities, keys, 2 - removed);
    NimrodTargetsAfterPop(cities, c, rest, 1 - removed);
    var ts := [c] + NimrodTargets(cities, rest, 1 - removed);
    assert ts[0] == c && ts[1..] == NimrodTargets(cities, rest, 1 - removed);
  }

  /** Popping distinct cities that each have a threat pops each of them once
      and leaves every other city alone. */
  lemma {:induction false} PopEachAt(cities: map<CityName, City>, targets: seq<CityName>, c: CityName)
    requires Distinct(targets) && c in cities
    requires forall i :: 0 <= i < |targets| ==> HasThreats(cities)(targets[i])
    ensures PopEach(cities, targets)[c] == if c in targets then Popped(cities[c]) else cities[c]
    decreases |targets|
  {
    if targets != [] {
      var t, rest := targets[0], targets[1..];
      assert HasThreats(cities)(t);
      var popped := cities[t := Popped(cities[t])];
      assert PopEach(cities, targets) == PopEach(popped, rest);
      forall i | 0 <= i < |rest|
        ensures HasThreats(popped)(rest[i])
      {
        assert rest[i] == targets[i + 1] && rest[i] != t;
        assert HasThreats(cities)(targets[i + 1]);
      }
      assert Distinct(rest);
      PopEachAt(popped, rest, c);
    }
  }

  /** Popping distinct cities that each have a threat lowers the board total by their number. */
  lemma {:induction false} PopEachLowersTotal(cities: map<CityName, City>, targets: seq<CityName>)
    requires Distinct(targets)
    requires forall i :: 0 <= i < |targets| ==> HasThreats(cities)(targets[i])
    ensures TotalThreats(PopEach(cities, targets)) + |targets| == TotalThreats(cities)
    decreases |targets|
  {
    if targets != [] {
      var t, rest := targets[0], targets[1..];
      assert HasThreats(cities)(t);
      var popped := cities[t := Popped(cities[t])];
      assert forall i :: 0 <= i < |rest| ==> rest[i] != t && HasThreats(cities)(targets[i + 1]);
      PopEachLowersTotal(popped, rest);
      TotalThreatsUpdate(cities, t, Popped(cities[t]));
    }
  }

  /** The picked cities are distinct cities that each have a threat. */
  lemma NimrodTargetsDistinct(cities: map<CityName, City>, keys: seq<CityName>, n: nat)
    requires Distinct(keys)
    ensures Distinct(NimrodTargets(cities, keys, n))
  {
    var f := Filter(keys, HasThreats(cities));
    FilterDistinct(keys, HasThreats(cities));
    assert NimrodTargets(cities, keys, n) <= f;
  }

  /** Nimród áldása touches only the cities it picks, at most two, and takes
      exactly the last threat of each: every other city keeps its threats. */
  lemma NimrodPopsLast(cities: map<CityName, City>, c: CityName)
    requires c in cities
    ensures var r := NimrodRemoval(cities, CityKeys(cities), 0);
            var ts := NimrodTargets(cities, CityKeys(cities), 2);
            && r.Keys == cities.Keys
            && |ts| <= 2
            && (c !in ts ==> r[c] == cities[c])
            && (c in ts ==> |cities[c].threats| > 0 && r[c] == Popped(cities[c]))
  {
    var keys := CityKeys(cities);
    CityKeysDistinct(cities);
    NimrodRemovalPops(cities, keys, 0);
    var ts := NimrodTargets(cities, keys, 2);
    NimrodTargetsDistinct(cities, keys, 2);
    PopEachAt(cities, ts, c);
    if c in ts {
      var i :| 0 <= i < |ts| && ts[i] == c;
      assert HasThreats(cities)(ts[i]);
    }
  }

  /** Nimród áldása removes as many threats from the board as it picks cities. */
  lemma NimrodLowersTotal(cities: map<CityName, City>)
    ensures TotalThreats(NimrodRemoval(cities, CityKeys(cities), 0)) + |NimrodTargets(cities, CityKeys(cities), 2)|
         == TotalThreats(cities)
  {
    var keys := CityKeys(cities);
    CityKeysDistinct(cities);
    NimrodRemovalPops(cities, keys, 0);
    NimrodTargetsDistinct(cities, keys, 2);
    PopEachLowersTotal(cities, NimrodTargets(cities, keys, 2));
  }

  /** Filtering keeps two distinct kept elements apart, so at least two remain. */
  lemma FilterKeepsTwo<T>(s: seq<T>, p: T -> bool, i: nat, j: nat)
    requires i < |s| && j < |s| && s[i] != s[j] && p(s[i]) && p(s[j])
    ensures |Filter(s, p)| >= 2
  {
    FilterKeeps(s, p, i);
    FilterKeeps(s, p, j);
    var f := Filter(s, p);
    var a :| 0 <= a < |f| && f[a] == s[i];
    var b :| 0 <= b < |f| && f[b] == s[j];
    assert a != b;
  }

  /** The blessing picks two cities whenever two cities have a threat. */
  lemma NimrodTakesTwoWhenItCan(cities: map<CityName, City>, a: CityName, b: CityName)
    requires a != b && HasThreats(cities)(a) && HasThreats(cities)(b)
    ensures |NimrodTargets(cities, CityKeys(cities), 2)| == 2
  {
    var keys := CityKeys(cities);
    CityKeysComplete(cities, a);
    CityKeysComplete(cities, b);
    var i :| 0 <= i < |keys| && keys[i] == a;
    var j :| 0 <= j < |keys| && keys[j] == b;
    FilterKeepsTwo(keys, HasThreats(cities), i, j);
  }

  // ---------------------------------------------------------------------------
  // Üstengri kegyelme: every player, in order, draws two cards.

  /** Each player in turn takes the first two cards of what is left of the deck. */
  function DealTwo(players: seq<Player>, deck: seq<Card>): (seq<Player>, seq<Card>)
    decreases |players|
  {
    if players == [] then ([], deck)
    else
      var first := players[0].(hand := players[0].hand + Take(deck, 2));
      var rest := DealTwo(players[1..], Drop(deck, 2));
      ([first] + rest.0, rest.1)
  }

  /** The blessing's `players.map`, which slices the deck as it goes. */
  method ApplyUstengri(players: seq<Player>, deck: seq<Card>) returns (dealt: seq<Player>, rest: seq<Card>)
    ensures (dealt, rest) == DealTwo(players, deck)
  {
    dealt := [];
    rest := deck;
    assert players[0..] == players;
    for i := 0 to |players|
      invariant dealt + DealTwo(players[i..], rest).0 == DealTwo(players, deck).0
      invariant DealTwo(players[i..], rest).1 == DealTwo(players, deck).1
    {
      assert players[i..][1..] == players[i + 1..];
      var p := players[i];
      var drawn := Take(rest, 2);
      var next := DealTwo(players[i + 1..], Drop(rest, 2));
      assert DealTwo(players[i..], rest).0 == [p.(hand := p.hand + drawn)] + next.0;
      rest := Drop(rest, 2);
      dealt := dealt + [p.(hand := p.hand + drawn)];
    }
    assert players[|players|..] == [];
    assert dealt + [] == dealt;
  }

  /** Dealing gives every player an entry and takes two cards per player off the deck. */
  lemma {:induction false} DealTwoShape(players: seq<Player>, deck: seq<Card>)
    ensures |DealTwo(players, deck).0| == |players|
    ensures DealTwo(players, deck).1 == Drop(deck, 2 * |players|)
    decreases |players|
  {
    if players != [] {
      DealTwoShape(players[1..], Drop(deck, 2));
      DropDrop(deck, 2, 2 * (|players| - 1));
    }
  }

  /** In closed form: player `i` receives the two cards at positions `2i` and
      `2i + 1` of the deck, fewer once it runs out. */
  lemma {:induction false} DealTwoAt(players: seq<Player>, deck: seq<Card>, i: nat)
    requires i < |players|
    ensures |DealTwo(players, deck).0| == |players|
    ensures DealTwo(players, deck).0[i] == players[i].(hand := players[i].hand + Take(Drop(deck, 2 * i), 2))
    decreases i
  {
    DealTwoShape(players, deck);
    var rest := DealTwo(players[1..], Drop(deck, 2));
    assert DealTwo(players, deck).0 == [players[0].(hand := players[0].hand + Take(deck, 2))] + rest.0;
    if i > 0 {
      DealTwoAt(players[1..], Drop(deck, 2), i - 1);
      DropDrop(deck, 2, 2 * (i - 1));
      assert players[1..][i - 1] == players[i];
      assert DealTwo(players, deck).0[i] == rest.0[i - 1];
    }
  }

  /** Dealing moves cards from the deck into the hands and loses none. */
  lemma {:induction false} DealTwoConservesCards(players: seq<Player>, deck: seq<Card>)
    ensures HeldCards(DealTwo(players, deck).0) + multiset(DealTwo(players, deck).1)
         == HeldCards(players) + multiset(deck)
    decreases |players|
  {
    if players != [] {
      var first := players[0].(hand := players[0].hand + Take(deck, 2));
      var rest := DealTwo(players[1..], Drop(deck, 2));
      DealTwoConservesCards(players[1..], Drop(deck, 2));
      assert ([first] + rest.0)[1..] == rest.0;
      assert multiset(deck) == multiset(Take(deck, 2)) + multiset(Drop(deck, 2)) by {
        TakeDrop(deck, 2);
      }
      calc {
        HeldCards([first] + rest.0) + multiset(rest.1);
        multiset(first.hand) + (HeldCards(rest.0) + multiset(rest.1));
        multiset(players[0].hand) + multiset(Take(deck, 2)) + (HeldCards(players[1..]) + multiset(Drop(deck, 2)));
        HeldCards(players) + multiset(deck);
      }
    }
  }

  // ---------------------------------------------------------------------------
  // Táltos gyógyítás: every epidemic leaves the board.

  function NotEpidemic(t: ThreatType): bool
  {
    t != Jarvany
  }

  /** A city with its epidemics filtered out. */
  function Cure(city: City): (r: City)
    ensures r == city.(threats := r.threats)
  {
    city.(threats := Filter(city.threats, NotEpidemic))
  }

  /** The board after the blessing. */
  function Cured(cities: map<CityName, City>): (r: map<CityName, City>)
    ensures r.Keys == cities.Keys
  {
    map c | c in cities :: Cure(cities[c])
  }

  /** The blessing's `forEach` over the cities, reassigning each city's threats. */
  method ApplyTaltos(cities: map<CityName, City>) returns (r: map<CityName, City>)
    ensures r == Cured(cities)
  {
    var names := CityKeys(cities);
    CityKeysDistinct(cities);
    CityKeysPresent(cities);
    forall c | c in cities
      ensures c in names
    {
      CityKeysComplete(cities, c);
    }
    r := CureEach(cities, names);
  }

  /** Cures the listed cities one by one; listing every city once cures the board. */
  method CureEach(cities: map<CityName, City>, names: seq<CityName>) returns (r: map<CityName, City>)
    requires Distinct(names)
    requires forall i :: 0 <= i < |names| ==> names[i] in cities
    requires forall c :: c in cities ==> c in names
    ensures r == Cured(cities)
  {
    r := cities;
    ghost var done: set<CityName> := {};
    for i := 0 to |names|
      invariant r.Keys == cities.Keys
      invariant forall c :: c in cities ==> r[c] == if c in done then Cure(cities[c]) else cities[c]
      invariant forall j :: 0 <= j < i ==> names[j] in done
      invariant forall j :: i <= j < |names| ==> names[j] !in done
    {
      var name := names[i];
      r := r[name := Cure(r[name])];
      done := done + {name};
    }
  }

  /** After the blessing no city holds an epidemic, every other threat keeps
      its number of copies, and a city without epidemics is unchanged. */
  lemma CuredEffect(cities: map<CityName, City>, c: CityName)
    requires c in cities
    ensures var r := Cured(cities);
            && (forall i :: 0 <= i < |r[c].threats| ==> r[c].threats[i] != Jarvany)
            && (forall t :: t != Jarvany ==> multiset(r[c].threats)[t] == multiset(cities[c].threats)[t])
            && multiset(r[c].threats)[Jarvany] == 0
            && (Jarvany !in cities[c].threats ==> r[c] == cities[c])
  {
    var ts := cities[c].threats;
    var r := Cured(cities);
    assert forall i :: 0 <= i < |r[c].threats| ==> NotEpidemic(r[c].threats[i]);
    forall t
      ensures multiset(r[c].threats)[t] == if t != Jarvany then multiset(ts)[t] else 0
    {
      FilterCount(ts, NotEpidemic, t);
    }
    if Jarvany !in ts {
      FilterAllKept(ts, NotEpidemic);
    }
  }

  /** Curing twice is curing once. */
  lemma CuredIdempotent(cities: map<CityName, City>)
    ensures Cured(Cured(cities)) == Cured(cities)
  {
    forall c | c in cities
      ensures Cured(Cured(cities))[c] == Cured(cities)[c]
    {
      var once := Cured(cities)[c].threats;
      assert forall i :: 0 <= i < |once| ==> NotEpidemic(once[i]);
      FilterAllKept(once, NotEpidemic);
    }
  }

  // ---------------------------------------------------------------------------
  // The arm

  /** The arm dereferences the player before anything else, so the player must exist. */
  predicate PlayDefined(s: GameState, playerId: string)
  {
    FindPlayer(s.players, playerId).Some?
  }

  /** The card is played: the player holds a card with this id and it is a blessing. */
  predicate PlayAccepted(s: GameState, playerId: string, cardId: string)
    requires PlayDefined(s, playerId)
  {
    var i := FindPlayer(s.players, playerId).value;
    match FindCard(s.players[i].hand, cardId)
    case None => false
    case Some(k) => s.players[i].hand[k].cardType == BlessingCard
  }

  /** The state after player `i` plays the blessing `card`: every card with its
      id leaves the hand, the play is logged, then the blessing takes effect. */
  function Blessed(s: GameState, i: nat, card: Card): GameState
    requires i < |s.players|
  {
    var p := s.players[i];
    var base := s.(players := s.players[i := p.(hand := Filter(p.hand, Not(HasCardId(card.id))))],
                   messages := s.messages + [CardPlayed(p.name, card.name)]);
    match card.blessingType
    case Some(NimrodAldasa) => base.(cities := NimrodRemoval(base.cities, CityKeys(base.cities), 0))
    case Some(UstengriKegyelme) =>
      var dealt := DealTwo(base.players, base.actionDeck);
      base.(players := dealt.0, actionDeck := dealt.1)
    case Some(TaltosGyogyitas) => base.(cities := Cured(base.cities))
    case _ => base
  }

  /** PLAY_CARD. Only a blessing card does anything; any other card, or one the
      player does not hold, leaves the state as it was. */
  function PlayCard(s: GameState, playerId: string, cardId: string): (r: GameState)
    requires PlayDefined(s, playerId)
    ensures r == s.(cities := r.cities, players := r.players, actionDeck := r.actionDeck, messages := r.messages)
    ensures !PlayAccepted(s, playerId, cardId) ==> r == s
    ensures PlayAccepted(s, playerId, cardId) ==>
      var i := FindPlayer(s.players, playerId).value;
      var k := FindCard(s.players[i].hand, cardId).value;
      && s.players[i].hand[k].id == cardId
      && r == Blessed(s, i, s.players[i].hand[k])
  {
    var i := FindPlayer(s.players, playerId).value;
    var p := s.players[i];
    match FindCard(p.hand, cardId)
    case None => s
    case Some(k) =>
      if p.hand[k].cardType == BlessingCard then Blessed(s, i, p.hand[k]) else s
  }

  /** The arm as the engine runs it, with the blessings' loops. */
  method ApplyPlayCard(s: GameState, playerId: string, cardId: string) returns (r: GameState)
    requires PlayDefined(s, playerId)
    ensures r == PlayCard(s, playerId, cardId)
  {
    var i := FindPlayer(s.players, playerId).value;
    var p := s.players[i];
    var found := FindCard(p.hand, cardId);
    if found.None? {
      return s;
    }
    var card := p.hand[found.value];
    if card.cardType != BlessingCard {
      return s;
    }
    r := s.(players := s.players[i := p.(hand := Filter(p.hand, Not(HasCardId(cardId))))],
            messages := s.messages + [CardPlayed(p.name, card.name)]);
    if card.blessingType == Some(NimrodAldasa) {
      var cities := ApplyNimrod(r.cities);
      r := r.(cities := cities);
    } else if card.blessingType == Some(UstengriKegyelme) {
      var players, deck := ApplyUstengri(r.players, r.actionDeck);
      r := r.(players := players, actionDeck := deck);
    } else if card.blessingType == Some(TaltosGyogyitas) {
      var cities := ApplyTaltos(r.cities);
      r := r.(cities := cities);
    }
  }

  /** A played blessing leaves the hand: the player keeps exactly the cards with
      another id, and unless the blessing deals cards nothing else changes for
      any player. */
  lemma BlessingLeavesHand(s: GameState, i: nat, card: Card)
    requires i < |s.players| && card.blessingType != Some(UstengriKegyelme)
    ensures var r := Blessed(s, i, card);
            var p := s.players[i];
            && OnlyPlayerChanged(s.players, r.players, i)
            && r.players[i] == p.(hand := r.players[i].hand)
            && (forall k :: 0 <= k < |r.players[i].hand| ==> r.players[i].hand[k].id != card.id)
            && multiset(r.players[i].hand) <= multiset(p.hand)
            && r.actionDeck == s.actionDeck
  {
    var p := s.players[i];
    var hand := Filter(p.hand, Not(HasCardId(card.id)));
    BlessedKeepsOthers(s, i, card);
    assert forall k :: 0 <= k < |hand| ==> Not(HasCardId(card.id))(hand[k]);
    FilterSubMultiset(p.hand, Not(HasCardId(card.id)));
  }

  /** Apart from Üstengri's blessing, only the player's hand and the board change. */
  lemma BlessedKeepsOthers(s: GameState, i: nat, card: Card)
    requires i < |s.players| && card.blessingType != Some(UstengriKegyelme)
    ensures Blessed(s, i, card).players == s.players[i := s.players[i].(hand := Filter(s.players[i].hand, Not(HasCardId(card.id))))]
    ensures Blessed(s, i, card).actionDeck == s.actionDeck
  {
  }

  /** Üstengri's blessing hands every player, the one who played it included,
      the next two cards of the deck in player order. */
  lemma UstengriDeals(s: GameState, i: nat, card: Card)
    requires i < |s.players| && card.blessingType == Some(UstengriKegyelme)
    ensures var r := Blessed(s, i, card);
            var p := s.players[i];
            && |r.players| == |s.players|
            && (forall j :: 0 <= j < |s.players| && j != i ==>
                  r.players[j] == s.players[j].(hand := s.players[j].hand + Take(Drop(s.actionDeck, 2 * j), 2)))
            && r.players[i] == p.(hand := Filter(p.hand, Not(HasCardId(card.id))) + Take(Drop(s.actionDeck, 2 * i), 2))
            && r.actionDeck == Drop(s.actionDeck, 2 * |s.players|)
            && r.cities == s.cities
  {
    var p := s.players[i];
    var players := s.players[i := p.(hand := Filter(p.hand, Not(HasCardId(card.id))))];
    DealTwoShape(players, s.actionDeck);
    forall j | 0 <= j < |s.players|
      ensures DealTwo(players, s.actionDeck).0[j] == players[j].(hand := players[j].hand + Take(Drop(s.actionDeck, 2 * j), 2))
    {
      DealTwoAt(players, s.actionDeck, j);
    }
  }
}
