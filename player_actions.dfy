/** The reducer arms that act for one player without loops: moving, resolving
    a threat with cards, claiming a legacy and handing a card over. Each arm
    either accepts the action, or rejects it by returning the state unchanged
    or by only appending a message. Its contract says which of the two
    happens, and when the action is accepted, what the new state is. */
module PlayerActions {
  import opened Prelude
  import opened Constants
  import opened GameTypes

  /** The players' list keeps its length and changes at most at index `i`. */
  predicate OnlyPlayerChanged(before: seq<Player>, after: seq<Player>, i: nat)
  {
    |after| == |before| && forall j :: 0 <= j < |before| && j != i ==> after[j] == before[j]
  }

  /** All the cards held by the players, counted with repetition. */
  function HeldCards(players: seq<Player>): multiset<Card>
    decreases |players|
  {
    if players == [] then multiset{} else multiset(players[0].hand) + HeldCards(players[1..])
  }

  /** Replacing one player's hand changes the held cards by exactly that hand's difference. */
  lemma {:induction false} HeldCardsUpdate(players: seq<Player>, i: nat, p: Player)
    requires i < |players|
    ensures HeldCards(players[i := p]) + multiset(players[i].hand) == HeldCards(players) + multiset(p.hand)
    decreases |players|
  {
    var updated := players[i := p];
    assert updated != [];
    if i > 0 {
      assert updated[0] == players[0];
      assert updated[1..] == players[1..][i - 1 := p];
      HeldCardsUpdate(players[1..], i - 1, p);
      assert players[1..][i - 1] == players[i];
      calc {
        HeldCards(updated) + multiset(players[i].hand);
        multiset(players[0].hand) + HeldCards(players[1..][i - 1 := p]) + multiset(players[i].hand);
        multiset(players[0].hand) + (HeldCards(players[1..][i - 1 := p]) + multiset(players[1..][i - 1].hand));
        multiset(players[0].hand) + (HeldCards(players[1..]) + multiset(p.hand));
        HeldCards(players) + multiset(p.hand);
      }
    } else {
      assert updated[0] == p;
      assert updated[1..] == players[1..];
    }
  }

  // ---------------------------------------------------------------------------
  // MOVE_PLAYER

  /** A move is carried out: the player exists, the destination is listed as
      a neighbour of the player's city and an action point is left. */
  predicate MoveAccepted(s: GameState, playerId: string, destination: CityName)
  {
    match FindPlayer(s.players, playerId)
    case None => false
    case Some(i) =>
      destination in Adjacency(s.players[i].currentCity) && s.players[i].actionsRemaining >= 1
  }

  /** MOVE_PLAYER. The adjacency check comes before the action-point check, so
      an illegal destination is reported even for a player with no points left. */
  function Move(s: GameState, playerId: string, destination: CityName): (r: GameState)
    ensures r == s.(players := r.players, messages := r.messages)
    ensures !MoveAccepted(s, playerId, destination) ==> r.players == s.players
    ensures MoveAccepted(s, playerId, destination) ==>
      var i := FindPlayer(s.players, playerId).value;
      var p := s.players[i];
      && OnlyPlayerChanged(s.players, r.players, i)
      && r.players[i].currentCity == destination
      && r.players[i].currentCity in Adjacency(p.currentCity)
      && r.players[i].lastCity == Some(p.currentCity)
      && r.players[i].actionsRemaining == p.actionsRemaining - 1
      && r.players[i].hand == p.hand
      && r.players[i] == p.(currentCity := r.players[i].currentCity,
                            lastCity := r.players[i].lastCity,
                            actionsRemaining := r.players[i].actionsRemaining)
      && r.messages == s.messages + [Moved(p.name, destination)]
    ensures match FindPlayer(s.players, playerId)
      case None => r.messages == s.messages
      case Some(i) =>
        if destination !in Adjacency(s.players[i].currentCity)
        then r.messages == s.messages + [MoveRejected(destination, s.players[i].currentCity)]
        else s.players[i].actionsRemaining < 1 ==> r == s
  {
    match FindPlayer(s.players, playerId)
    case None => s
    case Some(i) =>
      var p := s.players[i];
      if destination !in Adjacency(p.currentCity) then
        s.(messages := s.messages + [MoveRejected(destination, p.currentCity)])
      else if p.actionsRemaining < 1 then s
      else
        s.(players := s.players[i := p.(currentCity := destination,
                                        lastCity := Some(p.currentCity),
                                        actionsRemaining := p.actionsRemaining - 1)],
           messages := s.messages + [Moved(p.name, destination)])
  }

  /** Stepping to a neighbour and straight back returns the player to where
      they were, at the cost of two action points, with the neighbour as the
      last city. */
  lemma MoveThereAndBack(s: GameState, i: nat, b: CityName)
    requires i < |s.players| && DistinctPlayerIds(s.players)
    requires b in Adjacency(s.players[i].currentCity)
    requires s.players[i].currentCity in Adjacency(b)
    requires s.players[i].actionsRemaining >= 2
    ensures var p := s.players[i];
            var r := Move(Move(s, p.id, b), p.id, p.currentCity);
            && r.players == s.players[i := p.(lastCity := Some(b), actionsRemaining := p.actionsRemaining - 2)]
            && r.cities == s.cities
  {
    var p := s.players[i];
    FindPlayerById(s.players, i);
    var s1 := Move(s, p.id, b);
    assert s1.players[i].id == p.id;
    assert DistinctPlayerIds(s1.players) by {
      forall j, k | 0 <= j < k < |s1.players| ensures s1.players[j].id != s1.players[k].id {
        assert s1.players[j].id == s.players[j].id && s1.players[k].id == s.players[k].id;
      }
    }
    FindPlayerById(s1.players, i);
  }

  // ---------------------------------------------------------------------------
  // RESOLVE_THREAT

  function IdIn(ids: seq<string>): Card -> bool
  {
    (c: Card) => c.id in ids
  }

  function HasSubType(t: SubType): Card -> bool
  {
    (c: Card) => c.subType == Some(t)
  }

  /** The named threat exists. */
  predicate ThreatAt(s: GameState, city: CityName, threatIndex: int)
  {
    city in s.cities && 0 <= threatIndex < |s.cities[city].threats|
  }

  /** The arm reads the active player only once the threat is found. */
  predicate ResolveDefined(s: GameState, city: CityName, threatIndex: int)
  {
    ThreatAt(s, city, threatIndex) ==> ValidActive(s)
  }

  /** The cards of `hand` selected by `cardIds` that have the sub-type `t`. */
  function PayingCards(hand: seq<Card>, cardIds: seq<string>, t: SubType): seq<Card>
  {
    Filter(Filter(hand, IdIn(cardIds)), HasSubType(t))
  }

  /** A threat is resolved: it exists, the active player stands in its city and
      the selected cards include enough of the sub-type that counters it. */
  predicate ResolveAccepted(s: GameState, city: CityName, threatIndex: int, cardIds: seq<string>)
  {
    && ThreatAt(s, city, threatIndex)
    && ValidActive(s)
    && ActivePlayer(s).currentCity == city
    && var d := ThreatDetails(s.cities[city].threats[threatIndex]);
       |PayingCards(ActivePlayer(s).hand, cardIds, d.counter)| >= d.amount
  }

  /** RESOLVE_THREAT. Every selected card in the hand is spent, whatever its
      sub-type, and the action point is taken without checking one is left. */
  function ResolveThreat(s: GameState, city: CityName, threatIndex: int, cardIds: seq<string>): (r: GameState)
    requires ResolveDefined(s, city, threatIndex)
    ensures r == s.(cities := r.cities, players := r.players, actionDiscard := r.actionDiscard, messages := r.messages)
    ensures !ResolveAccepted(s, city, threatIndex, cardIds) ==> r == s.(messages := r.messages)
    ensures ResolveAccepted(s, city, threatIndex, cardIds) ==> r == Resolved(s, city, threatIndex, cardIds)
    ensures ThreatAt(s, city, threatIndex) && !ResolveAccepted(s, city, threatIndex, cardIds)
            && ActivePlayer(s).currentCity == city ==>
      r.messages == s.messages + [NotEnoughCards(ThreatDetails(s.cities[city].threats[threatIndex]).counter)]
    ensures (!ThreatAt(s, city, threatIndex) || ActivePlayer(s).currentCity != city) ==> r == s
  {
    if !ThreatAt(s, city, threatIndex) then s
    else
      var target := s.cities[city];
      var threat := target.threats[threatIndex];
      var d := ThreatDetails(threat);
      var p := ActivePlayer(s);
      if p.currentCity != city then s
      else
        var cardsToPlay := Filter(p.hand, IdIn(cardIds));
        var validCards := Filter(cardsToPlay, HasSubType(d.counter));
        if |validCards| < d.amount then
          s.(messages := s.messages + [NotEnoughCards(d.counter)])
        else
          Resolved(s, city, threatIndex, cardIds)
  }

  /** The state after a threat is resolved: the threat is spliced out of its
      city, the selected cards go from the hand to the discard pile. */
  function Resolved(s: GameState, city: CityName, threatIndex: int, cardIds: seq<string>): GameState
    requires ThreatAt(s, city, threatIndex) && ValidActive(s)
  {
    var target := s.cities[city];
    var p := ActivePlayer(s);
    s.(cities := s.cities[city := target.(threats := RemoveAt(target.threats, threatIndex))],
       players := s.players[s.activePlayerIndex := p.(hand := Filter(p.hand, Not(IdIn(cardIds))),
                                                      actionsRemaining := p.actionsRemaining - 1)],
       actionDiscard := s.actionDiscard + Filter(p.hand, IdIn(cardIds)),
       messages := s.messages + [ThreatResolved(p.name, target.threats[threatIndex], city)])
  }

  /** A resolved threat, and only it, leaves the board: the city keeps its other
      threats, every other city is untouched. */
  lemma ResolveRemovesThreat(s: GameState, city: CityName, threatIndex: int, cardIds: seq<string>)
    requires ThreatAt(s, city, threatIndex) && ValidActive(s)
    ensures var r := Resolved(s, city, threatIndex, cardIds);
            var threat := s.cities[city].threats[threatIndex];
            && r.cities.Keys == s.cities.Keys
            && (forall c :: c in s.cities && c != city ==> r.cities[c] == s.cities[c])
            && r.cities[city] == s.cities[city].(threats := r.cities[city].threats)
            && multiset(r.cities[city].threats) + multiset{threat} == multiset(s.cities[city].threats)
  {
  }

  /** Resolving a threat lowers the number of threats on the board by one. */
  lemma ResolveLowersTotal(s: GameState, city: CityName, threatIndex: int, cardIds: seq<string>)
    requires ThreatAt(s, city, threatIndex) && ValidActive(s)
    ensures TotalThreats(Resolved(s, city, threatIndex, cardIds).cities) + 1 == TotalThreats(s.cities)
  {
    var target := s.cities[city];
    TotalThreatsUpdate(s.cities, city, target.(threats := RemoveAt(target.threats, threatIndex)));
  }

  /** The selected cards move from the active player's hand to the end of the
      discard pile, none of the selected ids stays in the hand, and the player
      pays one action point. */
  lemma ResolveSpendsSelectedCards(s: GameState, city: CityName, threatIndex: int, cardIds: seq<string>)
    requires ThreatAt(s, city, threatIndex) && ValidActive(s)
    ensures var r := Resolved(s, city, threatIndex, cardIds);
            var a := s.activePlayerIndex;
            var p := s.players[a];
            && OnlyPlayerChanged(s.players, r.players, a)
            && r.players[a] == p.(hand := r.players[a].hand, actionsRemaining := p.actionsRemaining - 1)
            && (forall k :: 0 <= k < |r.players[a].hand| ==> r.players[a].hand[k].id !in cardIds)
            && r.actionDiscard == s.actionDiscard + Filter(p.hand, IdIn(cardIds))
  {
    var p := ActivePlayer(s);
    var newHand := Filter(p.hand, Not(IdIn(cardIds)));
    assert forall k :: 0 <= k < |newHand| ==> Not(IdIn(cardIds))(newHand[k]);
  }

  /** Resolving neither loses nor creates cards: the active player's hand and
      the discard pile hold together what they held before. */
  lemma ResolveConservesCards(s: GameState, city: CityName, threatIndex: int, cardIds: seq<string>)
    requires ThreatAt(s, city, threatIndex) && ValidActive(s)
    ensures var r := Resolved(s, city, threatIndex, cardIds);
            var a := s.activePlayerIndex;
            multiset(r.players[a].hand) + multiset(r.actionDiscard) == multiset(s.players[a].hand) + multiset(s.actionDiscard)
  {
    FilterPartition(ActivePlayer(s).hand, IdIn(cardIds));
  }

  // ---------------------------------------------------------------------------
  // CLAIM_LEGACY

  /** CLAIM_LEGACY. The claim is recorded unconditionally (the caller checks the
      location and the five cards); the fourth legacy wins the game, whatever
      the status was. The active player pays one action point, unchecked. */
  function ClaimLegacy(s: GameState, legacy: Legacy): (r: GameState)
    requires ValidActive(s)
    ensures r == s.(players := r.players, legaciesCollected := r.legaciesCollected,
                    gameStatus := r.gameStatus, messages := r.messages)
    ensures forall l :: r.legaciesCollected.Has(l) <==> l == legacy || s.legaciesCollected.Has(l)
    ensures r.gameStatus == Won <==> r.legaciesCollected.All() || s.gameStatus == Won
    ensures !r.legaciesCollected.All() ==> r.gameStatus == s.gameStatus
    ensures OnlyPlayerChanged(s.players, r.players, s.activePlayerIndex)
    ensures r.players[s.activePlayerIndex] ==
      ActivePlayer(s).(actionsRemaining := ActivePlayer(s).actionsRemaining - 1)
    ensures r.messages == s.messages + [if r.legaciesCollected.All() then Victory else LegacyClaimed(legacy)]
  {
    var collected := s.legaciesCollected.With(legacy);
    var p := ActivePlayer(s);
    s.(players := s.players[s.activePlayerIndex := p.(actionsRemaining := p.actionsRemaining - 1)],
       legaciesCollected := collected,
       gameStatus := if collected.All() then Won else s.gameStatus,
       messages := s.messages + [if collected.All() then Victory else LegacyClaimed(legacy)])
  }

  /** Claiming a run of legacies collects exactly those (plus any held before). */
  function ClaimAll(s: GameState, legacies: seq<Legacy>): (r: GameState)
    requires ValidActive(s)
    ensures ValidActive(r) && |r.players| == |s.players| && r.activePlayerIndex == s.activePlayerIndex
    ensures r.cities == s.cities
    decreases |legacies|
  {
    if legacies == [] then s else ClaimAll(ClaimLegacy(s, legacies[0]), legacies[1..])
  }

  /** Claiming every legacy once, in any order, wins the game, and after the
      claims each legacy is held. */
  lemma ClaimingAllLegaciesWins(s: GameState, legacies: seq<Legacy>)
    requires ValidActive(s)
    requires forall l: Legacy :: l in legacies
    ensures ClaimAll(s, legacies).legaciesCollected.All()
    ensures ClaimAll(s, legacies).gameStatus == Won
  {
    ClaimsCollect(s, legacies);
    var c := ClaimAll(s, legacies).legaciesCollected;
    assert Sword in legacies && Seal in legacies && Bow in legacies && Chalice in legacies;
    assert c.Has(Sword) && c.Has(Seal) && c.Has(Bow) && c.Has(Chalice);
  }

  /** A run of claims collects exactly the claimed legacies on top of those
      already held; the status becomes won once all four are held and is
      otherwise left alone. */
  lemma {:induction false} ClaimsCollect(s: GameState, legacies: seq<Legacy>)
    requires ValidActive(s)
    ensures forall l :: ClaimAll(s, legacies).legaciesCollected.Has(l) <==>
      l in legacies || s.legaciesCollected.Has(l)
    ensures legacies != [] && ClaimAll(s, legacies).legaciesCollected.All() ==>
      ClaimAll(s, legacies).gameStatus == Won
    ensures !ClaimAll(s, legacies).legaciesCollected.All() ==> ClaimAll(s, legacies).gameStatus == s.gameStatus
    decreases |legacies|
  {
    if legacies != [] {
      var s1 := ClaimLegacy(s, legacies[0]);
      ClaimsCollect(s1, legacies[1..]);
      assert legacies == [legacies[0]] + legacies[1..];
      var r := ClaimAll(s1, legacies[1..]);
      assert r == ClaimAll(s, legacies);
      if !r.legaciesCollected.All() {
        assert !s1.legaciesCollected.All() by {
          if s1.legaciesCollected.All() {
            assert r.legaciesCollected.Has(Sword) && r.legaciesCollected.Has(Seal);
            assert r.legaciesCollected.Has(Bow) && r.legaciesCollected.Has(Chalice);
          }
        }
      }
    }
  }

  // ---------------------------------------------------------------------------
  // GIVE_CARD

  /** A hand-over is carried out: both players exist, the giver has a point
      left, stands in the receiver's city or is Réka, and holds the card. */
  predicate GiveAccepted(s: GameState, playerId: string, targetPlayerId: string, cardId: string)
  {
    match (FindPlayer(s.players, playerId), FindPlayer(s.players, targetPlayerId))
    case (Some(g), Some(t)) =>
      var giver := s.players[g];
      && giver.actionsRemaining >= 1
      && (giver.role == Reka || giver.currentCity == s.players[t].currentCity)
      && FindCard(giver.hand, cardId).Some?
    case _ => false
  }

  /** The one logged rejection: a giver with a point left, who is not Réka,
      stands in another city than the receiver. */
  predicate GiveMisplaced(s: GameState, playerId: string, targetPlayerId: string)
  {
    match (FindPlayer(s.players, playerId), FindPlayer(s.players, targetPlayerId))
    case (Some(g), Some(t)) =>
      var giver := s.players[g];
      giver.actionsRemaining >= 1 && giver.role != Reka && giver.currentCity != s.players[t].currentCity
    case _ => false
  }

  /** GIVE_CARD. The receiver's entry is written after the giver's, so a
      player giving a card to themself keeps it, gains a copy and pays nothing. */
  function GiveCard(s: GameState, playerId: string, targetPlayerId: string, cardId: string): (r: GameState)
    ensures r == s.(players := r.players, messages := r.messages)
    ensures !GiveAccepted(s, playerId, targetPlayerId, cardId) ==> r.players == s.players
    ensures GiveAccepted(s, playerId, targetPlayerId, cardId) ==>
      var g := FindPlayer(s.players, playerId).value;
      var k := FindCard(s.players[g].hand, cardId).value;
      && s.players[g].hand[k].id == cardId
      && r == Given(s, g, FindPlayer(s.players, targetPlayerId).value, k)
    ensures GiveMisplaced(s, playerId, targetPlayerId) ==> r == s.(messages := s.messages + [GiveRejected])
    ensures !GiveAccepted(s, playerId, targetPlayerId, cardId) && !GiveMisplaced(s, playerId, targetPlayerId) ==> r == s
    ensures FindPlayer(s.players, playerId).None? || FindPlayer(s.players, targetPlayerId).None? ==> r == s
    ensures FindPlayer(s.players, playerId).Some? && s.players[FindPlayer(s.players, playerId).value].actionsRemaining < 1 ==> r == s
  {
    match (FindPlayer(s.players, playerId), FindPlayer(s.players, targetPlayerId))
    case (Some(g), Some(t)) =>
      var giver := s.players[g];
      if giver.actionsRemaining < 1 then s
      else if giver.role != Reka && giver.currentCity != s.players[t].currentCity then
        s.(messages := s.messages + [GiveRejected])
      else
        (match FindCard(giver.hand, cardId)
         case None => s
         case Some(k) => Given(s, g, t, k))
    case _ => s
  }

  /** The state after player `g` hands the card at position `k` to player `t`:
      the giver's entry is written first, then the receiver's. */
  function Given(s: GameState, g: nat, t: nat, k: nat): GameState
    requires g < |s.players| && t < |s.players| && k < |s.players[g].hand|
  {
    var giver := s.players[g];
    var receiver := s.players[t];
    var card := giver.hand[k];
    var afterGiver := s.players[g := giver.(hand := RemoveAt(giver.hand, k),
                                           actionsRemaining := giver.actionsRemaining - 1)];
    s.(players := afterGiver[t := receiver.(hand := receiver.hand + [card])],
       messages := s.messages + [CardGiven(giver.name, card.name, receiver.name)])
  }

  /** A hand-over between two different players moves the card from the
      giver's hand to the end of the receiver's, costs the giver one point
      and leaves every other player alone. */
  lemma GiveMovesCard(s: GameState, g: nat, t: nat, k: nat)
    requires g < |s.players| && t < |s.players| && k < |s.players[g].hand| && g != t
    ensures var r := Given(s, g, t, k);
            var card := s.players[g].hand[k];
            && |r.players| == |s.players|
            && (forall j :: 0 <= j < |s.players| && j != g && j != t ==> r.players[j] == s.players[j])
            && r.players[t] == s.players[t].(hand := s.players[t].hand + [card])
            && r.players[g] == s.players[g].(hand := r.players[g].hand,
                                             actionsRemaining := s.players[g].actionsRemaining - 1)
            && multiset(r.players[g].hand) + multiset{card} == multiset(s.players[g].hand)
  {
  }

  /** A hand-over between two different players neither loses nor creates cards. */
  lemma GiveConservesCards(s: GameState, g: nat, t: nat, k: nat)
    requires g < |s.players| && t < |s.players| && k < |s.players[g].hand| && g != t
    ensures HeldCards(Given(s, g, t, k).players) == HeldCards(s.players)
  {
    var giver := s.players[g];
    var receiver := s.players[t];
    var afterGiver := s.players[g := giver.(hand := RemoveAt(giver.hand, k),
                                           actionsRemaining := giver.actionsRemaining - 1)];
    var card := giver.hand[k];
    var final := afterGiver[t := receiver.(hand := receiver.hand + [card])];
    assert final == Given(s, g, t, k).players;
    HeldCardsUpdate(s.players, g, afterGiver[g]);
    HeldCardsUpdate(afterGiver, t, final[t]);
    assert afterGiver[t] == receiver;
    assert multiset(receiver.hand + [card]) == multiset(receiver.hand) + multiset{card};
    assert HeldCards(final) + multiset(receiver.hand) == (HeldCards(afterGiver) + multiset{card}) + multiset(receiver.hand);
    MultisetCancel(HeldCards(final), HeldCards(afterGiver) + multiset{card}, multiset(receiver.hand));
    assert multiset(giver.hand) == multiset(afterGiver[g].hand) + multiset{card};
    assert (HeldCards(afterGiver) + multiset{card}) + multiset(afterGiver[g].hand) == HeldCards(s.players) + multiset(afterGiver[g].hand);
    MultisetCancel(HeldCards(afterGiver) + multiset{card}, HeldCards(s.players), multiset(afterGiver[g].hand));
  }

  /** A player who names themself as the receiver keeps the card, gains a second
      copy of it and keeps their action point: the cards held grow by one. */
  lemma SelfGiveDuplicatesCard(s: GameState, i: nat, cardId: string)
    requires i < |s.players| && DistinctPlayerIds(s.players)
    requires GiveAccepted(s, s.players[i].id, s.players[i].id, cardId)
    ensures var r := GiveCard(s, s.players[i].id, s.players[i].id, cardId);
            var card := s.players[i].hand[FindCard(s.players[i].hand, cardId).value];
            && r.players == s.players[i := s.players[i].(hand := s.players[i].hand + [card])]
            && HeldCards(r.players) == HeldCards(s.players) + multiset{card}
  {
    FindPlayerById(s.players, i);
    var p := s.players[i];
    var k := FindCard(p.hand, cardId).value;
    var card := p.hand[k];
    var players := s.players[i := p.(hand := p.hand + [card])];
    assert GiveCard(s, p.id, p.id, cardId) == Given(s, i, i, k);
    assert Given(s, i, i, k).players == players;
    HeldCardsUpdate(s.players, i, players[i]);
    assert multiset(p.hand + [card]) == multiset(p.hand) + multiset{card};
    assert HeldCards(players) + multiset(p.hand) == (HeldCards(s.players) + multiset{card}) + multiset(p.hand);
    MultisetCancel(HeldCards(players), HeldCards(s.players) + multiset{card}, multiset(p.hand));
  }
}
