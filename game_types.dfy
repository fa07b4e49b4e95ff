/** The shapes of the game state: cards, cities, players and the aggregate
    `GameState` every transition produces, with the queries over it that the
    engine and the planner share (finding a player by id, totalling the
    threats on the board). */
module GameTypes {
  import opened Prelude
  import opened Constants

  datatype CardType = ActionCard | ThreatCard | StormCard | BlessingCard | CrisisCard

  /** A card. Exactly one of the optional fields is meant to be set, matching
      `cardType`; the engine reads only the ones it needs. Descriptions are
      display text and are not modelled. */
  datatype Card = Card(
    id: string,
    name: string,
    cardType: CardType,
    subType: Option<SubType>,
    targetCity: Option<CityName>,
    threatType: Option<ThreatType>,
    crisisType: Option<CrisisType>,
    blessingType: Option<BlessingType>)

  /** A city on the board. `threats` is in arrival order; the engine only ever
      appends to it, removes its last element, filters it or splices one index. */
  datatype City = City(
    name: CityName,
    region: Region,
    neighbors: seq<CityName>,
    threats: seq<ThreatType>,
    isLost: bool,
    hasCapital: bool,
    isLegacyLocation: bool)

  /** A player. `actionsRemaining` is an unbounded integer: two actions take a
      point without checking that one is left, so it can go negative. */
  datatype Player = Player(
    id: string,
    name: string,
    role: Role,
    currentCity: CityName,
    lastCity: Option<CityName>,
    hand: seq<Card>,
    actionsRemaining: int,
    specialAbilityUsed: bool)

  /** `legaciesCollected`: one flag per legacy. */
  datatype Legacies = Legacies(sword: bool, seal: bool, bow: bool, chalice: bool)
  {
    predicate Has(l: Legacy)
    {
      match l
      case Sword => sword
      case Seal => seal
      case Bow => bow
      case Chalice => chalice
    }

    function With(l: Legacy): (r: Legacies)
      ensures r.Has(l)
      ensures forall k :: k != l ==> r.Has(k) == Has(k)
    {
      match l
      case Sword => this.(sword := true)
      case Seal => this.(seal := true)
      case Bow => this.(bow := true)
      case Chalice => this.(chalice := true)
    }

    /** `Object.values(legaciesCollected).every(collected => collected)`. */
    predicate All()
    {
      sword && seal && bow && chalice
    }
  }

  const NoLegacies: Legacies := Legacies(false, false, false, false)

  datatype GameStatus = Playing | Won | Lost

  datatype TurnPhase = ActionPhase | ThreatPhase | ReplenishPhase

  /** The entries of the message log. The engine writes Hungarian sentences;
      the model keeps which sentence was written and the values it mentions. */
  datatype Message =
    | GameStarted(difficulty: string)
    | MoveRejected(destination: CityName, from: CityName)
    | Moved(player: string, destination: CityName)
    | NotEnoughCards(subType: SubType)
    | ThreatResolved(player: string, threat: ThreatType, city: CityName)
    | CardPlayed(player: string, card: string)
    | CrisisDrawn(card: string)
    | NewThreat(threat: ThreatType, city: CityName)
    | Uprising(city: CityName)
    | Festival
    | EmpireCollapsed
    | PassiveReduction(count: nat)
    | LegacyClaimed(legacy: Legacy)
    | Victory
    | GiveRejected
    | CardGiven(giver: string, card: string, receiver: string)
    | GameLoaded

  datatype GameState = GameState(
    cities: map<CityName, City>,
    players: seq<Player>,
    activePlayerIndex: nat,
    actionDeck: seq<Card>,
    actionDiscard: seq<Card>,
    threatDeck: seq<Card>,
    threatDiscard: seq<Card>,
    stormCount: nat,
    outbreakCount: nat,
    legaciesCollected: Legacies,
    gameStatus: GameStatus,
    turnPhase: TurnPhase,
    messages: seq<Message>,
    tutorialStep: int)

  // ---------------------------------------------------------------------------
  // Queries

  function HasPlayerId(id: string): Player -> bool
  {
    (p: Player) => p.id == id
  }

  /** `players.findIndex(p => p.id === id)`. */
  function FindPlayer(players: seq<Player>, id: string): Option<nat>
  {
    FirstIndex(players, HasPlayerId(id))
  }

  function HasCardId(id: string): Card -> bool
  {
    (c: Card) => c.id == id
  }

  /** `hand.findIndex(c => c.id === id)`; `hand.find` returns the card at this index. */
  function FindCard(hand: seq<Card>, id: string): Option<nat>
  {
    FirstIndex(hand, HasCardId(id))
  }

  predicate ValidActive(s: GameState)
  {
    s.activePlayerIndex < |s.players|
  }

  function ActivePlayer(s: GameState): Player
    requires ValidActive(s)
  {
    s.players[s.activePlayerIndex]
  }

  /** Every city of the registry has an entry, as in every state the
      initializer builds; no transition removes one. */
  predicate CitiesComplete(cities: map<CityName, City>)
  {
    forall c: CityName :: c in cities
  }

  /** The cities present from registry position `n` on, in registry order. */
  function KeysFrom(cities: map<CityName, City>, n: nat): seq<CityName>
    decreases CityCount - n, cities.Keys
  {
    if n >= CityCount then []
    else (if CityAt(n) in cities then [CityAt(n)] else []) + KeysFrom(cities, n + 1)
  }

  /** `Object.keys(cities)`: the cities present, in registry order. */
  function CityKeys(cities: map<CityName, City>): seq<CityName>
  {
    KeysFrom(cities, 0)
  }

  /** Every key listed from position `n` on is present and sits at position `n` or later. */
  lemma {:induction false} KeysFromPresent(cities: map<CityName, City>, n: nat)
    ensures forall i :: 0 <= i < |KeysFrom(cities, n)| ==>
      KeysFrom(cities, n)[i] in cities && n <= CityIndex(KeysFrom(cities, n)[i])
    decreases CityCount - n
  {
    if n < CityCount {
      KeysFromPresent(cities, n + 1);
      CityIndexAt(n);
    }
  }

  lemma {:induction false} KeysFromDistinct(cities: map<CityName, City>, n: nat)
    ensures Distinct(KeysFrom(cities, n))
    decreases CityCount - n
  {
    if n < CityCount {
      KeysFromDistinct(cities, n + 1);
      KeysFromPresent(cities, n + 1);
      CityIndexAt(n);
    }
  }

  lemma {:induction false} KeysFromComplete(cities: map<CityName, City>, n: nat, c: CityName)
    requires c in cities && n <= CityIndex(c)
    ensures c in KeysFrom(cities, n)
    decreases CityCount - n
  {
    CityAtIndex(c);
    if n < CityIndex(c) {
      KeysFromComplete(cities, n + 1, c);
    }
  }

  /** The listing depends only on which cities are present. */
  lemma {:induction false} KeysFromSameKeys(a: map<CityName, City>, b: map<CityName, City>, n: nat)
    requires a.Keys == b.Keys
    ensures KeysFrom(a, n) == KeysFrom(b, n)
    decreases CityCount - n
  {
    if n < CityCount {
      KeysFromSameKeys(a, b, n + 1);
    }
  }

  /** `Object.keys(cities)` lists only cities present. */
  lemma CityKeysPresent(cities: map<CityName, City>)
    ensures forall i :: 0 <= i < |CityKeys(cities)| ==> CityKeys(cities)[i] in cities
  {
    KeysFromPresent(cities, 0);
  }

  /** `Object.keys(cities)` lists no city twice. */
  lemma CityKeysDistinct(cities: map<CityName, City>)
    ensures Distinct(CityKeys(cities))
  {
    KeysFromDistinct(cities, 0);
  }

  /** `Object.keys(cities)` lists every city present. */
  lemma CityKeysComplete(cities: map<CityName, City>, c: CityName)
    requires c in cities
    ensures c in CityKeys(cities)
  {
    KeysFromComplete(cities, 0, c);
  }

  function ThreatCount(cities: map<CityName, City>, c: CityName): nat
  {
    if c in cities then |cities[c].threats| else 0
  }

  /** The threats on the cities from registry position `n` on. */
  function SumFrom(cities: map<CityName, City>, n: nat): nat
    decreases CityCount - n, cities.Keys
  {
    if n >= CityCount then 0 else ThreatCount(cities, CityAt(n)) + SumFrom(cities, n + 1)
  }

  /** The number of threats on the board (`Object.values(cities).reduce(...)`);
      a city missing from the record contributes nothing. */
  function TotalThreats(cities: map<CityName, City>): nat
  {
    SumFrom(cities, 0)
  }

  /** Changing one city changes the sum by exactly the change in that city's threats. */
  lemma {:induction false} SumFromUpdate(cities: map<CityName, City>, n: nat, c: CityName, city: City)
    ensures SumFrom(cities[c := city], n) + (if n <= CityIndex(c) then ThreatCount(cities, c) else 0)
         == SumFrom(cities, n) + (if n <= CityIndex(c) then |city.threats| else 0)
    decreases CityCount - n
  {
    CityAtIndex(c);
    if n < CityCount {
      SumFromUpdate(cities, n + 1, c, city);
      CityIndexAt(n);
    }
  }

  /** The board total after replacing one city. */
  lemma TotalThreatsUpdate(cities: map<CityName, City>, c: CityName, city: City)
    ensures TotalThreats(cities[c := city]) + ThreatCount(cities, c) == TotalThreats(cities) + |city.threats|
  {
    SumFromUpdate(cities, 0, c, city);
  }

  /** No two players share an id, so `findIndex` by id finds the player meant. */
  predicate DistinctPlayerIds(players: seq<Player>)
  {
    forall i, j :: 0 <= i < j < |players| ==> players[i].id != players[j].id
  }

  /** The shape every state built by the initializer has and every transition keeps:
      some players, a valid active index, all cities present, distinct player ids. */
  predicate Wellformed(s: GameState)
  {
    && |s.players| > 0
    && ValidActive(s)
    && CitiesComplete(s.cities)
    && DistinctPlayerIds(s.players)
  }

  /** With distinct ids, looking up a player by id finds exactly that player. */
  lemma FindPlayerById(players: seq<Player>, i: nat)
    requires i < |players| && DistinctPlayerIds(players)
    ensures FindPlayer(players, players[i].id) == Some(i)
  {
    var r := FindPlayer(players, players[i].id);
    assert HasPlayerId(players[i].id)(players[i]);
  }
}
