/** The transition function: a closed set of actions, each dispatched to its
    arm; an action without an arm leaves the state as it is. */
module GameReducer {
  import opened Prelude
  import opened Constants
  import opened GameTypes
  import Actions = PlayerActions
  import Play = PlayCard
  import Turn = EndTurn

  /** The actions the reducer accepts, with their payloads. `DrawCards` has no
      arm and falls through to the default. The player named in `ClaimLegacy`
      is not read: the active player pays. */
  datatype Action =
    | MovePlayer(playerId: string, destination: CityName)
    | PlayCard(playerId: string, cardId: string)
    | DrawCards(playerId: string, count: int)
    | EndTurn
    | ClaimLegacy(playerId: string, legacyType: Legacy)
    | ResolveThreat(city: CityName, threatIndex: int, cardIds: seq<string>)
    | GiveCard(playerId: string, targetPlayerId: string, cardId: string)
    | LoadGame(payload: GameState)

  /** What each arm reads without checking: the player who plays a card, the
      active player of END_TURN and CLAIM_LEGACY, and the active player of
      RESOLVE_THREAT once the threat is found. */
  predicate Defined(s: GameState, a: Action)
  {
    match a
    case PlayCard(playerId, _) => Play.PlayDefined(s, playerId)
    case EndTurn => Turn.EndTurnDefined(s)
    case ClaimLegacy(_, _) => ValidActive(s)
    case ResolveThreat(city, threatIndex, _) => Actions.ResolveDefined(s, city, threatIndex)
    case _ => true
  }

  /** A loaded game replaces the state wholesale, with one message logged. */
  function Load(payload: GameState): (r: GameState)
    ensures r == payload.(messages := r.messages)
    ensures payload.messages <= r.messages && r.messages[|payload.messages|..] == [GameLoaded]
  {
    payload.(messages := payload.messages + [GameLoaded])
  }

  /** `gameReducer`: one action applied to one state. `rng` answers the random
      draws END_TURN makes. */
  function Reduce(s: GameState, a: Action, rng: Turn.Rng): GameState
    requires Defined(s, a)
  {
    match a
    case MovePlayer(playerId, destination) => Actions.Move(s, playerId, destination)
    case ResolveThreat(city, threatIndex, cardIds) => Actions.ResolveThreat(s, city, threatIndex, cardIds)
    case PlayCard(playerId, cardId) => Play.PlayCard(s, playerId, cardId)
    case EndTurn => Turn.EndTurnSpec(s, rng)
    case ClaimLegacy(_, legacyType) => Actions.ClaimLegacy(s, legacyType)
    case GiveCard(playerId, targetPlayerId, cardId) => Actions.GiveCard(s, playerId, targetPlayerId, cardId)
    case LoadGame(payload) => Load(payload)
    case DrawCards(_, _) => s
  }

  /** The reducer as the engine runs it: the two arms that loop and update in
      place run as methods, the others as the functions they are. */
  method GameReducer(s: GameState, a: Action, rng: Turn.Rng) returns (r: GameState)
    requires Defined(s, a)
    ensures r == Reduce(s, a, rng)
  {
    match a
    case MovePlayer(playerId, destination) =>
      r := Actions.Move(s, playerId, destination);
    case ResolveThreat(city, threatIndex, cardIds) =>
      r := Actions.ResolveThreat(s, city, threatIndex, cardIds);
    case PlayCard(playerId, cardId) =>
      r := Play.ApplyPlayCard(s, playerId, cardId);
    case EndTurn =>
      r := Turn.EndTurn(s, rng);
    case ClaimLegacy(_, legacyType) =>
      r := Actions.ClaimLegacy(s, legacyType);
    case GiveCard(playerId, targetPlayerId, cardId) =>
      r := Actions.GiveCard(s, playerId, targetPlayerId, cardId);
    case LoadGame(payload) =>
      r := Load(payload);
    case DrawCards(_, _) =>
      r := s;
  }

  // ---------------------------------------------------------------------------
  // The table: the players (by id) and the cities a game is played with.

  /** `r` seats the same players, by id and in order, and has the same cities as `s`. */
  predicate SameTable(s: GameState, r: GameState)
  {
    && |r.players| == |s.players|
    && (forall i :: 0 <= i < |s.players| ==> r.players[i].id == s.players[i].id)
    && r.cities.Keys == s.cities.Keys
  }

  /** Keeping the table and a valid active player keeps a game well formed. */
  lemma SameTableWellformed(s: GameState, r: GameState)
    requires Wellformed(s) && SameTable(s, r) && ValidActive(r)
    ensures Wellformed(r)
  {
    forall i, j | 0 <= i < j < |r.players|
      ensures r.players[i].id != r.players[j].id
    {
      assert s.players[i].id != s.players[j].id;
    }
  }

  lemma MoveKeepsTable(s: GameState, playerId: string, destination: CityName)
    ensures var r := Actions.Move(s, playerId, destination);
            SameTable(s, r) && r.activePlayerIndex == s.activePlayerIndex
  {
  }

  lemma ResolveKeepsTable(s: GameState, city: CityName, threatIndex: int, cardIds: seq<string>)
    requires Actions.ResolveDefined(s, city, threatIndex)
    ensures var r := Actions.ResolveThreat(s, city, threatIndex, cardIds);
            SameTable(s, r) && r.activePlayerIndex == s.activePlayerIndex
  {
    if Actions.ResolveAccepted(s, city, threatIndex, cardIds) {
      Actions.ResolveRemovesThreat(s, city, threatIndex, cardIds);
      Actions.ResolveSpendsSelectedCards(s, city, threatIndex, cardIds);
    }
  }

  lemma PlayKeepsTable(s: GameState, playerId: string, cardId: string)
    requires Play.PlayDefined(s, playerId) && CitiesComplete(s.cities)
    ensures var r := Play.PlayCard(s, playerId, cardId);
            SameTable(s, r) && r.activePlayerIndex == s.activePlayerIndex
  {
    if Play.PlayAccepted(s, playerId, cardId) {
      var i := FindPlayer(s.players, playerId).value;
      var card := s.players[i].hand[FindCard(s.players[i].hand, cardId).value];
      if card.blessingType == Some(UstengriKegyelme) {
        Play.UstengriDeals(s, i, card);
      } else {
        Play.BlessingLeavesHand(s, i, card);
        if card.blessingType == Some(NimrodAldasa) {
          Play.NimrodPopsLast(s.cities, Etil);
        }
      }
    }
  }

  lemma ClaimKeepsTable(s: GameState, legacy: Legacy)
    requires ValidActive(s)
    ensures var r := Actions.ClaimLegacy(s, legacy);
            SameTable(s, r) && r.activePlayerIndex == s.activePlayerIndex
  {
  }

  lemma GiveKeepsTable(s: GameState, playerId: string, targetPlayerId: string, cardId: string)
    ensures var r := Actions.GiveCard(s, playerId, targetPlayerId, cardId);
            SameTable(s, r) && r.activePlayerIndex == s.activePlayerIndex
  {
  }

  /** Every action but LOAD_GAME keeps the table; END_TURN passes the turn on
      and every other action keeps the active player. */
  lemma ReduceKeepsTable(s: GameState, a: Action, rng: Turn.Rng)
    requires Defined(s, a) && CitiesComplete(s.cities) && !a.LoadGame?
    ensures var r := Reduce(s, a, rng);
            && SameTable(s, r)
            && (a.EndTurn? ==> r.activePlayerIndex == Turn.NextSeat(s.activePlayerIndex, |s.players|))
            && (!a.EndTurn? ==> r.activePlayerIndex == s.activePlayerIndex)
  {
    match a
    case MovePlayer(playerId, destination) => MoveKeepsTable(s, playerId, destination);
    case ResolveThreat(city, threatIndex, cardIds) => ResolveKeepsTable(s, city, threatIndex, cardIds);
    case PlayCard(playerId, cardId) => PlayKeepsTable(s, playerId, cardId);
    case EndTurn => Turn.EndTurnShape(s, rng);
    case ClaimLegacy(_, legacyType) => ClaimKeepsTable(s, legacyType);
    case GiveCard(playerId, targetPlayerId, cardId) => GiveKeepsTable(s, playerId, targetPlayerId, cardId);
    case DrawCards(_, _) =>
  }

  /** Every action keeps a well-formed game well formed; a loaded game is as
      well formed as its payload. */
  lemma ReduceWellformed(s: GameState, a: Action, rng: Turn.Rng)
    requires Wellformed(s) && Defined(s, a)
    requires a.LoadGame? ==> Wellformed(a.payload)
    ensures Wellformed(Reduce(s, a, rng))
  {
    if !a.LoadGame? {
      ReduceKeepsTable(s, a, rng);
      SameTableWellformed(s, Reduce(s, a, rng));
    }
  }

  // ---------------------------------------------------------------------------
  // The game's status.

  /** Only END_TURN loses the game and only CLAIM_LEGACY wins it (LOAD_GAME
      replaces everything); neither checks the status first, so a won game can
      be lost and a lost one won. */
  lemma StatusChanges(s: GameState, a: Action, rng: Turn.Rng)
    requires Defined(s, a) && CitiesComplete(s.cities)
    ensures var r := Reduce(s, a, rng);
            r.gameStatus != s.gameStatus ==>
              (a.EndTurn? && r.gameStatus == Lost) || (a.ClaimLegacy? && r.gameStatus == Won) || a.LoadGame?
  {
    match a
    case ResolveThreat(city, threatIndex, cardIds) =>
    case PlayCard(playerId, cardId) =>
    case EndTurn => Turn.EndTurnLoss(s, rng);
    case _ =>
  }

  /** From a game in play, the status after an action is decided by that
      action's own rule: END_TURN loses on a full board, CLAIM_LEGACY wins on
      the fourth legacy, every other action but LOAD_GAME keeps playing. */
  lemma PlayingStatus(s: GameState, a: Action, rng: Turn.Rng)
    requires Defined(s, a) && CitiesComplete(s.cities) && s.gameStatus == Playing && !a.LoadGame?
    ensures var r := Reduce(s, a, rng);
            && (a.EndTurn? ==> (r.gameStatus == Lost <==> TotalThreats(Turn.Struck(s, rng).cities) >= MaxThreatsOnBoard))
            && (a.ClaimLegacy? ==> (r.gameStatus == Won <==> s.legaciesCollected.With(a.legacyType).All()))
            && (r.gameStatus == Playing || r.gameStatus == (if a.EndTurn? then Lost else Won))
  {
    StatusChanges(s, a, rng);
    match a
    case EndTurn => Turn.EndTurnLoss(s, rng);
    case ClaimLegacy(_, legacyType) =>
    case _ =>
  }

  // ---------------------------------------------------------------------------
  // The message log.

  /** The log only grows: every action but LOAD_GAME keeps every message
      already written, in place. */
  lemma ReduceKeepsLog(s: GameState, a: Action, rng: Turn.Rng)
    requires Defined(s, a) && !a.LoadGame?
    ensures var r := Reduce(s, a, rng);
            s.messages <= r.messages
  {
    match a
    case MovePlayer(playerId, destination) =>
    case ResolveThreat(city, threatIndex, cardIds) =>
    case PlayCard(playerId, cardId) =>
    case EndTurn => Turn.EndTurnKeepsLog(s, rng);
    case ClaimLegacy(_, legacyType) =>
    case GiveCard(playerId, targetPlayerId, cardId) =>
    case DrawCards(_, _) =>
  }
}
