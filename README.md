# A verified model of the Hun empire board-game engine

The game is a cooperative board game played on a map of 27 provinces of the
Hun empire, with Etil as the capital. Each player takes one of six roles
(Ellák, Aranka, Baján, Réka, Dengizik, Onegeszius). Threats (famine,
unrest, epidemics, raids, …) pile up on the provinces. Players move along
the map, pay cards of the right sub-type to resolve threats, play blessing
cards, hand cards to one another and collect the four legacies (sword,
seal, bow, chalice). The empire collapses when the board holds 30 threats.
Collecting all four legacies wins the game.

This project models four parts of the engine in Dafny:

- the constant tables: provinces, adjacency, threat details, roles and
  legacy locations (`constants.dfy`, `game_types.dfy`);
- the game reducer, one transition per action (`player_actions.dfy`,
  `play_card.dfy`, `end_turn.dfy`, `game_reducer.dfy`);
- the autoplay planner: the breadth-first `findPath` and the rule cascade
  of `getNextBestAction` (`map_graph.dfy`, `simulation.dfy`, `planner.dfy`);
- the construction of the initial state: decks, board, players and
  difficulty (`setup.dfy`).

`prelude.dfy` holds the generic sequence and numeral lemmas the rest uses.

Most reducer arms are pure functions on a `GameState` value. Some arms loop
and update the state in place: the blessings of PLAY_CARD, and the threat
phase, festival and end-of-round reduction of END_TURN. Each of these also
runs as a `method` with a loop, proved equal to the function that specifies
it. The `GameReducer` method dispatches to these methods and is proved equal
to the `Reduce` function. `findPath`, `getNextBestAction` and the loops of
`getInitialState` are methods with loop invariants.

Randomness is a parameter throughout:

- `Math.random` becomes a `Rng` oracle that is read at numbered call
  sites. `Pick` clamps each answer below its bound.
- The random comparator sort becomes a list of exchanges, applied by
  `Shuffle`.

## Model

| member | source | states |
|---|---|---|
| Constants.CityListIsRegistry | src/constants.ts:9-47 | the province registry lists all 27 provinces, each exactly once |
| Constants.CityIndexOfEntry | src/constants.ts:9-47 | every registry entry sits at its own index, so key order is well defined |
| Constants.AdjacencyIrreflexive | src/constants.ts:50-100 | no province neighbours itself and every province has a neighbour |
| Constants.OneWayEdges | src/constants.ts:72-98 | the adjacency table is not symmetric: Don→Karakorum, Partiskum→Temesvár and Szamarkand→Turfán have no reverse edge |
| Constants.ThreatTableShape | src/constants.ts:102-111 | every threat needs two to four cards, and no threat is countered by Szertartás or Stratégia cards |
| Constants.LegacyLocationsDistinct | src/constants.ts:177-182 | the four legacies lie in four different provinces |
| GameTypes.With | src/logic/gameReducer.ts:274-277 | marking a legacy collected sets that legacy and leaves the other three as they were |
| GameTypes.CityKeysComplete | src/logic/gameReducer.ts:243 | `Object.keys(cities)` lists every province present on the board |
| GameTypes.CityKeysDistinct | src/logic/gameReducer.ts:243 | `Object.keys(cities)` lists no province twice |
| GameTypes.TotalThreatsUpdate | src/logic/gameReducer.ts:232 | replacing one province changes the board total by exactly that province's change in threats |
| GameTypes.FindPlayerById | src/logic/gameReducer.ts:18 | when player ids are distinct, a lookup by a player's id finds that player |
| PlayerActions.Move | src/logic/gameReducer.ts:16-47 | MOVE_PLAYER: a non-neighbour is rejected with a message before the action points are checked. An accepted move goes to a neighbour, records the previous city as the last city and costs one point. Nothing else changes |
| PlayerActions.MoveThereAndBack | src/logic/gameReducer.ts:16-47 | moving to a neighbour and straight back returns the player to where they were, two points poorer, with the neighbour as the last city |
| PlayerActions.ResolveThreat | src/logic/gameReducer.ts:49-100 | RESOLVE_THREAT: without a threat at the index, or with the player elsewhere, nothing happens. Too few matching selected cards logs a "not enough cards" message naming the counter sub-type. Otherwise the threat is resolved |
| PlayerActions.ResolveRemovesThreat | src/logic/gameReducer.ts:74-91 | the resolved threat, and only it, leaves the board; other provinces are untouched |
| PlayerActions.ResolveLowersTotal | src/logic/gameReducer.ts:74-91 | resolving lowers the number of threats on the board by one |
| PlayerActions.ResolveSpendsSelectedCards | src/logic/gameReducer.ts:64-86 | every selected card in the hand goes to the discard pile, whatever its sub-type, and the player pays one point; no other player changes |
| PlayerActions.ResolveConservesCards | src/logic/gameReducer.ts:64-86 | hand plus discard pile hold the same cards before and after a resolution |
| PlayerActions.ClaimLegacy | src/logic/gameReducer.ts:261-297 | CLAIM_LEGACY: the legacy is collected and the point is paid unchecked. The game is won exactly when all four legacies are held; otherwise the status is unchanged |
| PlayerActions.ClaimsCollect | src/logic/gameReducer.ts:261-297 | after a run of claims, exactly the claimed legacies and those held before are collected |
| PlayerActions.ClaimingAllLegaciesWins | src/logic/gameReducer.ts:274-281 | claiming every legacy, in any order, wins the game |
| PlayerActions.GiveCard | src/logic/gameReducer.ts:299-348 | GIVE_CARD: an accepted gift moves the named card from giver to receiver. A giver other than Réka who has a point but is not in the receiver's city is rejected with a message. Every other rejection (an unknown giver or receiver, a giver without points, a card not held) leaves the state unchanged |
| PlayerActions.GiveMovesCard | src/logic/gameReducer.ts:320-341 | between two different players the card leaves the giver's hand, is appended to the receiver's, and costs one point; others are untouched |
| PlayerActions.GiveConservesCards | src/logic/gameReducer.ts:320-341 | a gift between two different players neither loses nor creates cards |
| PlayerActions.SelfGiveDuplicatesCard | src/logic/gameReducer.ts:320-341 | a player naming themself as the receiver keeps the card, gains a second copy and pays nothing |
| PlayCard.ApplyNimrod | src/logic/gameReducer.ts:120-130 | the loop of Nimród áldása computes the same board as the recursive walk over the keys |
| PlayCard.NimrodRemovalPops | src/logic/gameReducer.ts:120-130 | the walk pops exactly the first two provinces, in key order, that have a threat |
| PlayCard.NimrodPopsLast | src/logic/gameReducer.ts:120-130 | Nimród áldása takes the last threat of at most two provinces and leaves every other province alone |
| PlayCard.NimrodLowersTotal | src/logic/gameReducer.ts:120-130 | the board loses exactly as many threats as provinces were picked |
| PlayCard.NimrodTakesTwoWhenItCan | src/logic/gameReducer.ts:120-130 | whenever two provinces have threats, the blessing picks two of them |
| PlayCard.ApplyUstengri | src/logic/gameReducer.ts:131-138 | the deal loop computes the same hands and deck as the deal function |
| PlayCard.DealTwoAt | src/logic/gameReducer.ts:131-138 | player `i` receives the deck's cards at positions `2i` and `2i+1`, fewer once the deck runs out |
| PlayCard.DealTwoShape | src/logic/gameReducer.ts:131-138 | the deal keeps every player and takes two cards per player off the deck |
| PlayCard.DealTwoConservesCards | src/logic/gameReducer.ts:131-138 | the hands and the deck together hold the same cards before and after the deal |
| PlayCard.ApplyTaltos | src/logic/gameReducer.ts:139-144 | the loop of Táltos gyógyítás computes the cured board |
| PlayCard.CureEach | src/logic/gameReducer.ts:141-143 | curing every listed province once cures the board |
| PlayCard.CuredEffect | src/logic/gameReducer.ts:139-144 | after the cure no province holds an epidemic, every other threat keeps its count, and a province without an epidemic is unchanged |
| PlayCard.CuredIdempotent | src/logic/gameReducer.ts:139-144 | curing twice is curing once |
| PlayCard.PlayCard | src/logic/gameReducer.ts:102-150 | PLAY_CARD: only a blessing the player holds has an effect; any other card, or one not held, leaves the state unchanged |
| PlayCard.ApplyPlayCard | src/logic/gameReducer.ts:102-150 | the arm with its loops gives the state the PLAY_CARD function specifies |
| PlayCard.BlessingLeavesHand | src/logic/gameReducer.ts:111-118 | a played blessing leaves the player's hand; other players and the deck are untouched, except under Üstengri's blessing |
| PlayCard.UstengriDeals | src/logic/gameReducer.ts:131-138 | Üstengri kegyelme hands every player, including the one who played it, the next two cards of the deck, in player order |
| EndTurn.Pick | src/logic/gameReducer.ts:190-201 | a random pick always lies below its bound |
| EndTurn.DrawConservesCards | src/logic/gameReducer.ts:156-176 | the turn's draw takes two cards off the deck. Storms are counted and kept out of the hand; the rest join the hand. No card is lost. Actions reset to four |
| EndTurn.ThreatDrawCount | src/logic/gameReducer.ts:179-181 | one threat card is drawn, plus one per four storms drawn so far |
| EndTurn.ScatterThreats | src/logic/gameReducer.ts:187-204 | the crisis loop computes the same board as the scatter function |
| EndTurn.ScatterTotal | src/logic/gameReducer.ts:187-204 | each pick adds one threat, or none when a lost province is spared; without sparing, exactly `count` threats are added |
| EndTurn.ScatterAddsOnly | src/logic/gameReducer.ts:187-204 | scattering adds only the crisis's threat type; every other type keeps its count in every province |
| EndTurn.PlaceEffect | src/logic/gameReducer.ts:205-218 | a threat card leaves a lost province alone; otherwise it adds its threat there, with an outbreak exactly when the province already held two or more |
| EndTurn.FamineAddsTwo | src/logic/gameReducer.ts:197-204 | Nagy éhínség adds exactly two threats, both bad harvests |
| EndTurn.CollapseAddsUnrest | src/logic/gameReducer.ts:187-196 | Birodalom felbomlása adds between zero and five threats, all unrest |
| EndTurn.StrikeCardTotal | src/logic/gameReducer.ts:183-219 | a drawn threat card adds at most five threats and removes none |
| EndTurn.StrikeAllTotal | src/logic/gameReducer.ts:183-219 | the threat phase adds at most five threats per card drawn and removes none |
| EndTurn.StrikeCards | src/logic/gameReducer.ts:183-219 | the `forEach` over drawn cards computes the same result as striking them one by one |
| EndTurn.StrikeOne | src/logic/gameReducer.ts:184-218 | one drawn card, as the engine runs it, strikes as the card function says |
| EndTurn.DrawThreats | src/logic/gameReducer.ts:179-219 | the drawn threat cards leave the deck; the outbreak count and the log only grow, and the province keys stay |
| EndTurn.BonusAction | src/logic/gameReducer.ts:223-229 | every player gains exactly one action and nothing else changes |
| EndTurn.GrantBonusAction | src/logic/gameReducer.ts:228 | the festival loop computes the bonus-action function |
| EndTurn.LossCheck | src/logic/gameReducer.ts:232-236 | a board holding 30 or more threats sets the game lost and logs the collapse message; below 30 the status and the log are kept |
| EndTurn.ReduceOccupied | src/logic/gameReducer.ts:239-253 | the end-of-round loop computes the same board and count as the reduction walk |
| EndTurn.ReductionPops | src/logic/gameReducer.ts:239-253 | the reduction pops exactly the occupied provinces that have a threat, in key order, and counts them |
| EndTurn.ReductionTargetsExact | src/logic/gameReducer.ts:243-248 | a province is reduced exactly when it is occupied, present and has a threat |
| EndTurn.ReductionEffect | src/logic/gameReducer.ts:243-248 | a reduced province loses its last threat, and every other province is unchanged |
| EndTurn.ReductionLowersTotal | src/logic/gameReducer.ts:239-253 | the board total falls by exactly the number of provinces the reduction reports |
| EndTurn.NextSeatWraps | src/logic/gameReducer.ts:256 | the turn passes to `(i + 1) % n` |
| EndTurn.Advance | src/logic/gameReducer.ts:256 | passing the turn keeps a valid active player and changes nothing else |
| EndTurn.EndTurn | src/logic/gameReducer.ts:152-259 | END_TURN, run stage by stage as the engine does, gives the state its specification gives |
| EndTurn.EndTurnShape | src/logic/gameReducer.ts:152-259 | END_TURN passes the turn on. Players keep their ids and places. The decks lose exactly what was drawn, and the discards, legacies, phase and tutorial are untouched |
| EndTurn.StruckShape | src/logic/gameReducer.ts:156-219 | before the festival only the active player's hand and actions change, alongside the decks, storms, board and outbreaks |
| EndTurn.EndTurnLoss | src/logic/gameReducer.ts:232-236 | after END_TURN the game is lost exactly when it was lost before or the board after the threat phase holds 30 threats |
| EndTurn.StruckTotal | src/logic/gameReducer.ts:179-219 | the threat phase raises the board total by at most five per card drawn |
| EndTurn.EndTurnReduction | src/logic/gameReducer.ts:239-253 | only the last player of the round reduces the board; each occupied province with a threat loses its last one |
| EndTurn.EndTurnActions | src/logic/gameReducer.ts:169-229 | the active player restarts with four actions; everyone gains one more when all share a province |
| EndTurn.EndTurnWellformed | src/logic/gameReducer.ts:152-259 | END_TURN keeps a well-formed game well formed |
| EndTurn.EndTurnsRotate | src/logic/gameReducer.ts:256 | after `k` END_TURNs the turn is `k` seats further round the table |
| EndTurn.RoundReturnsTurn | src/logic/gameReducer.ts:256 | a full round of END_TURNs hands the turn back to the player who had it |
| EndTurn.EndTurnKeepsLog | src/logic/gameReducer.ts:152-259 | END_TURN only appends to the log |
| GameReducer.Load | src/logic/gameReducer.ts:350-355 | LOAD_GAME replaces the state with the payload and appends one message to the payload's log |
| GameReducer.GameReducer | src/logic/gameReducer.ts:14-360 | the reducer that runs its looping arms as methods gives the state of the reducer function |
| GameReducer.ReduceKeepsTable | src/logic/gameReducer.ts:14-360 | every action but LOAD_GAME keeps the players' ids and count and the province keys. END_TURN passes the turn on; every other action keeps the active player |
| GameReducer.ReduceWellformed | src/logic/gameReducer.ts:14-360 | every action keeps a well-formed game well formed |
| GameReducer.StatusChanges | src/logic/gameReducer.ts:14-360 | the status changes only when END_TURN loses, CLAIM_LEGACY wins or LOAD_GAME replaces the state |
| GameReducer.PlayingStatus | src/logic/gameReducer.ts:232-236 | from a game in play, END_TURN loses exactly at 30 threats and CLAIM_LEGACY wins exactly with the fourth legacy |
| GameReducer.ReduceKeepsLog | src/logic/gameReducer.ts:14-360 | every action but LOAD_GAME keeps every earlier message in place |
| MapGraph.StronglyConnected | src/constants.ts:50-100 | the directed map is strongly connected: every province reaches every other along the adjacency table |
| MapGraph.RoutesToCapital | src/constants.ts:50-100 | every province can reach Etil |
| MapGraph.RoutesFromCapital | src/constants.ts:50-100 | Etil reaches every province |
| MapGraph.WalkAppend | src/logic/simulation.ts:24 | two walks, the second starting where the first ends, join into one |
| Simulation.Expand | src/logic/simulation.ts:20-26 | the inner loop marks and queues every unvisited neighbour with its walk extended by one step, keeping the queue sound |
| Simulation.NextLevel | src/logic/simulation.ts:13-27 | once no queued province is closer than `L + 1`, every province up to `L` steps away has been expanded |
| Simulation.FoundNearest | src/logic/simulation.ts:16-18 | the first target dequeued is at least as close as any target an avoiding walk reaches |
| Simulation.NoneFound | src/logic/simulation.ts:28 | an exhausted search leaves no target reachable by an avoiding walk |
| Simulation.FindPath | src/logic/simulation.ts:6-29 | `findPath` returns nothing when the start is a target. Otherwise it returns the first step of a shortest walk to a target that avoids the avoided province, or nothing when no such walk exists |
| Planner.FirstCounterable | src/logic/simulation.ts:42-60 | the threat picked is the first in the current province that the hand can counter, or none when the hand counters none |
| Planner.PaymentAccepted | src/logic/simulation.ts:49-56 | the cards the planner offers are accepted by RESOLVE_THREAT |
| Planner.LegacyAt | src/logic/simulation.ts:64 | finds the legacy kept in a province, exactly when there is one |
| Planner.ClaimHere | src/logic/simulation.ts:63-74 | rule 2 fires exactly when the current province keeps an uncollected legacy and the hand holds five cards |
| Planner.LegacyTargets | src/logic/simulation.ts:120-122 | the targets of rule 5 are exactly the places of uncollected legacies other than the current province |
| Planner.Approach | src/logic/simulation.ts:90-99 | a movement rule moves exactly when it has targets and the player is not on one. The step begins a shortest walk, one that avoids the last city when such a walk exists |
| Planner.WanderOptions | src/logic/simulation.ts:162-164 | the wander rule chooses among the neighbours other than the last city or, when there are none, among all neighbours |
| Planner.Head | src/logic/simulation.ts:76-170 | rules 3-8 yield a move to a neighbour or, only on a threatened province, the end of the turn |
| Planner.NextBestAction | src/logic/simulation.ts:31-171 | `getNextBestAction` follows its rules in order. It ends the turn without points; it resolves exactly when a local threat can be countered; it claims exactly under rule 2; every move is one the reducer accepts |
| Planner.MoveAccepted | src/logic/simulation.ts:167-170 | a move to a neighbour with a point left is accepted by MOVE_PLAYER |
| Setup.Shuffle | src/logic/initialState.ts:44 | the shuffle rearranges the cards: same length, same multiset |
| Setup.ShuffleKeepsDistinctIds | src/logic/initialState.ts:44 | shuffling keeps card ids distinct |
| Setup.DeckContents | src/logic/initialState.ts:14-45 | the action deck is a rearrangement of 60 action cards, the storms and the five blessings, with distinct ids |
| Setup.ActionSubTypeCycle | src/logic/initialState.ts:16-25 | card `action-i` has the `i mod 8`-th sub-type, wherever the shuffle puts it |
| Setup.CrisisCount | src/logic/initialState.ts:62-64 | one crisis card, and more than one exactly on master or legendary |
| Setup.ThreatDeckContents | src/logic/initialState.ts:47-78 | the threat deck is a rearrangement of 40 threat cards and the crisis cards, with distinct ids |
| Setup.ThreatCardsComplete | src/logic/initialState.ts:52-75 | every card of the threat deck is a threat naming a target and a type, or a crisis naming its crisis |
| Setup.ThreatCardCycle | src/logic/initialState.ts:52-59 | card `threat-i` targets the `i mod 27`-th province with the `i mod 8`-th threat type |
| Setup.EveryCityThreatened | src/logic/initialState.ts:52-59 | every province is the target of some threat card |
| Setup.EveryThreatTypeDealt | src/logic/initialState.ts:52-59 | every threat type appears on some threat card |
| Setup.DifficultyOrdered | src/logic/initialState.ts:96-116 | the difficulty levels grow strictly harder in storms and initial threats, and an unknown name plays like beginner |
| Setup.StartingSubTypes | src/logic/initialState.ts:129-146 | the keyword scan gives both starting cards of every role that role's specialty |
| Setup.InitialPlayersFacts | src/logic/initialState.ts:149-167 | the players have distinct ids, start in Etil with four actions and no last city, take the roles in turn and hold their two starting cards |
| Setup.BuildCities | src/logic/initialState.ts:83-93 | the board has every province, fresh: its own neighbours, no threats, not lost, the capital only in Etil |
| Setup.PlaceThreats | src/logic/initialState.ts:118-126 | the initial-threat loop only appends threats and adds exactly `count` to the board |
| Setup.InitialState | src/logic/initialState.ts:80-190 | the initial state has the roster, a fresh board with the difficulty's threats, both decks and empty discards. The first player is to act, nothing is collected and the game is in play, with one message; with any players it is well formed |

## Left out

- In-place mutation and aliasing: the reducer works on shallow copies and
  pushes into shared arrays. Each transition here builds a fresh value, so
  sharing between the old and new state, such as the player objects the
  festival's bonus action mutates in both, is not modelled.
- Message text: the log holds message kinds with their parameters, not the
  Hungarian sentences. The difficulty in the first message is not
  upper-cased.
- Randomness is supplied from outside. Each `Math.random` call site reads a
  numbered answer from a `Rng` oracle, and an answer at or above the bound is
  read as the largest pick. Shuffles are given as lists of exchanges. The
  statistical quality of the comparator sort is not modelled. The random id
  suffix of starting cards is the parameter `Chance.tags`.
- Drawn threat cards leave the threat deck and are not put on the threat
  discard, as in `src/logic/gameReducer.ts`.
- EndTurn.EndTurn: requires every province key present on the board. The
  engine only needs the provinces that drawn cards target, so this is
  slightly stronger than the code demands. It also requires a valid
  `activePlayerIndex`; the engine reads a field of `undefined` otherwise
  (`src/logic/gameReducer.ts:154,166`), and that crash is not modelled.
- PlayerActions.ResolveThreat: requires a valid `activePlayerIndex` when the
  threat exists. The engine reads the current city of `undefined` otherwise
  (`src/logic/gameReducer.ts:61`), and that crash is not modelled.
- PlayerActions.ClaimLegacy: requires a valid `activePlayerIndex`. The engine
  reads the actions of `undefined` otherwise
  (`src/logic/gameReducer.ts:283-287`), and that crash is not modelled.
- Planner.NextBestAction: requires a valid `activePlayerIndex` and, when
  points remain, the player's province on the board. The planner reads a
  field of `undefined` otherwise (`src/logic/simulation.ts:35,42`), and
  that crash is not modelled.
- PlayCard.PlayCard: requires the player id to be known. The engine reads a
  field of `undefined` otherwise, and that crash is not modelled.
- Key order: `Object.keys`/`Object.entries` over the board are taken in
  registry order. A loaded snapshot with another key order is not modelled.
- Simulation.FindPath: states that the step begins a shortest avoiding walk,
  not which of several equally short walks the breadth-first order picks.
- Setup.InitialState: `playerCount` is a natural number. Negative and
  fractional counts are not modelled, and the default arguments (4,
  "normal") are passed explicitly.
- Card descriptions, the map coordinates, the UI, tutorial steps beyond the
  initial zero are not modelled.
