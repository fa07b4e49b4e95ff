/** `getNextBestAction`: the autoplay planner. It reads the state and proposes
    one action for the active player, by a fixed list of rules of which the
    first that applies wins:
      0. no action points left: end the turn;
      1. resolve the first threat of the current city the hand can counter;
      2. claim the legacy kept in the current city;
      3-5. head for a city with a threat the hand can counter, then for a
           critical city, then for an uncollected legacy;
      6. stay (end the turn) on a threatened city;
      7. head for any threatened city;
      8. wander to a neighbour, preferably not the one just left.
    Each "head for" rule takes the first step of a breadth-first search that
    avoids the city the player came from, and searches again without
    avoiding it when that finds nothing. */
module Planner {
  import opened Prelude
  import opened Constants
  import opened GameTypes
  import opened MapGraph
  import opened Simulation
  import opened GameReducer
  import Resolve = PlayerActions
  import Draw = EndTurn

  // ---------------------------------------------------------------------------
  // Rule 1: resolving a threat where the player stands

  /** `hand.filter(c => c.subType === t)`: the cards of sub-type `t`, in hand order. */
  function Matching(hand: seq<Card>, t: SubType): seq<Card>
  {
    Filter(hand, Resolve.HasSubType(t))
  }

  /** The hand holds enough cards of the sub-type that counters `threat`. */
  predicate CanCounter(hand: seq<Card>, threat: ThreatType)
  {
    var d := ThreatDetails(threat);
    |Matching(hand, d.counter)| >= d.amount
  }

  /** `cards.map(c => c.id)`. */
  function Ids(cards: seq<Card>): (r: seq<string>)
    ensures |r| == |cards|
    ensures forall i :: 0 <= i < |cards| ==> r[i] == cards[i].id
  {
    seq(|cards|, i requires 0 <= i < |cards| => cards[i].id)
  }

  /** The cards offered for `threat`: the ids of the first `amount` cards of its counter sub-type. */
  function Payment(hand: seq<Card>, threat: ThreatType): seq<string>
  {
    var d := ThreatDetails(threat);
    Ids(Take(Matching(hand, d.counter), d.amount))
  }

  /** The reducer accepts the offered payment: among the hand's cards whose
      ids are offered there are at least `amount` of the counter sub-type. */
  lemma PaymentAccepted(s: GameState, i: nat)
    requires ValidActive(s) && ActivePlayer(s).currentCity in s.cities
    requires i < |s.cities[ActivePlayer(s).currentCity].threats|
    requires CanCounter(ActivePlayer(s).hand, s.cities[ActivePlayer(s).currentCity].threats[i])
    ensures var p := ActivePlayer(s);
            Resolve.ResolveAccepted(s, p.currentCity, i, Payment(p.hand, s.cities[p.currentCity].threats[i]))
  {
    var p := ActivePlayer(s);
    var threat := s.cities[p.currentCity].threats[i];
    var d := ThreatDetails(threat);
    var m := Matching(p.hand, d.counter);
    var ids := Payment(p.hand, threat);
    var offered := Resolve.IdIn(ids);
    FilterCommute(p.hand, offered, Resolve.HasSubType(d.counter));
    TakeDrop(m, d.amount);
    FilterConcat(Take(m, d.amount), Drop(m, d.amount), offered);
    forall k | 0 <= k < |Take(m, d.amount)|
      ensures offered(Take(m, d.amount)[k])
    {
      assert ids[k] == Take(m, d.amount)[k].id;
    }
    FilterAllKept(Take(m, d.amount), offered);
  }

  /** The loop over the threats of the current city: the first one the hand can counter. */
  method FirstCounterable(hand: seq<Card>, threats: seq<ThreatType>) returns (r: Option<nat>)
    ensures r.Some? ==> r.value < |threats| && CanCounter(hand, threats[r.value])
    ensures r.Some? ==> forall j :: 0 <= j < r.value ==> !CanCounter(hand, threats[j])
    ensures r.None? ==> forall j :: 0 <= j < |threats| ==> !CanCounter(hand, threats[j])
  {
    for i := 0 to |threats|
      invariant forall j :: 0 <= j < i ==> !CanCounter(hand, threats[j])
    {
      var d := ThreatDetails(threats[i]);
      var matching := Filter(hand, Resolve.HasSubType(d.counter));
      if |matching| >= d.amount {
        return Some(i);
      }
    }
    return None;
  }

  // ---------------------------------------------------------------------------
  // Rule 2: claiming a legacy

  function AtCity(c: CityName): Legacy -> bool
  {
    (l: Legacy) => LegacyLocation(l) == c
  }

  /** `Object.entries(LEGACY_LOCATIONS).find(([_, loc]) => loc === c)`: the legacy kept in `c`, if any. */
  function LegacyAt(c: CityName): (r: Option<Legacy>)
    ensures r.Some? ==> LegacyLocation(r.value) == c
    ensures forall l :: LegacyLocation(l) == c ==> r == Some(l)
  {
    match FirstIndex(LegacyKeys, AtCity(c))
    case None => None
    case Some(i) => Some(LegacyKeys[i])
  }

  /** Rule 2 applies: the current city keeps an uncollected legacy and the hand holds five cards. */
  function ClaimHere(s: GameState): (r: Option<Legacy>)
    requires ValidActive(s)
    ensures r.Some? ==> LegacyLocation(r.value) == ActivePlayer(s).currentCity
                        && !s.legaciesCollected.Has(r.value) && |ActivePlayer(s).hand| >= 5
    ensures forall l ::
              (LegacyLocation(l) == ActivePlayer(s).currentCity && !s.legaciesCollected.Has(l)
               && |ActivePlayer(s).hand| >= 5) ==> r == Some(l)
  {
    var p := ActivePlayer(s);
    match LegacyAt(p.currentCity)
    case Some(l) => if !s.legaciesCollected.Has(l) && |p.hand| >= 5 then Some(l) else None
    case None => None
  }

  // ---------------------------------------------------------------------------
  // Rules 3-7: where to head for

  /** Rule 3: another city with a threat the hand can counter. */
  predicate Solvable(cities: map<CityName, City>, p: Player, c: CityName)
  {
    && c in cities && |cities[c].threats| > 0 && c != p.currentCity
    && exists k :: 0 <= k < |cities[c].threats| && CanCounter(p.hand, cities[c].threats[k])
  }

  /** Rule 4: another threatened city that holds three threats or is the capital. */
  predicate Critical(cities: map<CityName, City>, p: Player, c: CityName)
  {
    && c in cities && (|cities[c].threats| >= 3 || c == Capital)
    && |cities[c].threats| > 0 && c != p.currentCity
  }

  /** Rule 7: any other threatened city. */
  predicate Threatened(cities: map<CityName, City>, p: Player, c: CityName)
  {
    c in cities && |cities[c].threats| > 0 && c != p.currentCity
  }

  /** `Object.entries(cities).filter(...).map(([name]) => name)`: the cities
      present that `keep` selects, in key order. */
  function Targets(cities: map<CityName, City>, keep: CityName -> bool): seq<CityName>
  {
    Filter(CityKeys(cities), keep)
  }

  /** A city is a target exactly when it is present and selected. */
  lemma InTargets(cities: map<CityName, City>, keep: CityName -> bool, c: CityName)
    ensures c in Targets(cities, keep) <==> c in cities && keep(c)
  {
    FilterMember(CityKeys(cities), keep, c);
    CityKeysPresent(cities);
    if c in cities {
      CityKeysComplete(cities, c);
    }
  }

  function SolvableTargets(s: GameState, p: Player): seq<CityName>
  {
    Targets(s.cities, c => Solvable(s.cities, p, c))
  }

  function CriticalTargets(s: GameState, p: Player): seq<CityName>
  {
    Targets(s.cities, c => Critical(s.cities, p, c))
  }

  function ThreatenedTargets(s: GameState, p: Player): seq<CityName>
  {
    Targets(s.cities, c => Threatened(s.cities, p, c))
  }

  function Uncollected(collected: Legacies, here: CityName): Legacy -> bool
  {
    (l: Legacy) => !collected.Has(l) && LegacyLocation(l) != here
  }

  /** The places of `ls`, in order. */
  function Locations(ls: seq<Legacy>): (r: seq<CityName>)
    ensures forall c :: c in r <==> exists l :: l in ls && LegacyLocation(l) == c
  {
    var r := seq(|ls|, i requires 0 <= i < |ls| => LegacyLocation(ls[i]));
    assert forall i :: 0 <= i < |ls| ==> r[i] == LegacyLocation(ls[i]);
    r
  }

  /** Filtering a list that holds every legacy selects every legacy `keep` selects. */
  lemma SelectedLocations(keys: seq<Legacy>, keep: Legacy -> bool, c: CityName)
    requires forall l :: l in keys
    ensures c in Locations(Filter(keys, keep)) <==> exists l :: keep(l) && LegacyLocation(l) == c
  {
    forall l ensures l in Filter(keys, keep) <==> keep(l) {
      FilterMember(keys, keep, l);
    }
  }

  /** Rule 5: the places of the uncollected legacies other than `here`, in key order. */
  function LegacyTargets(collected: Legacies, here: CityName): (r: seq<CityName>)
    ensures forall c :: c in r <==> c != here && exists l :: LegacyLocation(l) == c && !collected.Has(l)
  {
    var keep := Uncollected(collected, here);
    forall l: Legacy ensures l in LegacyKeys {
      assert l.Sword? || l.Seal? || l.Bow? || l.Chalice?;
    }
    forall c ensures c in Locations(Filter(LegacyKeys, keep)) <==> exists l :: keep(l) && LegacyLocation(l) == c {
      SelectedLocations(LegacyKeys, keep, c);
    }
    Locations(Filter(LegacyKeys, keep))
  }

  // ---------------------------------------------------------------------------
  // Heading for a target

  /** `route` is a shortest walk from `start` to a target that stays clear of `avoid`. */
  ghost predicate Nearest(graph: CityName -> seq<CityName>, start: CityName, targets: seq<CityName>,
                          avoid: Option<CityName>, route: seq<CityName>)
  {
    && route != [] && Reaches(graph, start, avoid, route) && WalkEnd(start, route) in targets
    && forall q :: Reaches(graph, start, avoid, q) && WalkEnd(start, q) in targets ==> |route| <= |q|
  }

  /** `step` is the first step of `route`, a shortest walk to a target that
      avoids `last` or, when no walk avoiding `last` reaches a target, a
      shortest walk to a target. */
  ghost predicate Steers(graph: CityName -> seq<CityName>, start: CityName, targets: seq<CityName>,
                         last: Option<CityName>, step: CityName, route: seq<CityName>)
  {
    && step in graph(start) && route != [] && route[0] == step
    && (|| Nearest(graph, start, targets, last, route)
        || ((forall q :: Reaches(graph, start, last, q) ==> WalkEnd(start, q) !in targets)
            && Nearest(graph, start, targets, None, route)))
  }

  /** The two searches of a movement rule: the first avoids `last`, the second
      runs only when the first finds nothing. As the map is strongly
      connected, a step is found exactly when there is a target and the
      player is not already on one; `way` names a walk between any two cities. */
  method Approach(graph: CityName -> seq<CityName>, ghost way: (CityName, CityName) -> seq<CityName>,
                  start: CityName, targets: seq<CityName>, last: Option<CityName>)
      returns (r: Option<CityName>, ghost route: seq<CityName>)
    requires forall a, b :: IsWalk(graph, a, way(a, b)) && WalkEnd(a, way(a, b)) == b
    ensures r.Some? <==> targets != [] && start !in targets
    ensures r.Some? ==> Steers(graph, start, targets, last, r.value, route)
  {
    r, route := FindPath(graph, start, targets, last);
    if r.None? {
      r, route := FindPath(graph, start, targets, None);
      if targets != [] && start !in targets {
        assert Reaches(graph, start, None, way(start, targets[0]));
      }
    }
  }

  // ---------------------------------------------------------------------------
  // Rule 8: wandering

  function NotCity(last: Option<CityName>): CityName -> bool
  {
    (n: CityName) => last.None? || n != last.value
  }

  /** The neighbours to wander to: those other than `last` or, when there are none, all of them. */
  function WanderOptions(here: CityName, last: Option<CityName>): (r: seq<CityName>)
    ensures |r| > 0 && forall c :: c in r ==> c in Adjacency(here)
    ensures forall c :: c in Adjacency(here) && NotCity(last)(c) ==> c in r
    ensures (exists c :: c in Adjacency(here) && NotCity(last)(c)) ==> forall c :: c in r ==> NotCity(last)(c)
  {
    var neighbors := Adjacency(here);
    AdjacencyIrreflexive(here);
    var valid := Filter(neighbors, NotCity(last));
    forall c ensures c in valid <==> c in neighbors && NotCity(last)(c) {
      FilterMember(neighbors, NotCity(last), c);
    }
    if |valid| > 0 then valid else neighbors
  }

  // ---------------------------------------------------------------------------
  // The planner

  /** Rules 1 and 2 both fail and the player has points left: a movement rule is next. */
  predicate MustMove(s: GameState)
    requires ValidActive(s)
  {
    var p := ActivePlayer(s);
    && p.actionsRemaining > 0 && p.currentCity in s.cities
    && (forall k :: 0 <= k < |s.cities[p.currentCity].threats| ==> !CanCounter(p.hand, s.cities[p.currentCity].threats[k]))
    && ClaimHere(s).None?
  }

  /** Rules 3-8, in order: the first target list that is not empty is headed
      for; a threatened city with nothing to head for is held; with no
      threat anywhere else the player wanders. */
  ghost predicate FollowsRules(s: GameState, rng: Draw.Rng, a: Action, route: seq<CityName>)
    requires ValidActive(s) && MustMove(s)
  {
    var p := ActivePlayer(s);
    var here := p.currentCity;
    var solvable, critical := SolvableTargets(s, p), CriticalTargets(s, p);
    var legacies, threatened := LegacyTargets(s.legaciesCollected, here), ThreatenedTargets(s, p);
    if solvable != [] then a.MovePlayer? && Steers(Adjacency, here, solvable, p.lastCity, a.destination, route)
    else if critical != [] then a.MovePlayer? && Steers(Adjacency, here, critical, p.lastCity, a.destination, route)
    else if legacies != [] then a.MovePlayer? && Steers(Adjacency, here, legacies, p.lastCity, a.destination, route)
    else if |s.cities[here].threats| > 0 then a == EndTurn
    else if threatened != [] then a.MovePlayer? && Steers(Adjacency, here, threatened, p.lastCity, a.destination, route)
    else
      var options := WanderOptions(here, p.lastCity);
      a == MovePlayer(p.id, options[Draw.Pick(rng, 0, |options|)])
  }

  /** Rules 3-8 of the planner, reached once rules 0-2 have not fired. */
  method Head(s: GameState, rng: Draw.Rng) returns (a: Action, ghost route: seq<CityName>)
    requires ValidActive(s) && MustMove(s)
    ensures a.MovePlayer? || a == EndTurn
    ensures a == EndTurn ==> |s.cities[ActivePlayer(s).currentCity].threats| > 0
    ensures a.MovePlayer? ==> a.playerId == ActivePlayer(s).id && a.destination in Adjacency(ActivePlayer(s).currentCity)
    ensures FollowsRules(s, rng, a, route)
  {
    route := [];
    var p := s.players[s.activePlayerIndex];
    var here := p.currentCity;
    ghost var way := Walks();

    // 3. Head for a threat the hand can counter
    var solvable := SolvableTargets(s, p);
    InTargets(s.cities, c => Solvable(s.cities, p, c), here);
    if |solvable| > 0 {
      var step;
      step, route := Approach(Adjacency, way, here, solvable, p.lastCity);
      if step.Some? {
        return MovePlayer(p.id, step.value), route;
      }
    }

    // 4. Head for a critical city
    var critical := CriticalTargets(s, p);
    InTargets(s.cities, c => Critical(s.cities, p, c), here);
    if |critical| > 0 {
      var step;
      step, route := Approach(Adjacency, way, here, critical, p.lastCity);
      if step.Some? {
        return MovePlayer(p.id, step.value), route;
      }
    }

    // 5. Head for an uncollected legacy
    var legacies := LegacyTargets(s.legaciesCollected, here);
    if |legacies| > 0 {
      var step;
      step, route := Approach(Adjacency, way, here, legacies, p.lastCity);
      if step.Some? {
        return MovePlayer(p.id, step.value), route;
      }
    }

    // 6. Stay on a threatened city
    if |s.cities[here].threats| > 0 {
      return EndTurn, route;
    }

    // 7. Head for any threatened city
    var threatened := ThreatenedTargets(s, p);
    InTargets(s.cities, c => Threatened(s.cities, p, c), here);
    if |threatened| > 0 {
      var step;
      step, route := Approach(Adjacency, way, here, threatened, p.lastCity);
      if step.Some? {
        return MovePlayer(p.id, step.value), route;
      }
    }

    // 8. Wander
    var options := WanderOptions(here, p.lastCity);
    return MovePlayer(p.id, options[Draw.Pick(rng, 0, |options|)]), route;
  }

  /** `getNextBestAction`. `rng` answers the wander rule's random pick; the
      ghost `route` is the walk a movement rule follows. */
  method NextBestAction(s: GameState, rng: Draw.Rng) returns (a: Action, ghost route: seq<CityName>)
    requires ValidActive(s)
    requires ActivePlayer(s).actionsRemaining > 0 ==> ActivePlayer(s).currentCity in s.cities
    // Rule 0
    ensures ActivePlayer(s).actionsRemaining <= 0 ==> a == EndTurn
    // Rule 1: the first threat the hand can counter, paid with the first matching cards
    ensures a.ResolveThreat? ==>
              var p := ActivePlayer(s);
              var threats := s.cities[p.currentCity].threats;
              && p.actionsRemaining > 0 && a.city == p.currentCity
              && 0 <= a.threatIndex < |threats| && CanCounter(p.hand, threats[a.threatIndex])
              && (forall j :: 0 <= j < a.threatIndex ==> !CanCounter(p.hand, threats[j]))
              && a.cardIds == Payment(p.hand, threats[a.threatIndex])
              && Resolve.ResolveAccepted(s, a.city, a.threatIndex, a.cardIds)
    ensures var p := ActivePlayer(s);
            p.actionsRemaining > 0 ==>
              (a.ResolveThreat? <==>
                 exists k :: 0 <= k < |s.cities[p.currentCity].threats| && CanCounter(p.hand, s.cities[p.currentCity].threats[k]))
    // Rule 2
    ensures a.ClaimLegacy? <==> ActivePlayer(s).actionsRemaining > 0 && !a.ResolveThreat? && ClaimHere(s).Some?
    ensures a.ClaimLegacy? ==> a == ClaimLegacy(ActivePlayer(s).id, ClaimHere(s).value)
    // Every move is a step to a neighbour, which the reducer accepts
    ensures a.MovePlayer? ==>
              var p := ActivePlayer(s);
              && a.playerId == p.id && a.destination in Adjacency(p.currentCity)
              && (DistinctPlayerIds(s.players) ==> Resolve.MoveAccepted(s, a.playerId, a.destination))
    // Rules 3-8; the turn is ended with points left only on a threatened city
    ensures MustMove(s) ==> FollowsRules(s, rng, a, route)
    ensures a == EndTurn && ActivePlayer(s).actionsRemaining > 0 ==>
              |s.cities[ActivePlayer(s).currentCity].threats| > 0
  {
    route := [];
    var p := s.players[s.activePlayerIndex];
    if p.actionsRemaining <= 0 {
      return EndTurn, route;
    }
    var here := p.currentCity;
    var city := s.cities[here];

    // 1. Resolve a threat in the current city
    if |city.threats| > 0 {
      var i := FirstCounterable(p.hand, city.threats);
      if i.Some? {
        PaymentAccepted(s, i.value);
        return ResolveThreat(here, i.value, Payment(p.hand, city.threats[i.value])), route;
      }
    }

    // 2. Claim the legacy kept here
    var legacy := LegacyAt(here);
    if legacy.Some? {
      if !s.legaciesCollected.Has(legacy.value) && |p.hand| >= 5 {
        return ClaimLegacy(p.id, legacy.value), route;
      }
    }

    a, route := Head(s, rng);
    if a.MovePlayer? {
      MoveAccepted(s, a);
    }
  }

  /** A move of the active player to a neighbour, with a point left, is accepted
      once player ids are distinct. */
  lemma MoveAccepted(s: GameState, a: Action)
    requires ValidActive(s) && ActivePlayer(s).actionsRemaining > 0
    requires a.MovePlayer? && a.playerId == ActivePlayer(s).id && a.destination in Adjacency(ActivePlayer(s).currentCity)
    ensures DistinctPlayerIds(s.players) ==> Resolve.MoveAccepted(s, a.playerId, a.destination)
  {
    if DistinctPlayerIds(s.players) {
      FindPlayerById(s.players, s.activePlayerIndex);
    }
  }
}
