/** Walks over the directed adjacency table. A walk from a city is the list of
    cities stepped onto, one move at a time; the empty walk stays put. These
    notions state what the planner's breadth-first search finds and that the
    board is strongly connected. */
module MapGraph {
  import opened Prelude
  import opened Constants

  /** The city a walk from `from` stands on before its `i`-th step. */
  function Prev(from: CityName, q: seq<CityName>, i: nat): CityName
    requires i < |q|
  {
    if i == 0 then from else q[i - 1]
  }

  /** Every city of `q` is a neighbour of the one before it (of `from` for the first). */
  predicate IsWalk(graph: CityName -> seq<CityName>, from: CityName, q: seq<CityName>)
  {
    forall i {:trigger Prev(from, q, i)} :: 0 <= i < |q| ==> q[i] in graph(Prev(from, q, i))
  }

  /** Where a walk from `from` ends. */
  function WalkEnd(from: CityName, q: seq<CityName>): CityName
  {
    if q == [] then from else q[|q| - 1]
  }

  /** The walk never steps onto the avoided city, if one is given. */
  predicate Avoids(q: seq<CityName>, avoid: Option<CityName>)
  {
    avoid.Some? ==> avoid.value !in q
  }

  /** Extending a walk by one city is allowed exactly when that city neighbours its end. */
  lemma WalkSnoc(graph: CityName -> seq<CityName>, from: CityName, q: seq<CityName>, v: CityName)
    ensures IsWalk(graph, from, q + [v]) <==> IsWalk(graph, from, q) && v in graph(WalkEnd(from, q))
  {
    var w := q + [v];
    assert Prev(from, w, |q|) == WalkEnd(from, q);
    if IsWalk(graph, from, w) {
      forall i | 0 <= i < |q|
        ensures q[i] in graph(Prev(from, q, i))
      {
        assert w[i] == q[i] && Prev(from, w, i) == Prev(from, q, i);
      }
    }
    if IsWalk(graph, from, q) && v in graph(WalkEnd(from, q)) {
      forall i | 0 <= i < |w|
        ensures w[i] in graph(Prev(from, w, i))
      {
        if i < |q| {
          assert w[i] == q[i] && Prev(from, w, i) == Prev(from, q, i);
        }
      }
    }
  }

  /** Two walks, the second starting where the first ends, join into one. */
  lemma WalkAppend(graph: CityName -> seq<CityName>, from: CityName, p: seq<CityName>, q: seq<CityName>)
    requires IsWalk(graph, from, p) && IsWalk(graph, WalkEnd(from, p), q)
    ensures IsWalk(graph, from, p + q)
    ensures WalkEnd(from, p + q) == WalkEnd(WalkEnd(from, p), q)
  {
    var w := p + q;
    forall i | 0 <= i < |w|
      ensures w[i] in graph(Prev(from, w, i))
    {
      if i < |p| {
        assert w[i] == p[i] && Prev(from, w, i) == Prev(from, p, i);
      } else {
        assert w[i] == q[i - |p|] && Prev(from, w, i) == Prev(WalkEnd(from, p), q, i - |p|);
      }
    }
  }

  /** A walk from each city to the capital. */
  function RouteToCapital(c: CityName): seq<CityName>
  {
    match c
    case Dnyeszter => [Borisztenesz, Etil]
    case Kolozsvar => [Gyulafehervar, Etil]
    case Varhely => [Gyulafehervar, Etil]
    case Kasgar => [Turfan, Karakorum, Szamarkand, Etil]
    case Kobdo => [Ordosz, Karakorum, Szamarkand, Etil]
    case Karakorum => [Szamarkand, Etil]
    case Szombathely => [Buda, Etil]
    case Gyulafehervar => [Etil]
    case Borisztenesz => [Etil]
    case Buhara => [Szamarkand, Etil]
    case Turfan => [Karakorum, Szamarkand, Etil]
    case Ordosz => [Karakorum, Szamarkand, Etil]
    case Buda => [Etil]
    case Szerem => [Etil]
    case Etil => []
    case Don => [Etil]
    case Szamarkand => [Etil]
    case Kuban => [Don, Etil]
    case Pecs => [Buda, Etil]
    case Szeged => [Etil]
    case Nandorfehervar => [Szerem, Etil]
    case Temesvar => [Etil]
    case Varna => [Etil]
    case Odesszosz => [Varna, Etil]
    case Partiskum => [Szeged, Etil]
    case Nikapoly => [Varna, Etil]
    case Aracsa => [Temesvar, Etil]
  }

  /** A walk from the capital to each city. */
  function RouteFromCapital(c: CityName): seq<CityName>
  {
    match c
    case Dnyeszter => [Borisztenesz, Dnyeszter]
    case Kolozsvar => [Gyulafehervar, Kolozsvar]
    case Varhely => [Gyulafehervar, Varhely]
    case Kasgar => [Szamarkand, Turfan, Kasgar]
    case Kobdo => [Szamarkand, Karakorum, Ordosz, Kobdo]
    case Karakorum => [Szamarkand, Karakorum]
    case Szombathely => [Buda, Szombathely]
    case Gyulafehervar => [Gyulafehervar]
    case Borisztenesz => [Borisztenesz]
    case Buhara => [Szamarkand, Buhara]
    case Turfan => [Szamarkand, Turfan]
    case Ordosz => [Szamarkand, Karakorum, Ordosz]
    case Buda => [Buda]
    case Szerem => [Szerem]
    case Etil => []
    case Don => [Don]
    case Szamarkand => [Szamarkand]
    case Kuban => [Don, Kuban]
    case Pecs => [Buda, Pecs]
    case Szeged => [Szeged]
    case Nandorfehervar => [Szerem, Nandorfehervar]
    case Temesvar => [Temesvar]
    case Varna => [Varna]
    case Odesszosz => [Varna, Odesszosz]
    case Partiskum => [Szeged, Partiskum]
    case Nikapoly => [Varna, Nikapoly]
    case Aracsa => [Temesvar, Aracsa]
  }

  /** A step-by-step check of a walk over the map, which evaluates on literal walks. */
  predicate MapWalk(from: CityName, q: seq<CityName>)
    decreases |q|
  {
    q == [] || (q[0] in Adjacency(from) && MapWalk(q[0], q[1..]))
  }

  lemma {:induction false} MapWalkIsWalk(from: CityName, q: seq<CityName>)
    requires MapWalk(from, q)
    ensures IsWalk(Adjacency, from, q)
    decreases |q|
  {
    if q != [] {
      MapWalkIsWalk(q[0], q[1..]);
      forall i | 0 <= i < |q|
        ensures q[i] in Adjacency(Prev(from, q, i))
      {
        if i > 0 {
          assert q[i] == q[1..][i - 1] && Prev(from, q, i) == Prev(q[0], q[1..], i - 1);
        }
      }
    }
  }

  /** The table walk of `c` checked step by step. */
  lemma TableToCapital(c: CityName)
    ensures MapWalk(c, RouteToCapital(c)) && WalkEnd(c, RouteToCapital(c)) == Etil
  {
    match c
    case Dnyeszter => assert MapWalk(Borisztenesz, [Etil]); assert MapWalk(Dnyeszter, [Borisztenesz, Etil]);
    case Kolozsvar => assert MapWalk(Gyulafehervar, [Etil]); assert MapWalk(Kolozsvar, [Gyulafehervar, Etil]);
    case Varhely => assert MapWalk(Gyulafehervar, [Etil]); assert MapWalk(Varhely, [Gyulafehervar, Etil]);
    case Kasgar => assert MapWalk(Szamarkand, [Etil]); assert MapWalk(Karakorum, [Szamarkand, Etil]); assert MapWalk(Turfan, [Karakorum, Szamarkand, Etil]); assert MapWalk(Kasgar, [Turfan, Karakorum, Szamarkand, Etil]);
    case Kobdo => assert MapWalk(Szamarkand, [Etil]); assert MapWalk(Karakorum, [Szamarkand, Etil]); assert MapWalk(Ordosz, [Karakorum, Szamarkand, Etil]); assert MapWalk(Kobdo, [Ordosz, Karakorum, Szamarkand, Etil]);
    case Karakorum => assert MapWalk(Szamarkand, [Etil]); assert MapWalk(Karakorum, [Szamarkand, Etil]);
    case Szombathely => assert MapWalk(Buda, [Etil]); assert MapWalk(Szombathely, [Buda, Etil]);
    case Gyulafehervar => assert MapWalk(Gyulafehervar, [Etil]);
    case Borisztenesz => assert MapWalk(Borisztenesz, [Etil]);
    case Buhara => assert MapWalk(Szamarkand, [Etil]); assert MapWalk(Buhara, [Szamarkand, Etil]);
    case Turfan => assert MapWalk(Szamarkand, [Etil]); assert MapWalk(Karakorum, [Szamarkand, Etil]); assert MapWalk(Turfan, [Karakorum, Szamarkand, Etil]);
    case Ordosz => assert MapWalk(Szamarkand, [Etil]); assert MapWalk(Karakorum, [Szamarkand, Etil]); assert MapWalk(Ordosz, [Karakorum, Szamarkand, Etil]);
    case Buda => assert MapWalk(Buda, [Etil]);
    case Szerem => assert MapWalk(Szerem, [Etil]);
    case Etil => 
    case Don => assert MapWalk(Don, [Etil]);
    case Szamarkand => assert MapWalk(Szamarkand, [Etil]);
    case Kuban => assert MapWalk(Don, [Etil]); assert MapWalk(Kuban, [Don, Etil]);
    case Pecs => assert MapWalk(Buda, [Etil]); assert MapWalk(Pecs, [Buda, Etil]);
    case Szeged => assert MapWalk(Szeged, [Etil]);
    case Nandorfehervar => assert MapWalk(Szerem, [Etil]); assert MapWalk(Nandorfehervar, [Szerem, Etil]);
    case Temesvar => assert MapWalk(Temesvar, [Etil]);
    case Varna => assert MapWalk(Varna, [Etil]);
    case Odesszosz => assert MapWalk(Varna, [Etil]); assert MapWalk(Odesszosz, [Varna, Etil]);
    case Partiskum => assert MapWalk(Szeged, [Etil]); assert MapWalk(Partiskum, [Szeged, Etil]);
    case Nikapoly => assert MapWalk(Varna, [Etil]); assert MapWalk(Nikapoly, [Varna, Etil]);
    case Aracsa => assert MapWalk(Temesvar, [Etil]); assert MapWalk(Aracsa, [Temesvar, Etil]);
  }

  /** Every city can reach the capital. */
  lemma RoutesToCapital(c: CityName)
    ensures IsWalk(Adjacency, c, RouteToCapital(c)) && WalkEnd(c, RouteToCapital(c)) == Etil
  {
    TableToCapital(c);
    MapWalkIsWalk(c, RouteToCapital(c));
  }

  /** The table walk of `c` checked step by step. */
  lemma TableFromCapital(c: CityName)
    ensures MapWalk(Etil, RouteFromCapital(c)) && WalkEnd(Etil, RouteFromCapital(c)) == c
  {
    match c
    case Dnyeszter => assert MapWalk(Borisztenesz, [Dnyeszter]); assert MapWalk(Etil, [Borisztenesz, Dnyeszter]);
    case Kolozsvar => assert MapWalk(Gyulafehervar, [Kolozsvar]); assert MapWalk(Etil, [Gyulafehervar, Kolozsvar]);
    case Varhely => assert MapWalk(Gyulafehervar, [Varhely]); assert MapWalk(Etil, [Gyulafehervar, Varhely]);
    case Kasgar => assert MapWalk(Turfan, [Kasgar]); assert MapWalk(Szamarkand, [Turfan, Kasgar]); assert MapWalk(Etil, [Szamarkand, Turfan, Kasgar]);
    case Kobdo => assert MapWalk(Ordosz, [Kobdo]); assert MapWalk(Karakorum, [Ordosz, Kobdo]); assert MapWalk(Szamarkand, [Karakorum, Ordosz, Kobdo]); assert MapWalk(Etil, [Szamarkand, Karakorum, Ordosz, Kobdo]);
    case Karakorum => assert MapWalk(Szamarkand, [Karakorum]); assert MapWalk(Etil, [Szamarkand, Karakorum]);
    case Szombathely => assert MapWalk(Buda, [Szombathely]); assert MapWalk(Etil, [Buda, Szombathely]);
    case Gyulafehervar => assert MapWalk(Etil, [Gyulafehervar]);
    case Borisztenesz => assert MapWalk(Etil, [Borisztenesz]);
    case Buhara => assert MapWalk(Szamarkand, [Buhara]); assert MapWalk(Etil, [Szamarkand, Buhara]);
    case Turfan => assert MapWalk(Szamarkand, [Turfan]); assert MapWalk(Etil, [Szamarkand, Turfan]);
    case Ordosz => assert MapWalk(Karakorum, [Ordosz]); assert MapWalk(Szamarkand, [Karakorum, Ordosz]); assert MapWalk(Etil, [Szamarkand, Karakorum, Ordosz]);
    case Buda => assert MapWalk(Etil, [Buda]);
    case Szerem => assert MapWalk(Etil, [Szerem]);
    case Etil => 
    case Don => assert MapWalk(Etil, [Don]);
    case Szamarkand => assert MapWalk(Etil, [Szamarkand]);
    case Kuban => assert MapWalk(Don, [Kuban]); assert MapWalk(Etil, [Don, Kuban]);
    case Pecs => assert MapWalk(Buda, [Pecs]); assert MapWalk(Etil, [Buda, Pecs]);
    case Szeged => assert MapWalk(Etil, [Szeged]);
    case Nandorfehervar => assert MapWalk(Szerem, [Nandorfehervar]); assert MapWalk(Etil, [Szerem, Nandorfehervar]);
    case Temesvar => assert MapWalk(Etil, [Temesvar]);
    case Varna => assert MapWalk(Etil, [Varna]);
    case Odesszosz => assert MapWalk(Varna, [Odesszosz]); assert MapWalk(Etil, [Varna, Odesszosz]);
    case Partiskum => assert MapWalk(Szeged, [Partiskum]); assert MapWalk(Etil, [Szeged, Partiskum]);
    case Nikapoly => assert MapWalk(Varna, [Nikapoly]); assert MapWalk(Etil, [Varna, Nikapoly]);
    case Aracsa => assert MapWalk(Temesvar, [Aracsa]); assert MapWalk(Etil, [Temesvar, Aracsa]);
  }

  /** Every city can be reached from the capital. */
  lemma RoutesFromCapital(c: CityName)
    ensures IsWalk(Adjacency, Etil, RouteFromCapital(c)) && WalkEnd(Etil, RouteFromCapital(c)) == c
  {
    TableFromCapital(c);
    MapWalkIsWalk(Etil, RouteFromCapital(c));
  }

  /** A walk between any two cities, through the capital. */
  function Route(a: CityName, b: CityName): seq<CityName>
  {
    RouteToCapital(a) + RouteFromCapital(b)
  }

  /** The directed map is strongly connected: `Route(a, b)` leads from `a` to `b`. */
  lemma StronglyConnected(a: CityName, b: CityName)
    ensures IsWalk(Adjacency, a, Route(a, b)) && WalkEnd(a, Route(a, b)) == b
  {
    RoutesToCapital(a);
    RoutesFromCapital(b);
    WalkAppend(Adjacency, a, RouteToCapital(a), RouteFromCapital(b));
  }

  /** A walk between any two cities, as one function, for proofs that only
      need some walk to exist. */
  lemma Walks() returns (way: (CityName, CityName) -> seq<CityName>)
    ensures forall a, b :: IsWalk(Adjacency, a, way(a, b)) && WalkEnd(a, way(a, b)) == b
  {
    way := Route;
    forall a, b
      ensures IsWalk(Adjacency, a, way(a, b)) && WalkEnd(a, way(a, b)) == b
    {
      StronglyConnected(a, b);
    }
  }
}
