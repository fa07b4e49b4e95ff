/** The autoplay planner: a breadth-first search that returns the first step
    towards the nearest target, and the fixed priority list that picks the
    active player's next action. */
module Simulation {
  import opened Prelude
  import opened Constants
  import opened GameTypes
  import opened MapGraph

  // ---------------------------------------------------------------------------
  // Searching the map

  /** An entry of the search queue: a city and the walk that reached it. */
  datatype Entry = Entry(city: CityName, path: seq<CityName>)

  /** A walk from `start` that never steps onto the avoided city. */
  predicate Reaches(graph: CityName -> seq<CityName>, start: CityName, avoid: Option<CityName>, q: seq<CityName>)
  {
    IsWalk(graph, start, q) && Avoids(q, avoid)
  }

  /** The entry's walk leads from `start` to the entry's city, avoiding `avoid`. */
  predicate Tracks(graph: CityName -> seq<CityName>, start: CityName, avoid: Option<CityName>, e: Entry)
  {
    Reaches(graph, start, avoid, e.path) && WalkEnd(start, e.path) == e.city
  }

  /** No avoiding walk reaches the entry's city in fewer steps than the entry's walk. */
  ghost predicate ShortestTo(graph: CityName -> seq<CityName>, start: CityName, avoid: Option<CityName>, e: Entry)
  {
    forall q :: Reaches(graph, start, avoid, q) && WalkEnd(start, q) == e.city ==> |e.path| <= |q|
  }

  /** Every city some avoiding walk of fewer than `n` steps reaches has been expanded. */
  ghost predicate ExpandedBelow(graph: CityName -> seq<CityName>, start: CityName, avoid: Option<CityName>, n: nat, expanded: set<CityName>)
  {
    forall q :: Reaches(graph, start, avoid, q) && |q| < n ==> WalkEnd(start, q) in expanded
  }

  /** Every neighbour of an expanded city has been visited. */
  predicate Closed(graph: CityName -> seq<CityName>, expanded: set<CityName>, visited: set<CityName>)
  {
    forall c, n :: c in expanded && n in graph(c) ==> n in visited
  }

  /** The walks in the queue have non-decreasing lengths, at most one apart. */
  predicate Layered(queue: seq<Entry>)
  {
    forall i, j :: 0 <= i <= j < |queue| ==> |queue[i].path| <= |queue[j].path| <= |queue[i].path| + 1
  }

  function QueuedCities(queue: seq<Entry>): set<CityName>
  {
    set x | x in queue :: x.city
  }

  /** Every queued entry tracks a shortest avoiding walk to a visited city. */
  ghost predicate Sound(graph: CityName -> seq<CityName>, start: CityName, avoid: Option<CityName>,
                        queue: seq<Entry>, visited: set<CityName>)
  {
    forall x | x in queue :: Tracks(graph, start, avoid, x) && ShortestTo(graph, start, avoid, x) && x.city in visited
  }

  function AvoidSet(avoid: Option<CityName>): set<CityName>
  {
    if avoid.Some? then {avoid.value} else {}
  }

  /** Every city of the registry. */
  function AllCities(): set<CityName>
  {
    set i | 0 <= i < CityCount :: CityAt(i)
  }

  lemma InAllCities(c: CityName)
    ensures c in AllCities()
  {
    CityAtIndex(c);
  }

  /** A set holding every city: what bounds the search. */
  lemma Universe() returns (pool: set<CityName>)
    ensures forall c :: c in pool
  {
    pool := AllCities();
    forall c ensures c in pool {
      InAllCities(c);
    }
  }

  /** The last step of a non-empty walk, split off. */
  lemma LastStep(graph: CityName -> seq<CityName>, start: CityName, q: seq<CityName>)
    requires IsWalk(graph, start, q) && q != []
    ensures q == q[..|q| - 1] + [q[|q| - 1]]
    ensures IsWalk(graph, start, q[..|q| - 1])
    ensures WalkEnd(start, q) in graph(WalkEnd(start, q[..|q| - 1]))
  {
    assert q == q[..|q| - 1] + [q[|q| - 1]];
    WalkSnoc(graph, start, q[..|q| - 1], q[|q| - 1]);
  }

  /** The first step of an avoiding walk leaves `start` for a neighbour other than the avoided city. */
  lemma FirstStep(graph: CityName -> seq<CityName>, start: CityName, avoid: Option<CityName>, q: seq<CityName>)
    requires Reaches(graph, start, avoid, q) && q != []
    ensures q[0] in graph(start) && (avoid.Some? ==> q[0] != avoid.value)
  {
    assert Prev(start, q, 0) == start;
  }

  /** A city first seen while expanding a city `L` steps out is at least `L + 1` steps away. */
  lemma NewCityDistance(graph: CityName -> seq<CityName>, start: CityName, avoid: Option<CityName>, L: nat,
                        expanded: set<CityName>, visited: set<CityName>, n: CityName)
    requires ExpandedBelow(graph, start, avoid, L, expanded) && Closed(graph, expanded, visited)
    requires expanded <= visited && start in visited && n !in visited
    ensures forall q :: Reaches(graph, start, avoid, q) && WalkEnd(start, q) == n ==> L + 1 <= |q|
  {
    forall q | Reaches(graph, start, avoid, q) && WalkEnd(start, q) == n
      ensures L + 1 <= |q|
    {
      if |q| == L && q != [] {
        LastStep(graph, start, q);
      }
    }
  }

  /** A walk one step longer than every expanded distance ends on a visited
      city other than the avoided one. */
  lemma EndVisited(graph: CityName -> seq<CityName>, start: CityName, avoid: Option<CityName>, L: nat,
                   expanded: set<CityName>, visited: set<CityName>, q: seq<CityName>)
    requires ExpandedBelow(graph, start, avoid, L, expanded) && Closed(graph, expanded, visited)
    requires Reaches(graph, start, avoid, q) && |q| == L && q != []
    ensures WalkEnd(start, q) in visited && WalkEnd(start, q) !in AvoidSet(avoid)
  {
    LastStep(graph, start, q);
    assert Reaches(graph, start, avoid, q[..|q| - 1]);
  }

  /** The step of `NextLevel` for one walk of exactly `L` steps. */
  lemma NextLevelWalk(graph: CityName -> seq<CityName>, start: CityName, avoid: Option<CityName>, L: nat,
                      expanded: set<CityName>, visited: set<CityName>, queue: seq<Entry>, q: seq<CityName>)
    requires ExpandedBelow(graph, start, avoid, L, expanded) && Closed(graph, expanded, visited)
    requires start in expanded
    requires visited <= expanded + QueuedCities(queue) + AvoidSet(avoid)
    requires forall x | x in queue :: ShortestTo(graph, start, avoid, x) && L + 1 <= |x.path|
    requires Reaches(graph, start, avoid, q) && |q| == L
    ensures WalkEnd(start, q) in expanded
  {
    if q != [] {
      var x := WalkEnd(start, q);
      EndVisited(graph, start, avoid, L, expanded, visited, q);
      if x !in expanded {
        assert false;
      }
    }
  }

  /** When no queued city is closer than `L + 1` steps, every city up to `L`
      steps away has been expanded. */
  lemma NextLevel(graph: CityName -> seq<CityName>, start: CityName, avoid: Option<CityName>, L: nat,
                  expanded: set<CityName>, visited: set<CityName>, queue: seq<Entry>)
    requires ExpandedBelow(graph, start, avoid, L, expanded) && Closed(graph, expanded, visited)
    requires start in expanded
    requires visited <= expanded + QueuedCities(queue) + AvoidSet(avoid)
    requires forall x | x in queue :: ShortestTo(graph, start, avoid, x) && L + 1 <= |x.path|
    ensures ExpandedBelow(graph, start, avoid, L + 1, expanded)
  {
    forall q | Reaches(graph, start, avoid, q) && |q| < L + 1
      ensures WalkEnd(start, q) in expanded
    {
      if |q| == L {
        NextLevelWalk(graph, start, avoid, L, expanded, visited, queue, q);
      }
    }
  }

  /** With nothing left queued, every city an avoiding walk reaches has been expanded. */
  lemma {:induction false} Exhausted(graph: CityName -> seq<CityName>, start: CityName, avoid: Option<CityName>, n: nat,
                                     expanded: set<CityName>, visited: set<CityName>)
    requires Closed(graph, expanded, visited) && start in expanded
    requires visited <= expanded + AvoidSet(avoid)
    ensures ExpandedBelow(graph, start, avoid, n, expanded)
    decreases n
  {
    if n > 0 {
      Exhausted(graph, start, avoid, n - 1, expanded, visited);
      NextLevel(graph, start, avoid, n - 1, expanded, visited, []);
    }
  }

  /** Dequeuing keeps the layers ordered. */
  lemma LayeredTail(queue: seq<Entry>)
    requires Layered(queue) && queue != []
    ensures Layered(queue[1..])
  {
    forall i, j | 0 <= i <= j < |queue| - 1
      ensures |queue[1..][i].path| <= |queue[1..][j].path| <= |queue[1..][i].path| + 1
    {
      assert queue[1..][i] == queue[i + 1] && queue[1..][j] == queue[j + 1];
    }
  }

  /** Every queued walk is as long as the front one, or one step longer. */
  lemma LayeredFront(queue: seq<Entry>)
    requires Layered(queue) && queue != []
    ensures forall x | x in queue :: |queue[0].path| <= |x.path| <= |queue[0].path| + 1
  {
    forall x | x in queue
      ensures |queue[0].path| <= |x.path| <= |queue[0].path| + 1
    {
      var i :| 0 <= i < |queue| && queue[i] == x;
    }
  }

  /** Layers stay ordered when walks one step longer than the front are appended. */
  lemma LayeredAppend(tail: seq<Entry>, queue: seq<Entry>, L: nat)
    requires Layered(tail) && |tail| <= |queue| && queue[..|tail|] == tail
    requires forall x | x in tail :: L <= |x.path| <= L + 1
    requires forall x | x in queue[|tail|..] :: |x.path| == L + 1
    ensures Layered(queue)
  {
    forall i, j | 0 <= i <= j < |queue|
      ensures |queue[i].path| <= |queue[j].path| <= |queue[i].path| + 1
    {
      if j < |tail| {
        assert queue[i] == tail[i] && queue[j] == tail[j];
      } else {
        assert queue[j] == queue[|tail|..][j - |tail|];
        if i < |tail| {
          assert queue[i] == tail[i];
        } else {
          assert queue[i] == queue[|tail|..][i - |tail|];
        }
      }
    }
  }

  /** The entry for a city first seen from `e` tracks a shortest avoiding walk to it. */
  lemma NewEntry(graph: CityName -> seq<CityName>, start: CityName, avoid: Option<CityName>,
                 expanded: set<CityName>, visited: set<CityName>, e: Entry, n: CityName)
    requires Tracks(graph, start, avoid, e) && n in graph(e.city)
    requires ExpandedBelow(graph, start, avoid, |e.path|, expanded) && Closed(graph, expanded, visited)
    requires expanded <= visited && start in visited && AvoidSet(avoid) <= visited && n !in visited
    ensures Tracks(graph, start, avoid, Entry(n, e.path + [n]))
    ensures ShortestTo(graph, start, avoid, Entry(n, e.path + [n]))
  {
    NewCityDistance(graph, start, avoid, |e.path|, expanded, visited, n);
    WalkSnoc(graph, start, e.path, n);
  }

  /** The first target dequeued is at least as close as any target an avoiding walk reaches. */
  lemma FoundNearest(graph: CityName -> seq<CityName>, start: CityName, avoid: Option<CityName>,
                     targets: seq<CityName>, expanded: set<CityName>, route: seq<CityName>)
    requires ExpandedBelow(graph, start, avoid, |route|, expanded)
    requires forall c :: c in expanded ==> c !in targets
    ensures forall q :: Reaches(graph, start, avoid, q) && WalkEnd(start, q) in targets ==> |route| <= |q|
  {
  }

  /** Queueing a sound entry keeps the queue sound. */
  lemma SoundSnoc(graph: CityName -> seq<CityName>, start: CityName, avoid: Option<CityName>,
                  queue: seq<Entry>, visited: set<CityName>, next: Entry, visited': set<CityName>)
    requires Sound(graph, start, avoid, queue, visited) && visited <= visited'
    requires Tracks(graph, start, avoid, next) && ShortestTo(graph, start, avoid, next) && next.city in visited'
    ensures Sound(graph, start, avoid, queue + [next], visited')
  {
    forall x | x in queue + [next]
      ensures Tracks(graph, start, avoid, x) && ShortestTo(graph, start, avoid, x) && x.city in visited'
    {
      if x != next {
        assert x in queue;
      }
    }
  }

  /** Expanding a city whose neighbours are all visited keeps the expanded cities closed. */
  lemma ClosedStep(graph: CityName -> seq<CityName>, expanded: set<CityName>, visited: set<CityName>,
                   c: CityName, visited': set<CityName>)
    requires Closed(graph, expanded, visited) && visited <= visited'
    requires forall n | n in graph(c) :: n in visited'
    ensures Closed(graph, expanded + {c}, visited')
  {
  }

  /** Every visited city stays expanded, queued or avoided across one expansion. */
  lemma CoverStep(visited: set<CityName>, visited': set<CityName>, expanded: set<CityName>, c: CityName,
                  before: set<CityName>, tail: set<CityName>, pushed: set<CityName>, avoided: set<CityName>)
    requires visited <= expanded + before + avoided
    requires before == {c} + tail
    requires visited' - visited <= pushed
    ensures visited' <= (expanded + {c}) + (tail + pushed) + avoided
  {
  }

  /** More expanded cities keep every distance bound. */
  lemma ExpandedMore(graph: CityName -> seq<CityName>, start: CityName, avoid: Option<CityName>,
                     n: nat, expanded: set<CityName>, c: CityName)
    requires ExpandedBelow(graph, start, avoid, n, expanded)
    ensures ExpandedBelow(graph, start, avoid, n, expanded + {c})
  {
  }

  /** Appending an entry queues its city. */
  lemma QueuedSnoc(queue: seq<Entry>, x: Entry)
    ensures QueuedCities(queue + [x]) == QueuedCities(queue) + {x.city}
  {
    assert forall y :: y in queue + [x] <==> y in queue || y == x;
  }

  /** Extending the queue keeps every queued city queued. */
  lemma QueuedPrefix(tail: seq<Entry>, queue: seq<Entry>)
    requires |tail| <= |queue| && queue[..|tail|] == tail
    ensures QueuedCities(queue) == QueuedCities(tail) + QueuedCities(queue[|tail|..])
  {
    assert queue == tail + queue[|tail|..];
    assert forall y :: y in queue <==> y in tail || y in queue[|tail|..];
  }

  /** Dequeuing the front entry leaves the others queued. */
  lemma QueuedTail(queue: seq<Entry>)
    requires queue != []
    ensures QueuedCities(queue) == {queue[0].city} + QueuedCities(queue[1..])
  {
    assert forall y :: y in queue <==> y == queue[0] || y in queue[1..];
  }

  /** What expanding `e` keeps after each neighbour: the old queue is a
      prefix, every pushed entry is one step further than `e` and marks a
      city that was not visited, and the queue stays sound. */
  ghost predicate Pushed(graph: CityName -> seq<CityName>, start: CityName, avoid: Option<CityName>,
                         e: Entry, queue: seq<Entry>, visited: set<CityName>,
                         queue': seq<Entry>, visited': set<CityName>)
  {
    && |queue| <= |queue'| && queue'[..|queue|] == queue
    && (forall x | x in queue'[|queue|..] :: |x.path| == |e.path| + 1)
    && Sound(graph, start, avoid, queue', visited')
    && visited <= visited' && visited' - visited <= QueuedCities(queue'[|queue|..])
    && QueuedCities(queue'[|queue|..]) !! visited
    && (queue' == queue ==> visited' == visited)
  }

  /** Pushing an unvisited neighbour of `e` keeps `Pushed`. */
  lemma PushStep(graph: CityName -> seq<CityName>, start: CityName, avoid: Option<CityName>,
                 expanded: set<CityName>, e: Entry, queue: seq<Entry>, visited: set<CityName>,
                 queue': seq<Entry>, visited': set<CityName>, n: CityName)
    requires Tracks(graph, start, avoid, e)
    requires ExpandedBelow(graph, start, avoid, |e.path|, expanded) && Closed(graph, expanded, visited)
    requires expanded <= visited && start in visited && AvoidSet(avoid) <= visited
    requires Pushed(graph, start, avoid, e, queue, visited, queue', visited')
    requires n in graph(e.city) && n !in visited'
    ensures Pushed(graph, start, avoid, e, queue, visited, queue' + [Entry(n, e.path + [n])], visited' + {n})
  {
    NewEntry(graph, start, avoid, expanded, visited', e, n);
    var next := Entry(n, e.path + [n]);
    QueuedSnoc(queue'[|queue|..], next);
    assert (queue' + [next])[|queue|..] == queue'[|queue|..] + [next];
    assert (queue' + [next])[..|queue|] == queue;
    SoundSnoc(graph, start, avoid, queue', visited', next, visited' + {n});
  }

  /** The inner loop of `findPath`: every neighbour of `e.city` not yet
      visited is marked visited and queued with its walk extended by one step. */
  method Expand(graph: CityName -> seq<CityName>, start: CityName, avoid: Option<CityName>,
                e: Entry, queue: seq<Entry>, visited: set<CityName>, ghost expanded: set<CityName>)
      returns (queue': seq<Entry>, visited': set<CityName>)
    requires Tracks(graph, start, avoid, e)
    requires ExpandedBelow(graph, start, avoid, |e.path|, expanded) && Closed(graph, expanded, visited)
    requires expanded <= visited && start in visited && AvoidSet(avoid) <= visited
    requires Sound(graph, start, avoid, queue, visited)
    ensures |queue| <= |queue'| && queue'[..|queue|] == queue
    ensures forall x | x in queue'[|queue|..] :: |x.path| == |e.path| + 1
    ensures Sound(graph, start, avoid, queue', visited')
    ensures visited <= visited' && visited' - visited <= QueuedCities(queue'[|queue|..])
    ensures forall n | n in graph(e.city) :: n in visited'
    ensures QueuedCities(queue'[|queue|..]) !! visited
    ensures queue' == queue ==> visited' == visited
  {
    queue', visited' := queue, visited;
    var neighbors := graph(e.city);
    for k := 0 to |neighbors|
      invariant Pushed(graph, start, avoid, e, queue, visited, queue', visited')
      invariant forall j :: 0 <= j < k ==> neighbors[j] in visited'
    {
      var n := neighbors[k];
      if n !in visited' {
        PushStep(graph, start, avoid, expanded, e, queue, visited, queue', visited', n);
        visited' := visited' + {n};
        queue' := queue' + [Entry(n, e.path + [n])];
      }
    }
  }

  /** Each expansion that queues something marks a new city: the search ends. */
  lemma Progress(graph: CityName -> seq<CityName>, start: CityName, avoid: Option<CityName>,
                 queue: seq<Entry>, queue': seq<Entry>, visited: set<CityName>, visited': set<CityName>,
                 pool: set<CityName>)
    requires forall c :: c in pool
    requires visited <= visited' && Sound(graph, start, avoid, queue', visited')
    requires |queue| <= |queue'| && queue'[..|queue|] == queue
    requires QueuedCities(queue'[|queue|..]) !! visited
    ensures queue' == queue || pool - visited' < pool - visited
  {
    if queue' != queue {
      var x := queue'[|queue|];
      assert x in queue'[|queue|..];
      assert x.city in QueuedCities(queue'[|queue|..]);
      assert x in queue';
      assert x.city in pool - visited && x.city !in pool - visited';
    }
  }

  /** The state of the search between two dequeues: what the loop of
      `findPath` keeps. */
  ghost predicate Searching(graph: CityName -> seq<CityName>, start: CityName, targets: seq<CityName>,
                            avoid: Option<CityName>, queue: seq<Entry>, visited: set<CityName>,
                            expanded: set<CityName>)
  {
    && Sound(graph, start, avoid, queue, visited)
    && Layered(queue)
    && start in visited && AvoidSet(avoid) <= visited && expanded <= visited
    && visited <= expanded + QueuedCities(queue) + AvoidSet(avoid)
    && Closed(graph, expanded, visited)
    && (forall c :: c in expanded ==> c !in targets)
    && (|queue| > 0 ==> ExpandedBelow(graph, start, avoid, |queue[0].path|, expanded))
    && (start in expanded || queue == [Entry(start, [])])
  }

  /** Expanding the front entry, when it is no target, keeps the search state. */
  lemma SearchStep(graph: CityName -> seq<CityName>, start: CityName, targets: seq<CityName>,
                   avoid: Option<CityName>, before: seq<Entry>, visited0: set<CityName>,
                   expanded: set<CityName>, queue: seq<Entry>, visited: set<CityName>)
    requires Searching(graph, start, targets, avoid, before, visited0, expanded)
    requires before != [] && before[0].city !in targets
    requires |before| - 1 <= |queue| && queue[..|before| - 1] == before[1..]
    requires forall x | x in queue[|before| - 1..] :: |x.path| == |before[0].path| + 1
    requires Sound(graph, start, avoid, queue, visited)
    requires visited0 <= visited && visited - visited0 <= QueuedCities(queue[|before| - 1..])
    requires forall n | n in graph(before[0].city) :: n in visited
    ensures Searching(graph, start, targets, avoid, queue, visited, expanded + {before[0].city})
  {
    var e := before[0];
    var tail := before[1..];
    assert e in before;
    QueuedTail(before);
    LayeredFront(before);
    assert forall x | x in tail :: x in before;
    LayeredTail(before);
    QueuedPrefix(tail, queue);
    CoverStep(visited0, visited, expanded, e.city, QueuedCities(before), QueuedCities(tail),
              QueuedCities(queue[|tail|..]), AvoidSet(avoid));
    ClosedStep(graph, expanded, visited0, e.city, visited);
    ExpandedMore(graph, start, avoid, |e.path|, expanded, e.city);
    LayeredAppend(tail, queue, |e.path|);
    if |queue| > 0 {
      LayeredFront(queue);
      if |queue[0].path| == |e.path| + 1 {
        NextLevel(graph, start, avoid, |e.path|, expanded + {e.city}, visited, queue);
      }
    }
  }

  /** The search starts from `start` alone, with the avoided city marked. */
  lemma SearchStart(graph: CityName -> seq<CityName>, start: CityName, targets: seq<CityName>,
                    avoid: Option<CityName>)
    ensures Searching(graph, start, targets, avoid, [Entry(start, [])], {start} + AvoidSet(avoid), {})
  {
    QueuedSnoc([], Entry(start, []));
  }

  /** The front of the queue may be expanded. */
  lemma FrontReady(graph: CityName -> seq<CityName>, start: CityName, targets: seq<CityName>,
                   avoid: Option<CityName>, queue: seq<Entry>, visited: set<CityName>, expanded: set<CityName>)
    requires Searching(graph, start, targets, avoid, queue, visited, expanded) && queue != []
    ensures Tracks(graph, start, avoid, queue[0])
    ensures ExpandedBelow(graph, start, avoid, |queue[0].path|, expanded) && Closed(graph, expanded, visited)
    ensures expanded <= visited && start in visited && AvoidSet(avoid) <= visited
    ensures Sound(graph, start, avoid, queue[1..], visited)
  {
    assert queue[0] in queue;
    assert forall x | x in queue[1..] :: x in queue;
  }

  /** A target at the front of the queue ends a shortest avoiding walk to any target. */
  lemma FrontFound(graph: CityName -> seq<CityName>, start: CityName, targets: seq<CityName>,
                   avoid: Option<CityName>, queue: seq<Entry>, visited: set<CityName>, expanded: set<CityName>)
    requires Searching(graph, start, targets, avoid, queue, visited, expanded)
    requires queue != [] && queue[0].city in targets && start !in targets
    ensures var route := queue[0].path;
            && route != [] && route[0] in graph(start) && (avoid.Some? ==> route[0] != avoid.value)
            && Reaches(graph, start, avoid, route) && WalkEnd(start, route) in targets
            && forall q :: Reaches(graph, start, avoid, q) && WalkEnd(start, q) in targets ==> |route| <= |q|
  {
    var e := queue[0];
    assert e in queue;
    assert e.path != [];
    FirstStep(graph, start, avoid, e.path);
    FoundNearest(graph, start, avoid, targets, expanded, e.path);
  }

  /** An exhausted search leaves no target reachable by an avoiding walk. */
  lemma NoneFound(graph: CityName -> seq<CityName>, start: CityName, targets: seq<CityName>,
                  avoid: Option<CityName>, visited: set<CityName>, expanded: set<CityName>)
    requires Searching(graph, start, targets, avoid, [], visited, expanded)
    ensures forall q :: Reaches(graph, start, avoid, q) ==> WalkEnd(start, q) !in targets
  {
    assert QueuedCities([]) == {};
    forall q | Reaches(graph, start, avoid, q)
      ensures WalkEnd(start, q) !in targets
    {
      Exhausted(graph, start, avoid, |q| + 1, expanded, visited);
    }
  }

  /** `findPath`: breadth-first search from `start` for the nearest city of
      `targets` over the adjacency table `graph`, with `avoid` marked visited
      before the search begins. The answer is the first step of the walk
      found; `route` is that walk. */
  method FindPath(graph: CityName -> seq<CityName>, start: CityName, targets: seq<CityName>, avoid: Option<CityName>)
      returns (r: Option<CityName>, ghost route: seq<CityName>)
    ensures start in targets ==> r.None?
    ensures r.Some? ==> r.value in graph(start) && (avoid.Some? ==> r.value != avoid.value)
    ensures r.Some? ==> route != [] && route[0] == r.value
                        && Reaches(graph, start, avoid, route) && WalkEnd(start, route) in targets
    ensures r.Some? ==> forall q :: Reaches(graph, start, avoid, q) && WalkEnd(start, q) in targets ==> |route| <= |q|
    ensures r.None? && start !in targets ==>
              forall q :: Reaches(graph, start, avoid, q) ==> WalkEnd(start, q) !in targets
  {
    route := [];
    if start in targets {
      return None, route;
    }
    var queue := [Entry(start, [])];
    var visited := {start};
    if avoid.Some? {
      visited := visited + {avoid.value};
    }
    ghost var expanded: set<CityName> := {};
    ghost var pool := Universe();
    SearchStart(graph, start, targets, avoid);

    while |queue| > 0
      invariant Searching(graph, start, targets, avoid, queue, visited, expanded)
      decreases pool - visited, |queue|
    {
      ghost var before := queue;
      ghost var visited0 := visited;
      var e := queue[0];
      queue := queue[1..];
      if e.city in targets {
        FrontFound(graph, start, targets, avoid, before, visited0, expanded);
        return Some(e.path[0]), e.path;
      }
      FrontReady(graph, start, targets, avoid, before, visited, expanded);
      queue, visited := Expand(graph, start, avoid, e, queue, visited, expanded);
      Progress(graph, start, avoid, before[1..], queue, visited0, visited, pool);
      SearchStep(graph, start, targets, avoid, before, visited0, expanded, queue, visited);
      expanded := expanded + {e.city};
    }
    NoneFound(graph, start, targets, avoid, visited, expanded);
    return None, route;
  }
}
