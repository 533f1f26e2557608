/** The causal graph: registered events, happened-before edges, and the three searches over them.

    Nothing is assumed of the edges: they may form cycles and may name events that were never registered.
 */
module CausalGraphs {
  import opened Sizes
  import opened VectorClock

  datatype EventId = EventId(name: string)

  datatype EventType = InternalEvent | SendEvent | ReceiveEvent

  datatype MessageId = NoMessage | MessageId(name: string)

  datatype Event = Event(id: EventId, process: Pid, kind: EventType, localSeq: nat, message: MessageId)

  type Edges = map<EventId, set<EventId>>

  const MAX_BFS_DEPTH := 10_000

  function Next(edges: Edges, a: EventId): set<EventId> {
    if a in edges then edges[a] else {}
  }

  // ---- Paths ----

  /** A path of `n` edges from `a` to `b`. */
  ghost predicate PathOf(edges: Edges, a: EventId, b: EventId, n: nat)
    decreases n
  {
    if n == 0 then a == b else exists c :: PathOf(edges, a, c, n - 1) && b in Next(edges, c)
  }

  ghost predicate HasPath(edges: Edges, a: EventId, b: EventId) {
    exists n: nat :: n >= 1 && PathOf(edges, a, b, n)
  }

  lemma PathStep(edges: Edges, a: EventId, c: EventId, b: EventId, n: nat)
    requires PathOf(edges, a, c, n) && b in Next(edges, c)
    ensures PathOf(edges, a, b, n + 1)
  {}

  lemma {:induction false} JoinPaths(edges: Edges, a: EventId, b: EventId, c: EventId, n: nat, m: nat)
    requires PathOf(edges, a, b, n) && PathOf(edges, b, c, m)
    ensures PathOf(edges, a, c, n + m)
    decreases m
  {
    if m > 0 {
      var d :| PathOf(edges, b, d, m - 1) && c in Next(edges, d);
      JoinPaths(edges, a, b, d, n, m - 1);
      PathStep(edges, a, d, c, n + m - 1);
    }
  }

  lemma PathTransitive(edges: Edges, a: EventId, b: EventId, c: EventId)
    requires HasPath(edges, a, b) && HasPath(edges, b, c)
    ensures HasPath(edges, a, c)
  {
    var n: nat :| n >= 1 && PathOf(edges, a, b, n);
    var m: nat :| m >= 1 && PathOf(edges, b, c, m);
    JoinPaths(edges, a, b, c, n, m);
  }

  lemma EdgeIsPath(edges: Edges, a: EventId, b: EventId)
    requires b in Next(edges, a)
    ensures HasPath(edges, a, b)
  {
    assert PathOf(edges, a, a, 0);
    PathStep(edges, a, a, b, 0);
  }

  /** A set that no edge leaves. */
  ghost predicate Closed(edges: Edges, r: set<EventId>) {
    forall c :: c in r ==> Next(edges, c) <= r
  }

  lemma {:induction false} ClosedHoldsPaths(edges: Edges, r: set<EventId>, a: EventId, b: EventId, n: nat)
    requires Closed(edges, r) && a in r && PathOf(edges, a, b, n)
    ensures b in r
    decreases n
  {
    if n > 0 {
      var c :| PathOf(edges, a, c, n - 1) && b in Next(edges, c);
      ClosedHoldsPaths(edges, r, a, c, n - 1);
    }
  }

  /** What `a` reaches, itself included, fits in a set of at most `bound` events. */
  ghost predicate ReachesAtMost(edges: Edges, a: EventId, bound: nat) {
    exists r: set<EventId> :: a in r && Closed(edges, r) && |r| <= bound
  }

  /** Every event that an edge mentions. */
  function Universe(edges: Edges): set<EventId> {
    edges.Keys + set a, b | a in edges && b in edges[a] :: b
  }

  /** `c` is within `k` edges of `a`. */
  ghost predicate Near(edges: Edges, a: EventId, c: EventId, k: nat) {
    exists n: nat :: n <= k && PathOf(edges, a, c, n)
  }

  function Elems(q: seq<EventId>): set<EventId> {
    set c | c in q
  }

  lemma ElemsOfTail(q: seq<EventId>)
    requires q != []
    ensures Elems(q) == {q[0]} + Elems(q[1..])
  {}

  lemma ElemsOfAppended(q: seq<EventId>, c: EventId)
    ensures Elems(q + [c]) == Elems(q) + {c}
  {}

  /** The search from `a`: what has been visited leads only to what is visited or waiting. */
  ghost predicate Searching(edges: Edges, a: EventId, visited: set<EventId>, waiting: set<EventId>) {
    && a in visited + waiting
    && visited + waiting <= Universe(edges) + {a}
    && (forall c :: c in visited ==> Next(edges, c) <= visited + waiting)
    && (forall c :: c in visited + waiting ==> Near(edges, a, c, |visited|))
  }

  lemma SearchGoesOn(edges: Edges, a: EventId, visited: set<EventId>, cur: EventId, rest: set<EventId>)
    requires Searching(edges, a, visited, {cur} + rest) && cur !in visited
    ensures Searching(edges, a, visited + {cur}, rest + (Next(edges, cur) - (visited + {cur})))
  {
    var visited' := visited + {cur};
    var waiting' := rest + (Next(edges, cur) - visited');
    forall c | c in visited' + waiting' ensures Near(edges, a, c, |visited'|) {
      NearGrows(edges, a, if c in visited + ({cur} + rest) then c else cur, c, |visited|);
    }
    forall c | c in visited' ensures Next(edges, c) <= visited' + waiting' {
      if c != cur { assert Next(edges, c) <= visited + ({cur} + rest); }
    }
  }

  lemma NearGrows(edges: Edges, a: EventId, c: EventId, d: EventId, k: nat)
    requires Near(edges, a, c, k) && (d == c || d in Next(edges, c))
    ensures Near(edges, a, d, k + 1)
  {
    var n: nat :| n <= k && PathOf(edges, a, c, n);
    if d != c { PathStep(edges, a, c, d, n); }
  }

  // ---- How far a bounded search gets ----

  /** `r` holds everything within `d` edges of `a`. */
  ghost predicate Covers(edges: Edges, a: EventId, d: nat, r: set<EventId>) {
    forall c :: Near(edges, a, c, d) ==> c in r
  }

  /** `r` holds only what is within `d` edges of `a`. */
  ghost predicate Inside(edges: Edges, a: EventId, d: nat, r: set<EventId>) {
    forall c :: c in r ==> Near(edges, a, c, d)
  }

  /** `b` is reached, and no more than `bound` events are as near as some path to it. */
  ghost predicate Close(edges: Edges, a: EventId, b: EventId, bound: nat) {
    exists d: nat, r: set<EventId> :: PathOf(edges, a, b, d) && Covers(edges, a, d, r) && |r| <= bound
  }

  /** At least `bound` events are strictly nearer than `b`. */
  ghost predicate Far(edges: Edges, a: EventId, b: EventId, bound: nat) {
    exists d: nat, r: set<EventId> :: !Near(edges, a, b, d) && Inside(edges, a, d, r) && |r| >= bound
  }

  /** The search by levels: those in `near` are within `k` edges, those in `far` one more; everything within
      `k` edges is visited or in `near`, and everything nearer than that is visited. */
  ghost predicate Levelled(edges: Edges, a: EventId, visited: set<EventId>, near: set<EventId>, far: set<EventId>,
                           k: nat)
  {
    && Inside(edges, a, k, visited + near) && Inside(edges, a, k + 1, far)
    && Covers(edges, a, k, visited + near)
    && (k > 0 ==> Covers(edges, a, k - 1, visited))
  }

  lemma LevelDone(edges: Edges, a: EventId, visited: set<EventId>, far: set<EventId>, k: nat)
    requires Levelled(edges, a, visited, {}, far, k) && Searching(edges, a, visited, far)
    ensures Levelled(edges, a, visited, far, {}, k + 1)
  {
    assert visited + {} == visited;
    forall c | c in visited ensures Near(edges, a, c, k + 1) { NearGrows(edges, a, c, c, k); }
    forall c | Near(edges, a, c, k + 1) ensures c in visited + far {
      var n: nat :| n <= k + 1 && PathOf(edges, a, c, n);
      if n <= k {
        assert Near(edges, a, c, k);
      } else {
        var u :| PathOf(edges, a, u, n - 1) && c in Next(edges, u);
        assert Near(edges, a, u, k);
        assert Next(edges, u) <= visited + far;
      }
    }
  }

  lemma LevelVisit(edges: Edges, a: EventId, visited: set<EventId>, cur: EventId, near: set<EventId>, far: set<EventId>,
                   k: nat)
    requires Levelled(edges, a, visited, {cur} + near, far, k)
    ensures Levelled(edges, a, visited + {cur}, near, far + (Next(edges, cur) - (visited + {cur})), k)
  {
    assert visited + ({cur} + near) == visited + {cur} + near;
    forall c | c in Next(edges, cur) ensures Near(edges, a, c, k + 1) { NearGrows(edges, a, cur, c, k); }
  }

  /** Whoever is found was not far. */
  lemma FoundIsNotFar(edges: Edges, a: EventId, b: EventId, visited: set<EventId>, near: set<EventId>,
                      far: set<EventId>, k: nat, bound: nat)
    requires Levelled(edges, a, visited, near, far, k) && b in near && |visited| < bound
    ensures !Far(edges, a, b, bound)
  {
    if Far(edges, a, b, bound) {
      var d: nat, r: set<EventId> :| !Near(edges, a, b, d) && Inside(edges, a, d, r) && |r| >= bound;
      if k <= d { NearAtLeast(edges, a, b, k, d); }
      forall c | c in r ensures c in visited { NearerIsVisited(edges, a, visited, near, far, k, c, d); }
      SubsetSize(r, visited);
    }
  }

  lemma NearAtLeast(edges: Edges, a: EventId, c: EventId, d: nat, k: nat)
    requires Near(edges, a, c, d) && d <= k
    ensures Near(edges, a, c, k)
  {}

  lemma NearerIsVisited(edges: Edges, a: EventId, visited: set<EventId>, near: set<EventId>, far: set<EventId>, k: nat,
                        c: EventId, d: nat)
    requires Levelled(edges, a, visited, near, far, k) && Near(edges, a, c, d) && d < k
    ensures c in visited
  {
    NearAtLeast(edges, a, c, d, k - 1);
  }

  /** Whoever is given up on was not close. */
  lemma GivenUpIsNotClose(edges: Edges, a: EventId, b: EventId, visited: set<EventId>, cur: EventId, near: set<EventId>,
                          far: set<EventId>, k: nat, bound: nat)
    requires Levelled(edges, a, visited, near, far, k) && cur in near && b !in visited + {cur}
    requires |visited + {cur}| >= bound
    ensures !Close(edges, a, b, bound)
  {
    if Close(edges, a, b, bound) {
      var d: nat, r: set<EventId> :| PathOf(edges, a, b, d) && Covers(edges, a, d, r) && |r| <= bound;
      assert Near(edges, a, b, d);
      if d < k { NearerIsVisited(edges, a, visited, near, far, k, b, d); }
      forall c | c in visited + {cur} + {b} ensures c in r {
        if c != b { NearAtLeast(edges, a, c, k, d); }
      }
      SubsetSize(visited + {cur} + {b}, r);
    }
  }

  /** Where everything reached fits the bound, reached is close. */
  lemma ReachedIsClose(edges: Edges, a: EventId, b: EventId, bound: nat)
    requires ReachesAtMost(edges, a, bound) && HasPath(edges, a, b)
    ensures Close(edges, a, b, bound)
  {
    var r: set<EventId> :| a in r && Closed(edges, r) && |r| <= bound;
    var d: nat :| d >= 1 && PathOf(edges, a, b, d);
    forall c | Near(edges, a, c, d) ensures c in r {
      var n: nat :| n <= d && PathOf(edges, a, c, n);
      ClosedHoldsPaths(edges, r, a, c, n);
    }
  }

  // ---- The search for given orders of the edges ----

  /** For every event an order of its edges: Go's map iteration takes any. */
  type EdgeOrder = map<EventId, seq<EventId>>

  function Listed(order: EdgeOrder, c: EventId): seq<EventId> {
    if c in order then order[c] else []
  }

  ghost predicate Lists(order: EdgeOrder, edges: Edges) {
    forall c :: Elems(Listed(order, c)) == Next(edges, c)
  }

  ghost predicate Leads(order: EdgeOrder, all: set<EventId>) {
    forall c :: Elems(Listed(order, c)) <= all
  }

  function Unvisited(ids: seq<EventId>, visited: set<EventId>): (r: seq<EventId>)
    ensures Elems(r) == Elems(ids) - visited
  {
    if ids == [] then []
    else
      var last, rest := ids[|ids| - 1], Unvisited(ids[..|ids| - 1], visited);
      assert ids == ids[..|ids| - 1] + [last];
      ElemsOfAppended(ids[..|ids| - 1], last);
      ElemsOfAppended(rest, last);
      if last in visited then rest else rest + [last]
  }

  /** The queue once its unvisited head has been visited. */
  function Advanced(order: EdgeOrder, queue: seq<EventId>, visited: set<EventId>): seq<EventId>
    requires queue != []
  {
    queue[1..] + Unvisited(Listed(order, queue[0]), visited + {queue[0]})
  }

  lemma AdvancedElems(order: EdgeOrder, queue: seq<EventId>, visited: set<EventId>)
    requires queue != []
    ensures Elems(Advanced(order, queue, visited))
            == Elems(queue[1..]) + (Elems(Listed(order, queue[0])) - (visited + {queue[0]}))
    ensures Elems(queue) == {queue[0]} + Elems(queue[1..])
  {
    ElemsOfTail(queue);
    ElemsOfSum(queue[1..], Unvisited(Listed(order, queue[0]), visited + {queue[0]}));
  }

  /** Whether the search comes upon `b` before it has visited `bound` others. */
  ghost predicate Finds(order: EdgeOrder, all: set<EventId>, queue: seq<EventId>, visited: set<EventId>, b: EventId,
                        bound: nat)
    requires Leads(order, all) && Elems(queue) <= all
    decreases all - visited, |queue|
  {
    queue != [] &&
    (AdvancedElems(order, queue, visited);
     queue[0] == b ||
     (if queue[0] in visited then Finds(order, all, queue[1..], visited, b, bound)
      else |visited + {queue[0]}| < bound &&
           Finds(order, all, Advanced(order, queue, visited), visited + {queue[0]}, b, bound)))
  }

  /** What the search comes upon when it looks for nothing in particular. */
  ghost function Visits(order: EdgeOrder, all: set<EventId>, queue: seq<EventId>, visited: set<EventId>, bound: nat)
    : set<EventId>
    requires Leads(order, all) && Elems(queue) <= all
    decreases all - visited, |queue|
  {
    if queue == [] then {}
    else
      AdvancedElems(order, queue, visited);
      if queue[0] in visited then Visits(order, all, queue[1..], visited, bound)
      else {queue[0]} + if |visited + {queue[0]}| >= bound then {}
                        else Visits(order, all, Advanced(order, queue, visited), visited + {queue[0]}, bound)
  }

  lemma {:induction false} FindsVisits(order: EdgeOrder, all: set<EventId>, queue: seq<EventId>, visited: set<EventId>,
                                       b: EventId, bound: nat)
    requires Leads(order, all) && Elems(queue) <= all && b !in visited
    ensures Finds(order, all, queue, visited, b, bound) <==> b in Visits(order, all, queue, visited, bound)
    decreases all - visited, |queue|
  {
    if queue != [] {
      AdvancedElems(order, queue, visited);
      if queue[0] in visited {
        FindsVisits(order, all, queue[1..], visited, b, bound);
      } else if queue[0] != b && |visited + {queue[0]}| < bound {
        FindsVisits(order, all, Advanced(order, queue, visited), visited + {queue[0]}, b, bound);
      }
    }
  }

  lemma {:induction false} VisitsFit(order: EdgeOrder, all: set<EventId>, queue: seq<EventId>, visited: set<EventId>,
                                     bound: nat)
    requires Leads(order, all) && Elems(queue) <= all && |visited| < bound
    ensures |visited + Visits(order, all, queue, visited, bound)| <= bound
    decreases all - visited, |queue|
  {
    if queue == [] {
      assert visited + {} == visited;
    } else {
      AdvancedElems(order, queue, visited);
      var more := visited + {queue[0]};
      if queue[0] in visited {
        VisitsFit(order, all, queue[1..], visited, bound);
      } else if |more| >= bound {
        assert |more| == |visited| + 1;
        assert visited + ({queue[0]} + {}) == more;
      } else {
        VisitsFit(order, all, Advanced(order, queue, visited), more, bound);
        var rest := Visits(order, all, Advanced(order, queue, visited), more, bound);
        assert visited + ({queue[0]} + rest) == more + rest;
      }
    }
  }

  lemma ListsLead(order: EdgeOrder, edges: Edges, a: EventId)
    requires Lists(order, edges)
    ensures Leads(order, Universe(edges) + {a}) && Elems([a]) <= Universe(edges) + {a}
  {}

  /** The answer of the search from `a`. */
  ghost predicate FoundFrom(edges: Edges, order: EdgeOrder, a: EventId, b: EventId, bound: nat)
    requires Lists(order, edges)
  {
    ListsLead(order, edges, a);
    a != b && Finds(order, Universe(edges) + {a}, [a], {}, b, bound)
  }

  /** The search from `a` is right about every event. */
  ghost predicate RightAboutAll(edges: Edges, order: EdgeOrder, a: EventId, bound: nat)
    requires Lists(order, edges)
  {
    forall b :: FoundFrom(edges, order, a, b, bound) <==> a != b && HasPath(edges, a, b)
  }

  /** In whatever order the edges are listed, the search from `a` is right about every event exactly when `a`
      reaches no more than `bound` events, itself included. */
  lemma RightExactlyWithinBound(edges: Edges, order: EdgeOrder, a: EventId, bound: nat)
    requires Lists(order, edges) && bound > 0
    ensures RightAboutAll(edges, order, a, bound) <==> ReachesAtMost(edges, a, bound)
  {
    if ReachesAtMost(edges, a, bound) {
      forall b ensures FoundFrom(edges, order, a, b, bound) <==> a != b && HasPath(edges, a, b) {
        FoundFromAnswers(edges, order, a, b, bound);
      }
    }
    if RightAboutAll(edges, order, a, bound) {
      RightFits(edges, order, a, bound);
    }
  }

  /** What the search comes upon is closed if it comes upon all that is reached. */
  lemma RightFits(edges: Edges, order: EdgeOrder, a: EventId, bound: nat)
    requires Lists(order, edges) && bound > 0 && RightAboutAll(edges, order, a, bound)
    ensures ReachesAtMost(edges, a, bound)
  {
    ListsLead(order, edges, a);
    var all := Universe(edges) + {a};
    var r := Visits(order, all, [a], {}, bound);
    VisitsFit(order, all, [a], {}, bound);
    assert {} + r == r;
    forall b ensures b in r <==> a == b || HasPath(edges, a, b) {
      FindsVisits(order, all, [a], {}, b, bound);
      assert FoundFrom(edges, order, a, b, bound) <==> a != b && HasPath(edges, a, b);
    }
    forall c, d | c in r && d in Next(edges, c) ensures d in r {
      EdgeIsPath(edges, c, d);
      if c != a { PathTransitive(edges, a, c, d); }
    }
  }

  // ---- Searching against the edges ----

  function Sources(reverse: map<EventId, seq<EventId>>, b: EventId): seq<EventId> {
    if b in reverse then reverse[b] else []
  }

  method Reversed(edges: Edges) returns (reverse: map<EventId, seq<EventId>>)
    ensures forall a, b :: a in Sources(reverse, b) <==> b in Next(edges, a)
  {
    reverse := map[];
    var froms := edges.Keys;
    while froms != {}
      invariant froms <= edges.Keys
      invariant forall a, b :: a in Sources(reverse, b) <==> b in Next(edges, a) && a !in froms
    {
      var from :| from in froms;
      froms := froms - {from};
      ghost var before := reverse;
      var tos := edges[from];
      while tos != {}
        invariant tos <= edges[from]
        invariant forall a, b :: a in Sources(reverse, b) <==>
          a in Sources(before, b) || (a == from && b in edges[from] && b !in tos)
      {
        var to :| to in tos;
        tos := tos - {to};
        reverse := reverse[to := Sources(reverse, to) + [from]];
      }
      forall a, b ensures a in Sources(reverse, b) <==> b in Next(edges, a) && a !in froms {
        assert a in Sources(reverse, b) <==> a in Sources(before, b) || (a == from && b in edges[from]);
        assert a in Sources(before, b) <==> b in Next(edges, a) && a !in froms + {from};
      }
    }
  }

  ghost function Into(edges: Edges, b: EventId): set<EventId> {
    set a | a in edges && b in edges[a]
  }

  /** The search back from `id`: what leads to `id`, or to what has been visited, is visited or waiting. */
  ghost predicate SearchingBack(edges: Edges, id: EventId, visited: set<EventId>, waiting: set<EventId>) {
    && Into(edges, id) <= visited + waiting
    && (forall c :: c in visited ==> Into(edges, c) <= visited + waiting)
    && (forall c :: c in visited + waiting ==> HasPath(edges, c, id))
    && visited + waiting <= Universe(edges)
  }

  lemma SearchBackStarts(edges: Edges, id: EventId)
    ensures SearchingBack(edges, id, {}, Into(edges, id))
  {
    forall c | c in Into(edges, id) ensures HasPath(edges, c, id) { EdgeIsPath(edges, c, id); }
  }

  lemma SourcesAreInto(edges: Edges, reverse: map<EventId, seq<EventId>>, b: EventId)
    requires forall a :: a in Sources(reverse, b) <==> b in Next(edges, a)
    ensures Elems(Sources(reverse, b)) == Into(edges, b)
  {}

  lemma SearchGoesBack(edges: Edges, id: EventId, visited: set<EventId>, cur: EventId, rest: set<EventId>)
    requires SearchingBack(edges, id, visited, {cur} + rest)
    ensures SearchingBack(edges, id, visited + {cur}, rest + Into(edges, cur))
  {
    forall c | c in Into(edges, cur) ensures HasPath(edges, c, id) {
      EdgeIsPath(edges, c, cur);
      PathTransitive(edges, c, cur, id);
    }
  }

  lemma {:induction false} BackClosed(edges: Edges, visited: set<EventId>, a: EventId, b: EventId, n: nat)
    requires forall c :: c in visited ==> Into(edges, c) <= visited
    requires b in visited && PathOf(edges, a, b, n)
    ensures a in visited
    decreases n
  {
    if n > 0 {
      var c :| PathOf(edges, a, c, n - 1) && b in Next(edges, c);
      assert c in Into(edges, b);
      BackClosed(edges, visited, a, c, n - 1);
    }
  }

  lemma SearchedBack(edges: Edges, id: EventId, visited: set<EventId>)
    requires SearchingBack(edges, id, visited, {})
    ensures forall a :: a in visited <==> HasPath(edges, a, id)
  {
    forall a | HasPath(edges, a, id) ensures a in visited {
      var n: nat :| n >= 1 && PathOf(edges, a, id, n);
      var c :| PathOf(edges, a, c, n - 1) && id in Next(edges, c);
      assert c in Into(edges, id);
      BackClosed(edges, visited, a, c, n - 1);
    }
  }

  lemma ElemsOfSum(q: seq<EventId>, r: seq<EventId>)
    ensures Elems(q + r) == Elems(q) + Elems(r)
  {}

  // ---- Topological order ----

  /** The edges between registered events. */
  function Registered(events: set<EventId>, edges: Edges): Edges {
    map a | a in edges && a in events :: edges[a] * events
  }

  ghost function Preds(events: set<EventId>, edges: Edges, v: EventId): set<EventId> {
    Into(Registered(events, edges), v)
  }

  /** The registered predecessors of every registered event. */
  ghost function PredMap(events: set<EventId>, edges: Edges): map<EventId, set<EventId>> {
    map v | v in events :: Preds(events, edges, v)
  }

  predicate Distinct(ids: seq<EventId>) {
    forall i, j :: 0 <= i < j < |ids| ==> ids[i] != ids[j]
  }

  /** `u` is among the first `j`. */
  predicate Earlier(ids: seq<EventId>, u: EventId, j: nat)
    requires j <= |ids|
  {
    exists i :: 0 <= i < j && ids[i] == u
  }

  /** Every event is listed once, after all its predecessors. */
  ghost predicate OrderedBy(p: map<EventId, set<EventId>>, ids: seq<EventId>) {
    && Distinct(ids)
    && (forall j :: 0 <= j < |ids| ==> ids[j] in p)
    && forall j, u :: 0 <= j < |ids| && u in p[ids[j]] ==> Earlier(ids, u, j)
  }

  ghost predicate CausalOrder(events: set<EventId>, edges: Edges, ids: seq<EventId>) {
    OrderedBy(PredMap(events, edges), ids)
  }

  /** `v` lies on a cycle of registered events or behind one. */
  ghost predicate BehindCycle(events: set<EventId>, edges: Edges, v: EventId) {
    var inner := Registered(events, edges);
    exists w :: HasPath(inner, w, w) && HasPath(inner, w, v)
  }

  /** In a causal order paths lead forward. */
  lemma {:induction false} PathLeadsForward(events: set<EventId>, edges: Edges, ids: seq<EventId>, a: EventId, j: nat,
                                            n: nat)
    requires CausalOrder(events, edges, ids) && j < |ids|
    requires n >= 1 && PathOf(Registered(events, edges), a, ids[j], n)
    ensures Earlier(ids, a, j)
    decreases n
  {
    var inner := Registered(events, edges);
    var c :| PathOf(inner, a, c, n - 1) && ids[j] in Next(inner, c);
    assert c in PredMap(events, edges)[ids[j]];
    var i :| 0 <= i < j && ids[i] == c;
    if n > 1 {
      PathLeadsForward(events, edges, ids, a, i, n - 1);
    }
  }

  lemma ListedIsAcyclic(events: set<EventId>, edges: Edges, ids: seq<EventId>, v: EventId)
    requires CausalOrder(events, edges, ids) && v in ids
    ensures !BehindCycle(events, edges, v)
  {
    var inner := Registered(events, edges);
    if w :| HasPath(inner, w, w) && HasPath(inner, w, v) {
      var j :| 0 <= j < |ids| && ids[j] == v;
      var n: nat :| n >= 1 && PathOf(inner, w, v, n);
      PathLeadsForward(events, edges, ids, w, j, n);
      var i :| 0 <= i < j && ids[i] == w;
      var m: nat :| m >= 1 && PathOf(inner, w, w, m);
      PathLeadsForward(events, edges, ids, w, i, m);
    }
  }

  ghost function Ancestors(edges: Edges, u: set<EventId>, v: EventId): set<EventId> {
    set a | a in u && HasPath(edges, a, v)
  }

  ghost predicate Preceded(edges: Edges, u: set<EventId>, x: EventId) {
    exists w :: w in u && x in Next(edges, w)
  }

  lemma FewerAncestors(edges: Edges, u: set<EventId>, w: EventId, v: EventId)
    requires w in u && v in Next(edges, w) && !HasPath(edges, w, w)
    ensures Ancestors(edges, u, w) < Ancestors(edges, u, v)
  {
    EdgeIsPath(edges, w, v);
    forall a | a in Ancestors(edges, u, w) ensures a in Ancestors(edges, u, v) { PathTransitive(edges, a, w, v); }
    assert w in Ancestors(edges, u, v) && w !in Ancestors(edges, u, w);
  }

  /** In a finite set where everything has a predecessor, going back ends on a cycle. */
  lemma {:induction false} CycleBehind(edges: Edges, u: set<EventId>, v: EventId)
    requires v in u && forall x :: x in u ==> Preceded(edges, u, x)
    ensures exists w :: HasPath(edges, w, w) && HasPath(edges, w, v)
    decreases Ancestors(edges, u, v)
  {
    assert Preceded(edges, u, v);
    var w :| w in u && v in Next(edges, w);
    EdgeIsPath(edges, w, v);
    if !HasPath(edges, w, w) {
      FewerAncestors(edges, u, w, v);
      CycleBehind(edges, u, w);
      var x :| HasPath(edges, x, x) && HasPath(edges, x, w);
      PathTransitive(edges, x, w, v);
    }
  }

  /** The counts are of the predecessors not yet taken, plus one for each edge in `todo` not yet followed. */
  ghost predicate Counted(p: map<EventId, set<EventId>>, done: set<EventId>, deg: map<EventId, int>,
                          todo: set<EventId>)
  {
    && deg.Keys == p.Keys
    && forall v :: v in p ==> deg[v] == |p[v] - done| + if v in todo then 1 else 0
  }

  predicate ZeroListed(ids: seq<EventId>, deg: map<EventId, int>) {
    forall v :: v in deg ==> (v in ids <==> deg[v] == 0)
  }

  /** The sort when the events in `done` have been taken, all but `todo` of the last one's edges have been
      followed, and the events listed after `done` wait. */
  ghost predicate Sorting(p: map<EventId, set<EventId>>, ids: seq<EventId>, done: set<EventId>, deg: map<EventId, int>,
                          todo: set<EventId>)
  {
    && done <= Elems(ids)
    && OrderedBy(p, ids)
    && Counted(p, done, deg, todo)
    && ZeroListed(ids, deg)
  }

  lemma SortedAll(events: set<EventId>, edges: Edges, ids: seq<EventId>, deg: map<EventId, int>, v: EventId)
    requires Sorting(PredMap(events, edges), ids, Elems(ids), deg, {}) && v in events
    ensures v in ids <==> !BehindCycle(events, edges, v)
  {
    if v in ids {
      ListedIsAcyclic(events, edges, ids, v);
    } else {
      var left := events - Elems(ids);
      forall x | x in left ensures Preceded(Registered(events, edges), left, x) {
        UnlistedIsPreceded(events, edges, ids, deg, x);
      }
      CycleBehind(Registered(events, edges), left, v);
    }
  }

  lemma UnlistedIsPreceded(events: set<EventId>, edges: Edges, ids: seq<EventId>, deg: map<EventId, int>, x: EventId)
    requires Counted(PredMap(events, edges), Elems(ids), deg, {}) && x in events && deg[x] != 0
    ensures Preceded(Registered(events, edges), events - Elems(ids), x)
  {
    var waiting := PredMap(events, edges)[x] - Elems(ids);
    assert waiting != {};
    var w :| w in waiting;
    assert w in events && x in Next(Registered(events, edges), w);
  }

  /** Without cycles nothing is behind one. */
  lemma AcyclicMeansNothingBehind(events: set<EventId>, edges: Edges)
    ensures (forall v :: v in events ==> !BehindCycle(events, edges, v))
            <==> (forall w :: !HasPath(Registered(events, edges), w, w))
  {}

  lemma OneLess(preds: set<EventId>, done: set<EventId>, cur: EventId)
    requires cur !in done
    ensures |preds - done| == |preds - (done + {cur})| + if cur in preds then 1 else 0
  {
    var before := preds - done;
    if cur in preds {
      assert preds - (done + {cur}) == before - {cur} && cur in before;
    } else {
      assert preds - (done + {cur}) == before;
    }
  }

  lemma CountedNext(p: map<EventId, set<EventId>>, done: set<EventId>, deg: map<EventId, int>, cur: EventId,
                    targets: set<EventId>)
    requires Counted(p, done, deg, {}) && cur !in done && forall v :: v in p ==> (cur in p[v] <==> v in targets)
    ensures Counted(p, done + {cur}, deg, targets)
  {
    forall v | v in p ensures deg[v] == |p[v] - (done + {cur})| + if v in targets then 1 else 0 {
      OneLess(p[v], done, cur);
    }
  }

  lemma TakeNext(p: map<EventId, set<EventId>>, listed: seq<EventId>, queue: seq<EventId>, deg: map<EventId, int>,
                 targets: set<EventId>)
    requires queue != [] && Sorting(p, listed + queue, Elems(listed), deg, {})
    requires forall v :: v in p ==> (queue[0] in p[v] <==> v in targets)
    ensures Sorting(p, (listed + [queue[0]]) + queue[1..], Elems(listed + [queue[0]]), deg, targets)
  {
    var cur := queue[0];
    TakenApart(listed, queue);
    ElemsOfAppended(listed, cur);
    NextIsNew(p, listed, queue);
    CountedNext(p, Elems(listed), deg, cur, targets);
  }

  lemma TakenApart(listed: seq<EventId>, queue: seq<EventId>)
    requires queue != []
    ensures (listed + [queue[0]]) + queue[1..] == listed + queue
    ensures Elems(listed) + {queue[0]} <= Elems(listed + queue)
  {}

  lemma NextIsNew(p: map<EventId, set<EventId>>, listed: seq<EventId>, queue: seq<EventId>)
    requires queue != [] && OrderedBy(p, listed + queue)
    ensures queue[0] !in Elems(listed) && queue[0] in p
  {
    var ids := listed + queue;
    assert ids[|listed|] == queue[0];
    forall i | 0 <= i < |listed| ensures listed[i] != queue[0] { assert ids[i] == listed[i]; }
  }

  lemma FollowOne(p: map<EventId, set<EventId>>, ids: seq<EventId>, done: set<EventId>, deg: map<EventId, int>,
                  todo: set<EventId>, next: EventId)
    requires Sorting(p, ids, done, deg, todo) && next in todo && next in p
    ensures Sorting(p, if deg[next] == 1 then ids + [next] else ids, done, deg[next := deg[next] - 1], todo - {next})
  {
    var deg' := deg[next := deg[next] - 1];
    CountedFollow(p, done, deg, todo, next);
    ListedFollow(ids, deg, next);
    if deg'[next] == 0 {
      AllTaken(p, done, deg', todo - {next}, next);
      ExtendOrder(p, ids, next);
      ElemsOfAppended(ids, next);
    }
  }

  lemma FollowEdge(p: map<EventId, set<EventId>>, listed: seq<EventId>, queue: seq<EventId>, done: set<EventId>,
                   deg: map<EventId, int>, todo: set<EventId>, next: EventId)
    requires Sorting(p, listed + queue, done, deg, todo) && next in todo && next in p
    ensures var q := if deg[next] == 1 then queue + [next] else queue;
            Sorting(p, listed + q, done, deg[next := deg[next] - 1], todo - {next})
  {
    FollowOne(p, listed + queue, done, deg, todo, next);
    AppendLast(listed, queue, next);
  }

  lemma AppendLast(listed: seq<EventId>, queue: seq<EventId>, next: EventId)
    ensures (listed + queue) + [next] == listed + (queue + [next])
  {}

  lemma CountedFollow(p: map<EventId, set<EventId>>, done: set<EventId>, deg: map<EventId, int>, todo: set<EventId>,
                      next: EventId)
    requires Counted(p, done, deg, todo) && next in todo && next in p
    ensures Counted(p, done, deg[next := deg[next] - 1], todo - {next}) && deg[next] >= 1
  {}

  lemma ListedFollow(ids: seq<EventId>, deg: map<EventId, int>, next: EventId)
    requires ZeroListed(ids, deg) && next in deg && deg[next] >= 1
    ensures next !in ids
    ensures ZeroListed(if deg[next] == 1 then ids + [next] else ids, deg[next := deg[next] - 1])
  {}

  lemma NothingLeft(preds: set<EventId>, done: set<EventId>)
    requires |preds - done| == 0
    ensures preds <= done
  {
    assert preds <= (preds - done) + done;
  }

  lemma AllTaken(p: map<EventId, set<EventId>>, done: set<EventId>, deg: map<EventId, int>, todo: set<EventId>,
                 v: EventId)
    requires Counted(p, done, deg, todo) && v in p && deg[v] == 0
    ensures p[v] <= done
  {
    assert |p[v] - done| == 0;
    NothingLeft(p[v], done);
  }

  lemma SkipEdge(p: map<EventId, set<EventId>>, ids: seq<EventId>, done: set<EventId>, deg: map<EventId, int>,
                 todo: set<EventId>, next: EventId)
    requires Sorting(p, ids, done, deg, todo) && next !in p
    ensures Sorting(p, ids, done, deg, todo - {next})
  {}

  lemma ExtendOrder(p: map<EventId, set<EventId>>, ids: seq<EventId>, next: EventId)
    requires OrderedBy(p, ids) && next in p && next !in ids && p[next] <= Elems(ids)
    ensures OrderedBy(p, ids + [next])
  {
    var ids' := ids + [next];
    forall j, u | 0 <= j < |ids'| && u in p[ids'[j]] ensures Earlier(ids', u, j) {
      if j < |ids| {
        assert Earlier(ids, u, j);
        var i :| 0 <= i < j && ids[i] == u;
        assert ids'[i] == u;
      } else {
        var i := Position(ids, u);
        assert ids'[i] == u;
      }
    }
  }

  lemma SortStarts(p: map<EventId, set<EventId>>, ids: seq<EventId>, deg: map<EventId, int>)
    requires Counted(p, {}, deg, {}) && Distinct(ids) && Elems(ids) == set v | v in deg && deg[v] == 0
    ensures Sorting(p, ids, {}, deg, {})
  {
    forall v | v in deg ensures v in ids <==> deg[v] == 0 { assert v in Elems(ids) <==> deg[v] == 0; }
    forall j | 0 <= j < |ids| ensures ids[j] in p && p[ids[j]] == {} {
      assert ids[j] in Elems(ids);
      assert p[ids[j]] - {} == p[ids[j]];
    }
  }

  lemma {:induction false} OrderFits(events: set<EventId>, ids: seq<EventId>)
    requires Elems(ids) <= events && Distinct(ids)
    ensures |ids| <= |events|
    decreases |ids|
  {
    if ids != [] {
      var last := ids[|ids| - 1];
      assert last in Elems(ids);
      OrderFits(events - {last}, ids[..|ids| - 1]);
    }
  }

  lemma SomeWait(p: map<EventId, set<EventId>>, listed: seq<EventId>, queue: seq<EventId>)
    requires OrderedBy(p, listed + queue) && queue != []
    ensures |listed| < |p.Keys| && queue[0] in p
  {
    var ids := listed + queue;
    assert ids[|listed|] == queue[0];
    forall c | c in Elems(ids) ensures c in p.Keys {}
    OrderFits(p.Keys, ids);
  }

  function IdsOf(es: seq<Event>): (ids: seq<EventId>)
    ensures |ids| == |es| && forall i :: 0 <= i < |es| ==> ids[i] == es[i].id
  {
    if es == [] then [] else IdsOf(es[..|es| - 1]) + [es[|es| - 1].id]
  }

  ghost function Position(ids: seq<EventId>, v: EventId): (i: nat)
    requires v in ids
    ensures i < |ids| && ids[i] == v
  {
    var i :| 0 <= i < |ids| && ids[i] == v;
    i
  }

  /** The edges out of one more source have still to be counted. */
  lemma UncountSource(events: set<EventId>, edges: Edges, froms: set<EventId>, deg: map<EventId, int>, from: EventId)
    requires Counted(PredMap(events, edges), froms + {from}, deg, {}) && from !in froms && from in edges
    ensures from !in events ==> Counted(PredMap(events, edges), froms, deg, {})
    ensures from in events ==> Uncounted(PredMap(events, edges), froms, deg, edges[from])
  {
    forall v | v in events
      ensures |Preds(events, edges, v) - froms| == deg[v] + if from in events && v in edges[from] then 1 else 0
    {
      OneLess(Preds(events, edges, v), froms, from);
    }
  }

  ghost predicate Uncounted(p: map<EventId, set<EventId>>, froms: set<EventId>, deg: map<EventId, int>,
                            targets: set<EventId>)
  {
    && deg.Keys == p.Keys
    && forall v :: v in p ==> |p[v] - froms| == deg[v] + if v in targets then 1 else 0
  }

  lemma CountingStarts(p: map<EventId, set<EventId>>, froms: set<EventId>, deg: map<EventId, int>)
    requires deg.Keys == p.Keys && forall v :: v in p ==> deg[v] == 0 && p[v] <= froms
    ensures Counted(p, froms, deg, {})
  {}

  lemma CountingGoesOn(p: map<EventId, set<EventId>>, froms: set<EventId>, deg: map<EventId, int>,
                       targets: set<EventId>, deg': map<EventId, int>)
    requires Uncounted(p, froms, deg, targets) && deg'.Keys == deg.Keys
    requires forall v :: v in deg ==> deg'[v] == deg[v] + if v in targets then 1 else 0
    ensures Counted(p, froms, deg', {})
  {}

  /** `p` gives the registered predecessors. */
  ghost predicate ArePreds(events: set<EventId>, edges: Edges, p: map<EventId, set<EventId>>) {
    p.Keys == events && forall u, v :: v in p ==> (u in p[v] <==> u in events && v in Next(edges, u))
  }

  lemma PredMapIsPreds(events: set<EventId>, edges: Edges)
    ensures ArePreds(events, edges, PredMap(events, edges))
  {}

  lemma PredsArePredMap(events: set<EventId>, edges: Edges, p: map<EventId, set<EventId>>)
    requires ArePreds(events, edges, p)
    ensures p == PredMap(events, edges)
  {
    forall v | v in p ensures p[v] == PredMap(events, edges)[v] {
      assert v in p.Keys;
      forall u ensures u in p[v] <==> u in Preds(events, edges, v) {
        var inner := Registered(events, edges);
        assert u in Into(inner, v) <==> u in inner && v in inner[u];
        assert u in p[v] <==> u in events && v in Next(edges, u);
      }
    }
  }

  /** The head of the queue becomes the next event listed. */
  lemma {:induction false} SortStep(p: map<EventId, set<EventId>>, sorted: seq<Event>, queue: seq<EventId>,
                                    deg: map<EventId, int>, targets: set<EventId>, e: Event)
    requires queue != [] && e.id == queue[0] && Sorting(p, IdsOf(sorted) + queue, Elems(IdsOf(sorted)), deg, {})
    requires forall v :: v in p ==> (queue[0] in p[v] <==> v in targets)
    ensures var listed := IdsOf(sorted + [e]);
            Sorting(p, listed + queue[1..], Elems(listed), deg, targets)
  {
    IdsOfMore(sorted, e);
    TakeNext(p, IdsOf(sorted), queue, deg, targets);
  }

  lemma IdsOfMore(es: seq<Event>, e: Event)
    ensures IdsOf(es + [e]) == IdsOf(es) + [e.id]
  {}

  /** What a finished sort has listed. */
  lemma SortEnds(events: map<EventId, Event>, edges: Edges, p: map<EventId, set<EventId>>, sorted: seq<Event>,
                 deg: map<EventId, int>)
    requires forall id :: id in events ==> events[id].id == id
    requires forall e :: e in sorted ==> e.id in events && e == events[e.id]
    requires Sorting(p, IdsOf(sorted) + [], Elems(IdsOf(sorted)), deg, {}) && ArePreds(events.Keys, edges, p)
    ensures CausalOrder(events.Keys, edges, IdsOf(sorted))
    ensures forall v :: v in events ==> (events[v] in sorted <==> !BehindCycle(events.Keys, edges, v))
  {
    assert IdsOf(sorted) + [] == IdsOf(sorted);
    PredsArePredMap(events.Keys, edges, p);
    forall v | v in events ensures events[v] in sorted <==> !BehindCycle(events.Keys, edges, v) {
      ListedById(events, sorted, v);
      SortedAll(events.Keys, edges, IdsOf(sorted), deg, v);
    }
  }

  lemma ListedById(events: map<EventId, Event>, sorted: seq<Event>, v: EventId)
    requires v in events && events[v].id == v && forall e :: e in sorted ==> e.id in events && e == events[e.id]
    ensures events[v] in sorted <==> v in IdsOf(sorted)
  {}

  class CausalGraph {
    var events: map<EventId, Event>
    var edges: Edges

    constructor ()
      ensures events == map[] && edges == map[]
    {
      events, edges := map[], map[];
    }

    ghost predicate Valid()
      reads this
    {
      forall id :: id in events ==> events[id].id == id
    }

    method AddEvent(e: Event)
      modifies this
      ensures old(Valid()) ==> Valid()
      ensures events == old(events)[e.id := e]
      ensures forall a :: Next(edges, a) == Next(old(edges), a)
    {
      events := events[e.id := e];
      if e.id !in edges {
        edges := edges[e.id := {}];
      }
    }

    method AddEdge(from: EventId, to: EventId)
      modifies this`edges
      ensures forall a :: Next(edges, a) == if a == from then Next(old(edges), a) + {to} else Next(old(edges), a)
    {
      if from !in edges {
        edges := edges[from := {}];
      }
      edges := edges[from := edges[from] + {to}];
    }

    /** Breadth-first search from `a`, given up once MAX_BFS_DEPTH events have been visited. */
    method HappenedBefore(a: EventId, b: EventId, order: EdgeOrder) returns (found: bool)
      requires Lists(order, edges)
      ensures found == FoundFrom(edges, order, a, b, MAX_BFS_DEPTH)
      ensures Answer(edges, a, b, MAX_BFS_DEPTH, found)
    {
      FoundFromAnswers(edges, order, a, b, MAX_BFS_DEPTH);
      hide Answer, Universe;
      if a == b {
        return false;
      }
      var visited: set<EventId> := {};
      var queue := [a];
      ghost var all := Universe(edges) + {a};
      ListsLead(order, edges, a);
      while queue != []
        invariant |visited| < MAX_BFS_DEPTH && Elems(queue) <= all
        invariant Finds(order, all, queue, visited, b, MAX_BFS_DEPTH) == FoundFrom(edges, order, a, b, MAX_BFS_DEPTH)
        decreases all - visited, |queue|
      {
        var cur := queue[0];
        AdvancedElems(order, queue, visited);
        if cur == b {
          return true;
        }
        if cur in visited {
          queue := queue[1..];
          continue;
        }
        if |visited + {cur}| >= MAX_BFS_DEPTH {
          return false;
        }
        var q := EnqueueUnvisited(queue[1..], Listed(order, cur), visited + {cur});
        visited, queue := visited + {cur}, q;
      }
      return false;
    }

    /** Neither way; in particular every event is concurrent with itself, even on a cycle. */
    method Concurrent(a: EventId, b: EventId, order: EdgeOrder, order': EdgeOrder) returns (apart: bool)
      requires Lists(order, edges) && Lists(order', edges)
      ensures apart <==> !FoundFrom(edges, order, a, b, MAX_BFS_DEPTH) && !FoundFrom(edges, order', b, a, MAX_BFS_DEPTH)
      ensures a == b ==> apart
      ensures a != b && (Close(edges, a, b, MAX_BFS_DEPTH) || Close(edges, b, a, MAX_BFS_DEPTH)) ==> !apart
      ensures Far(edges, a, b, MAX_BFS_DEPTH) && Far(edges, b, a, MAX_BFS_DEPTH) ==> apart
      ensures ReachesAtMost(edges, a, MAX_BFS_DEPTH) && ReachesAtMost(edges, b, MAX_BFS_DEPTH) ==>
                (apart <==> a == b || (!HasPath(edges, a, b) && !HasPath(edges, b, a)))
    {
      var ab := HappenedBefore(a, b, order);
      if ab {
        return false;
      }
      var ba := HappenedBefore(b, a, order');
      apart := !ba;
    }

    /** Everything registered with a path to `id`, by a search against the edges. */
    method CausalHistory(id: EventId) returns (history: seq<Event>)
      requires Valid()
      ensures forall c :: c in events ==> (events[c] in history <==> HasPath(edges, c, id))
      ensures forall i :: 0 <= i < |history| ==> history[i].id in events && history[i] == events[history[i].id]
      ensures forall i, j :: 0 <= i < j < |history| ==> history[i].id != history[j].id
    {
      history := [];
      var visited: set<EventId> := {};
      var reverse := Reversed(edges);
      var queue := Sources(reverse, id);
      SourcesAreInto(edges, reverse, id);
      SearchBackStarts(edges, id);
      while queue != []
        invariant SearchingBack(edges, id, visited, Elems(queue))
        invariant forall c :: c in visited && c in events ==> events[c] in history
        invariant forall e :: e in history ==> e.id in visited && e.id in events && e == events[e.id]
        invariant forall i, j :: 0 <= i < j < |history| ==> history[i].id != history[j].id
        decreases Universe(edges) - visited, |queue|
      {
        var cur := queue[0];
        ElemsOfTail(queue);
        queue := queue[1..];
        if cur in visited {
          assert visited + Elems(queue) == visited + ({cur} + Elems(queue));
          continue;
        }
        SearchGoesBack(edges, id, visited, cur, Elems(queue));
        ElemsOfSum(queue, Sources(reverse, cur));
        SourcesAreInto(edges, reverse, cur);
        queue := queue + Sources(reverse, cur);
        visited := visited + {cur};
        if cur in events {
          history := history + [events[cur]];
        }
      }
      SearchedBack(edges, id, visited);
    }

    method InDegrees() returns (deg: map<EventId, int>, ghost p: map<EventId, set<EventId>>)
      ensures ArePreds(events.Keys, edges, p) && Counted(p, {}, deg, {})
    {
      deg := map id | id in events :: 0;
      var froms := edges.Keys;
      p := PredMap(events.Keys, edges);
      PredMapIsPreds(events.Keys, edges);
      CountingStarts(p, froms, deg);
      while froms != {}
        invariant froms <= edges.Keys
        invariant Counted(p, froms, deg, {})
      {
        var from :| from in froms;
        assert froms == (froms - {from}) + {from};
        froms := froms - {from};
        UncountSource(events.Keys, edges, froms, deg, from);
        if from in events {
          var d := CountTargets(deg, edges[from]);
          CountingGoesOn(p, froms, deg, edges[from], d);
          deg := d;
        }
      }
    }

    /** Kahn's algorithm: lists what lies behind no cycle, each event after its predecessors. */
    method TopologicalSort() returns (sorted: seq<Event>)
      requires Valid()
      ensures CausalOrder(events.Keys, edges, IdsOf(sorted))
      ensures forall e :: e in sorted ==> e.id in events && e == events[e.id]
      ensures forall v :: v in events ==> (events[v] in sorted <==> !BehindCycle(events.Keys, edges, v))
    {
      var deg, p := InDegrees();
      var queue := Sourceless(deg);
      sorted := [];
      SortStarts(p, queue, deg);
      assert IdsOf(sorted) + queue == queue;
      while queue != []
        invariant Sorting(p, IdsOf(sorted) + queue, Elems(IdsOf(sorted)), deg, {})
        invariant forall e :: e in sorted ==> e.id in events && e == events[e.id]
        decreases |events| - |sorted|
      {
        var cur := queue[0];
        SomeWait(p, IdsOf(sorted), queue);
        SortStep(p, sorted, queue, deg, Next(edges, cur), events[cur]);
        sorted, queue := sorted + [events[cur]], queue[1..];
        deg, queue := FollowEdges(cur, deg, queue, p, IdsOf(sorted));
      }
      SortEnds(events, edges, p, sorted, deg);
    }

    /** Takes one from the count of each registered target and queues those that reach zero. */
    method FollowEdges(cur: EventId, deg: map<EventId, int>, queue: seq<EventId>, ghost p: map<EventId, set<EventId>>,
                       ghost listed: seq<EventId>)
      returns (d: map<EventId, int>, q: seq<EventId>)
      requires p.Keys == events.Keys && Sorting(p, listed + queue, Elems(listed), deg, Next(edges, cur))
      ensures Sorting(p, listed + q, Elems(listed), d, {})
    {
      d, q := deg, queue;
      var todo := Next(edges, cur);
      while todo != {}
        invariant Sorting(p, listed + q, Elems(listed), d, todo)
      {
        var next :| next in todo;
        if next in events {
          FollowEdge(p, listed, q, Elems(listed), d, todo, next);
          d := d[next := d[next] - 1];
          if d[next] == 0 {
            q := q + [next];
          }
        } else {
          SkipEdge(p, listed + q, Elems(listed), d, todo, next);
        }
        todo := todo - {next};
      }
    }
  }

  method CountTargets(deg: map<EventId, int>, targets: set<EventId>) returns (d: map<EventId, int>)
    ensures d.Keys == deg.Keys
    ensures forall v :: v in deg ==> d[v] == deg[v] + if v in targets then 1 else 0
  {
    d := deg;
    var tos := targets;
    while tos != {}
      invariant tos <= targets && d.Keys == deg.Keys
      invariant forall v :: v in deg ==> d[v] == deg[v] + if v in targets && v !in tos then 1 else 0
    {
      var to :| to in tos;
      tos := tos - {to};
      if to in deg {
        d := d[to := d[to] + 1];
      }
    }
  }

  /** The queue Kahn's algorithm starts from. */
  method Sourceless(deg: map<EventId, int>) returns (queue: seq<EventId>)
    ensures Elems(queue) == set v | v in deg && deg[v] == 0
    ensures forall i, j :: 0 <= i < j < |queue| ==> queue[i] != queue[j]
  {
    queue := [];
    var todo := deg.Keys;
    while todo != {}
      invariant todo <= deg.Keys
      invariant Elems(queue) == set v | v in deg && v !in todo && deg[v] == 0
      invariant forall i, j :: 0 <= i < j < |queue| ==> queue[i] != queue[j]
    {
      var v :| v in todo;
      todo := todo - {v};
      assert v !in Elems(queue);
      if deg[v] == 0 {
        ElemsOfAppended(queue, v);
        queue := queue + [v];
      }
    }
  }

  method EnqueueUnvisited(queue: seq<EventId>, next: seq<EventId>, visited: set<EventId>) returns (q: seq<EventId>)
    ensures q == queue + Unvisited(next, visited)
  {
    q := queue;
    for i := 0 to |next|
      invariant q == queue + Unvisited(next[..i], visited)
    {
      assert next[..i + 1][..i] == next[..i];
      if next[i] !in visited {
        q := q + [next[i]];
      }
    }
    assert next[..|next|] == next;
  }

  /** The search whose queue holds `near` and then `far`. */
  ghost predicate SearchState(edges: Edges, a: EventId, visited: set<EventId>, near: set<EventId>, far: set<EventId>,
                              k: nat)
  {
    Searching(edges, a, visited, near + far) && Levelled(edges, a, visited, near, far, k)
  }

  ghost predicate Searched(edges: Edges, a: EventId, visited: set<EventId>, near: seq<EventId>, far: seq<EventId>,
                           k: nat)
  {
    SearchState(edges, a, visited, Elems(near), Elems(far), k)
  }

  lemma SearchStarts(edges: Edges, a: EventId)
    ensures Searched(edges, a, {}, [a], [], 0)
  {
    assert PathOf(edges, a, a, 0);
  }

  lemma NextLevel(edges: Edges, a: EventId, visited: set<EventId>, far: seq<EventId>, k: nat)
    requires Searched(edges, a, visited, [], far, k)
    ensures Searched(edges, a, visited, far, [], k + 1)
  {
    assert Elems([]) == {} && {} + Elems(far) == Elems(far) == Elems(far) + {};
    LevelDone(edges, a, visited, Elems(far), k);
  }

  lemma HeadIsKnown(edges: Edges, a: EventId, visited: set<EventId>, near: seq<EventId>, far: seq<EventId>, k: nat)
    requires Searched(edges, a, visited, near, far, k) && near != []
    ensures near[0] in Universe(edges) + {a}
  {
    assert near[0] in Elems(near);
  }

  lemma SkipSets(edges: Edges, a: EventId, visited: set<EventId>, cur: EventId, near: set<EventId>, far: set<EventId>,
                 k: nat)
    requires SearchState(edges, a, visited, {cur} + near, far, k) && cur in visited
    ensures SearchState(edges, a, visited, near, far, k)
  {
    assert visited + (({cur} + near) + far) == visited + (near + far);
    assert visited + ({cur} + near) == visited + near;
  }

  lemma SkipHead(edges: Edges, a: EventId, visited: set<EventId>, near: seq<EventId>, far: seq<EventId>, k: nat)
    requires Searched(edges, a, visited, near, far, k) && near != [] && near[0] in visited
    ensures Searched(edges, a, visited, near[1..], far, k)
  {
    ElemsOfTail(near);
    SkipSets(edges, a, visited, near[0], Elems(near[1..]), Elems(far), k);
  }

  lemma Regroup(cur: EventId, near: set<EventId>, far: set<EventId>, next: set<EventId>)
    ensures ({cur} + near) + far == {cur} + (near + far)
    ensures (near + far) + next == near + (far + next)
  {}

  lemma VisitQueue(edges: Edges, a: EventId, visited: set<EventId>, cur: EventId, near: set<EventId>, far: set<EventId>)
    requires Searching(edges, a, visited, ({cur} + near) + far) && cur !in visited
    ensures Searching(edges, a, visited + {cur}, near + (far + (Next(edges, cur) - (visited + {cur}))))
  {
    Regroup(cur, near, far, Next(edges, cur) - (visited + {cur}));
    SearchGoesOn(edges, a, visited, cur, near + far);
  }

  lemma VisitSets(edges: Edges, a: EventId, visited: set<EventId>, cur: EventId, near: set<EventId>, far: set<EventId>,
                  k: nat)
    requires SearchState(edges, a, visited, {cur} + near, far, k) && cur !in visited
    ensures SearchState(edges, a, visited + {cur}, near, far + (Next(edges, cur) - (visited + {cur})), k)
  {
    VisitQueue(edges, a, visited, cur, near, far);
    LevelVisit(edges, a, visited, cur, near, far, k);
  }

  lemma VisitHead(edges: Edges, a: EventId, visited: set<EventId>, near: seq<EventId>, far: seq<EventId>, k: nat,
                  more: seq<EventId>)
    requires Searched(edges, a, visited, near, far, k) && near != [] && near[0] !in visited
    requires Elems(more) == Next(edges, near[0]) - (visited + {near[0]})
    ensures Searched(edges, a, visited + {near[0]}, near[1..], far + more, k)
  {
    ElemsOfTail(near);
    ElemsOfSum(far, more);
    VisitSets(edges, a, visited, near[0], Elems(near[1..]), Elems(far), k);
  }

  // ---- What the search answers ----

  /** A yes has a path shorter than the bound. A close event is found and a far one is not; in between the
      order of the edges decides. Where everything reached fits the bound the answer is exact. */
  ghost predicate Answer(edges: Edges, a: EventId, b: EventId, bound: nat, found: bool) {
    && (found ==> a != b && exists n: nat :: 1 <= n < bound && PathOf(edges, a, b, n))
    && (a != b && Close(edges, a, b, bound) ==> found)
    && (Far(edges, a, b, bound) ==> !found)
    && (ReachesAtMost(edges, a, bound) ==> (found <==> a != b && HasPath(edges, a, b)))
  }

  lemma SameIsFar(edges: Edges, a: EventId, bound: nat)
    ensures Answer(edges, a, a, bound, false)
  {}

  /** A no for an event that is not close. */
  lemma NoAnswer(edges: Edges, a: EventId, b: EventId, bound: nat)
    requires !Close(edges, a, b, bound)
    ensures Answer(edges, a, b, bound, false)
  {
    if ReachesAtMost(edges, a, bound) && HasPath(edges, a, b) { ReachedIsClose(edges, a, b, bound); }
  }

  lemma FoundAnswer(edges: Edges, a: EventId, b: EventId, visited: set<EventId>, near: seq<EventId>, far: seq<EventId>,
                    k: nat, bound: nat)
    requires Searched(edges, a, visited, near, far, k) && near != [] && near[0] == b != a && |visited| < bound
    ensures Answer(edges, a, b, bound, true)
  {
    assert b in Elems(near);
    FoundIsNotFar(edges, a, b, visited, Elems(near), Elems(far), k, bound);
    assert Near(edges, a, b, |visited|);
    var n: nat :| n <= |visited| && PathOf(edges, a, b, n);
    assert n != 0;
    assert HasPath(edges, a, b);
  }

  lemma GivenUpAnswer(edges: Edges, a: EventId, b: EventId, visited: set<EventId>, near: seq<EventId>,
                      far: seq<EventId>, k: nat, bound: nat)
    requires Searched(edges, a, visited, near, far, k) && near != [] && b !in visited + {near[0]}
    requires |visited + {near[0]}| >= bound
    ensures Answer(edges, a, b, bound, false)
  {
    assert near[0] in Elems(near);
    GivenUpIsNotClose(edges, a, b, visited, near[0], Elems(near), Elems(far), k, bound);
    NoAnswer(edges, a, b, bound);
  }

  lemma ExhaustedAnswer(edges: Edges, a: EventId, b: EventId, visited: set<EventId>, k: nat, bound: nat)
    requires Searched(edges, a, visited, [], [], k) && b !in visited && a != b
    ensures Answer(edges, a, b, bound, false)
  {
    assert Elems([]) == {} && visited + ({} + {}) == visited;
    AllVisited(edges, a, b, visited);
    NoAnswer(edges, a, b, bound);
  }

  /** The search by levels gives the answer. */
  lemma {:induction false} FindsAnswers(edges: Edges, order: EdgeOrder, a: EventId, b: EventId, visited: set<EventId>,
                                        near: seq<EventId>, far: seq<EventId>, k: nat, bound: nat)
    requires Lists(order, edges) && Searched(edges, a, visited, near, far, k)
    requires a != b && b !in visited && |visited| < bound
    ensures var all := Universe(edges) + {a};
            && Leads(order, all) && Elems(near + far) <= all
            && Answer(edges, a, b, bound, Finds(order, all, near + far, visited, b, bound))
    decreases Universe(edges) + {a} - visited, |near + far|, if near == [] then 1 else 0
  {
    hide Searched, Answer;
    ListsLead(order, edges, a);
    QueueIsKnown(edges, a, visited, near, far, k);
    if near == [] && far == [] {
      ExhaustedAnswer(edges, a, b, visited, k, bound);
    } else if near == [] {
      NextLevel(edges, a, visited, far, k);
      FindsAnswers(edges, order, a, b, visited, far, [], k + 1, bound);
      assert near + far == far + [] == far;
    } else {
      var cur, more := near[0], Unvisited(Listed(order, near[0]), visited + {near[0]});
      HeadIsKnown(edges, a, visited, near, far, k);
      QueueAdvances(order, near, far, visited);
      if cur == b {
        FoundAnswer(edges, a, b, visited, near, far, k, bound);
      } else if cur in visited {
        SkipHead(edges, a, visited, near, far, k);
        FindsAnswers(edges, order, a, b, visited, near[1..], far, k, bound);
      } else if |visited + {cur}| >= bound {
        GivenUpAnswer(edges, a, b, visited, near, far, k, bound);
      } else {
        VisitHead(edges, a, visited, near, far, k, more);
        FindsAnswers(edges, order, a, b, visited + {cur}, near[1..], far + more, k, bound);
      }
    }
  }

  lemma QueueIsKnown(edges: Edges, a: EventId, visited: set<EventId>, near: seq<EventId>, far: seq<EventId>, k: nat)
    requires Searched(edges, a, visited, near, far, k)
    ensures Elems(near + far) <= Universe(edges) + {a}
  {
    ElemsOfSum(near, far);
    assert Elems(near) + Elems(far) <= visited + (Elems(near) + Elems(far));
  }

  lemma QueueAdvances(order: EdgeOrder, near: seq<EventId>, far: seq<EventId>, visited: set<EventId>)
    requires near != []
    ensures (near + far)[0] == near[0] && (near + far)[1..] == near[1..] + far
    ensures Advanced(order, near + far, visited)
            == near[1..] + (far + Unvisited(Listed(order, near[0]), visited + {near[0]}))
  {}

  /** The search from `a`, in whatever order the edges are listed. */
  lemma FoundFromAnswers(edges: Edges, order: EdgeOrder, a: EventId, b: EventId, bound: nat)
    requires Lists(order, edges) && bound > 0
    ensures Answer(edges, a, b, bound, FoundFrom(edges, order, a, b, bound))
  {
    if a == b {
      SameIsFar(edges, a, bound);
    } else {
      SearchStarts(edges, a);
      FindsAnswers(edges, order, a, b, {}, [a], [], 0, bound);
      assert [a] + [] == [a];
    }
  }

  /** Once everything reachable has been visited, what was not is not reachable. */
  lemma AllVisited(edges: Edges, a: EventId, b: EventId, visited: set<EventId>)
    requires a in visited && Closed(edges, visited) && b !in visited
    ensures !HasPath(edges, a, b)
  {
    if HasPath(edges, a, b) {
      var n: nat :| n >= 1 && PathOf(edges, a, b, n);
      ClosedHoldsPaths(edges, visited, a, b, n);
    }
  }

  // ---- The bound is sharp ----

  /** The event at position `i` of a chain. */
  function Link(i: nat): EventId {
    EventId(Tally(i))
  }

  function Tally(i: nat): (s: string)
    ensures |s| == i
  {
    if i == 0 then "" else Tally(i - 1) + "|"
  }

  /** A chain of `k` edges. */
  function Chain(k: nat): Edges {
    if k == 0 then map[] else Chain(k - 1)[Link(k - 1) := {Link(k)}]
  }

  lemma {:induction false} ChainNext(k: nat, a: EventId, b: EventId)
    requires b in Next(Chain(k), a)
    ensures exists i: nat :: i < k && a == Link(i) && b == Link(i + 1)
  {
    if a != Link(k - 1) { ChainNext(k - 1, a, b); }
  }

  lemma {:induction false} ChainPath(k: nat, i: nat, b: EventId, n: nat)
    requires PathOf(Chain(k), Link(i), b, n)
    ensures b == Link(i + n)
    decreases n
  {
    if n > 0 {
      var c :| PathOf(Chain(k), Link(i), c, n - 1) && b in Next(Chain(k), c);
      ChainPath(k, i, c, n - 1);
      ChainNext(k, c, b);
      var j: nat :| j < k && c == Link(j) && b == Link(j + 1);
      assert |c.name| == i + n - 1 == j;
    }
  }

  lemma {:induction false} ChainLeads(k: nat, n: nat)
    requires n <= k
    ensures PathOf(Chain(k), Link(0), Link(n), n)
    decreases n
  {
    if n > 0 {
      ChainLeads(k, n - 1);
      ChainHas(k, n - 1);
      PathStep(Chain(k), Link(0), Link(n - 1), Link(n), n - 1);
    }
  }

  lemma {:induction false} ChainHas(k: nat, i: nat)
    requires i < k
    ensures Link(i + 1) in Next(Chain(k), Link(i))
  {
    if i < k - 1 {
      ChainHas(k - 1, i);
      assert |Link(i).name| != |Link(k - 1).name|;
    }
  }

  /** The bound is sharp: along a chain of MAX_BFS_DEPTH edges the last event is reached from the first, but
      by no path short enough for `HappenedBefore` to answer yes. */
  lemma BoundIsSharp()
    ensures HasPath(Chain(MAX_BFS_DEPTH), Link(0), Link(MAX_BFS_DEPTH)) && Link(0) != Link(MAX_BFS_DEPTH)
    ensures !exists n: nat :: 1 <= n < MAX_BFS_DEPTH && PathOf(Chain(MAX_BFS_DEPTH), Link(0), Link(MAX_BFS_DEPTH), n)
  {
    ChainLeads(MAX_BFS_DEPTH, MAX_BFS_DEPTH);
    assert |Link(0).name| != |Link(MAX_BFS_DEPTH).name|;
    forall n: nat | n < MAX_BFS_DEPTH ensures !PathOf(Chain(MAX_BFS_DEPTH), Link(0), Link(MAX_BFS_DEPTH), n) {
      assert |Link(n).name| == n;
      if PathOf(Chain(MAX_BFS_DEPTH), Link(0), Link(MAX_BFS_DEPTH), n) {
        ChainPath(MAX_BFS_DEPTH, 0, Link(MAX_BFS_DEPTH), n);
      }
    }
  }
}
