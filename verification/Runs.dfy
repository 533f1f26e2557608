/** Runs of N processes with fixed membership, immediate delivery and vector clocks.

    A run is the global sequence of events; a receive names the send it consumes by its position. Any
    subset of the sends may be received, in any order and any number of times, so a run describes a
    network that loses, reorders and duplicates. Happened-before is Lamport's relation on the events;
    stamps are what the clock rules compute. The main result is that `Compare` on the stamps decides
    happened-before exactly.
 */
module Runs {
  import opened VectorClock

  datatype Event =
    | Internal(at: Pid)
    | SendTo(at: Pid, to: Pid)
    | Receive(at: Pid, src: nat)

  type Run = seq<Event>

  predicate ValidEvent(pids: set<Pid>, h: Run, e: Event) {
    && e.at in pids
    && (e.Receive? ==> e.src < |h| && h[e.src].SendTo? && h[e.src].to == e.at)
  }

  predicate Valid(pids: set<Pid>, h: Run) {
    forall i :: 0 <= i < |h| ==> ValidEvent(pids, h[..i], h[i])
  }

  // ---- Clocks along a run ----

  /** The clock of process `p` once the first `n` events have happened. */
  function ClockAt(pids: set<Pid>, h: Run, n: nat, p: Pid): Clock
    requires Valid(pids, h) && n <= |h|
    decreases n, 0
  {
    if n == 0 then Zero(pids)
    else if h[n - 1].at == p then Stamp(pids, h, n - 1)
    else ClockAt(pids, h, n - 1, p)
  }

  /** The clock of an event: its process's clock right after it, which is also what a send carries. */
  function Stamp(pids: set<Pid>, h: Run, i: nat): Clock
    requires Valid(pids, h) && i < |h|
    decreases i, 1
  {
    var e := h[i];
    var before := ClockAt(pids, h, i, e.at);
    assert ValidEvent(pids, h[..i], e);
    if e.Receive? then Received(before, Stamp(pids, h, e.src), e.at) else Ticked(before, e.at)
  }

  /** How many of the first `n` events are at `p`. */
  function CountAt(h: Run, n: nat, p: Pid): nat
    requires n <= |h|
  {
    if n == 0 then 0 else CountAt(h, n - 1, p) + if h[n - 1].at == p then 1 else 0
  }

  /** The position of event `i` among the events of its own process, from 1. */
  function Index(h: Run, i: nat): nat
    requires i < |h|
  {
    CountAt(h, i + 1, h[i].at)
  }

  // ---- Happened-before ----

  /** One step of happened-before: program order, or a send and a receive of it. */
  predicate Edge(h: Run, a: nat, b: nat) {
    a < b < |h| && (h[a].at == h[b].at || h[b] == Receive(h[b].at, a))
  }

  ghost predicate HB(h: Run, a: nat, b: nat)
    decreases b, 0
  {
    exists c: nat :: c < b && Edge(h, c, b) && Past(h, a, c)
  }

  /** Event `a` is event `b` or happened before it. */
  ghost predicate Past(h: Run, a: nat, b: nat)
    decreases b, 1
  {
    a == b < |h| || HB(h, a, b)
  }

  lemma {:induction false} PastIsEarlier(h: Run, a: nat, b: nat)
    requires Past(h, a, b)
    ensures a <= b < |h|
    decreases b
  {
    if a != b {
      var c: nat :| c < b && Edge(h, c, b) && Past(h, a, c);
      PastIsEarlier(h, a, c);
    }
  }

  lemma {:induction false} PastTransitive(h: Run, a: nat, b: nat, c: nat)
    requires Past(h, a, b) && Past(h, b, c)
    ensures Past(h, a, c)
    decreases c
  {
    if b != c {
      var d: nat :| d < c && Edge(h, d, c) && Past(h, b, d);
      PastTransitive(h, a, b, d);
      assert HB(h, a, c);
    }
  }

  lemma SameProcessPast(h: Run, a: nat, b: nat)
    requires a <= b < |h| && h[a].at == h[b].at
    ensures Past(h, a, b)
  {
    assert a < b ==> Edge(h, a, b) && Past(h, a, a);
  }

  // ---- Counting ----

  lemma {:induction false} CountMonotone(h: Run, m: nat, n: nat, p: Pid)
    requires m <= n <= |h|
    ensures CountAt(h, m, p) <= CountAt(h, n, p)
    ensures m < n && h[n - 1].at == p ==> CountAt(h, m, p) < CountAt(h, n, p)
    decreases n
  {
    if m < n { CountMonotone(h, m, n - 1, p); }
  }

  lemma NoIndexZero(h: Run, x: nat)
    requires x < |h|
    ensures Index(h, x) > 0
  {}

  /** The events of one process are ordered by their index. */
  lemma IndexOrder(h: Run, a: nat, b: nat)
    requires a < |h| && b < |h| && h[a].at == h[b].at
    ensures Index(h, a) <= Index(h, b) <==> a <= b
  {
    CountMonotone(h, a + 1, if a <= b then b + 1 else a + 1, h[a].at);
    CountMonotone(h, b + 1, if b <= a then a + 1 else b + 1, h[a].at);
  }

  /** Every index up to the count is some event's. */
  lemma {:induction false} EventOfIndex(h: Run, n: nat, p: Pid, k: nat) returns (a: nat)
    requires n <= |h| && 1 <= k <= CountAt(h, n, p)
    ensures a < n && h[a].at == p && Index(h, a) == k
    decreases n
  {
    if h[n - 1].at == p && CountAt(h, n, p) == k {
      a := n - 1;
    } else {
      a := EventOfIndex(h, n - 1, p, k);
    }
  }

  // ---- What clocks know ----

  /** No clock counts more events of a process than have happened, and its own count is exact. */
  lemma {:induction false} ClockBound(pids: set<Pid>, h: Run, n: nat, p: Pid, q: Pid)
    requires Valid(pids, h) && n <= |h|
    ensures Get(ClockAt(pids, h, n, p), q) <= CountAt(h, n, q)
    ensures p == q ==> Get(ClockAt(pids, h, n, p), q) == CountAt(h, n, q)
    decreases n, 0
  {
    if n == 0 {
    } else if h[n - 1].at == p {
      StampBound(pids, h, n - 1, q);
    } else {
      ClockBound(pids, h, n - 1, p, q);
    }
  }

  lemma {:induction false} StampBound(pids: set<Pid>, h: Run, i: nat, q: Pid)
    requires Valid(pids, h) && i < |h|
    ensures Get(Stamp(pids, h, i), q) <= CountAt(h, i + 1, q)
    ensures Get(Stamp(pids, h, i), h[i].at) == Index(h, i)
    decreases i, 1
  {
    var e := h[i];
    var before := ClockAt(pids, h, i, e.at);
    assert ValidEvent(pids, h[..i], e);
    ClockBound(pids, h, i, e.at, q);
    ClockBound(pids, h, i, e.at, e.at);
    if e.Receive? {
      StampBound(pids, h, e.src, q);
      StampBound(pids, h, e.src, e.at);
      CountMonotone(h, e.src + 1, i, q);
      CountMonotone(h, e.src + 1, i, e.at);
      GetReceived(before, Stamp(pids, h, e.src), e.at, q);
      GetReceived(before, Stamp(pids, h, e.src), e.at, e.at);
    } else {
      GetTicked(before, e.at, q);
    }
  }

  /** Some event of `p` among the first `n` has `a` in its past. */
  ghost predicate Knows(h: Run, n: nat, p: Pid, a: nat)
    requires n <= |h|
  {
    exists b: nat :: b < n && h[b].at == p && Past(h, a, b)
  }

  /** The entry for `a`'s process reaches `a`'s index exactly when the process knows `a`. */
  lemma {:induction false} ClockKnows(pids: set<Pid>, h: Run, n: nat, p: Pid, a: nat)
    requires Valid(pids, h) && n <= |h| && a < |h|
    ensures Get(ClockAt(pids, h, n, p), h[a].at) >= Index(h, a) <==> Knows(h, n, p, a)
    decreases n, 0
  {
    if n == 0 {
      CountMonotone(h, 0, a + 1, h[a].at);
    } else if h[n - 1].at == p {
      StampKnows(pids, h, n - 1, a);
      if Knows(h, n, p, a) {
        var b: nat :| b < n && h[b].at == p && Past(h, a, b);
        SameProcessPast(h, b, n - 1);
        PastTransitive(h, a, b, n - 1);
      }
    } else {
      ClockKnows(pids, h, n - 1, p, a);
      assert Knows(h, n, p, a) <==> Knows(h, n - 1, p, a);
    }
  }

  /** The stamp of `b` counts up to `a` exactly when `a` is in `b`'s past. */
  lemma {:induction false} StampKnows(pids: set<Pid>, h: Run, b: nat, a: nat)
    requires Valid(pids, h) && b < |h| && a < |h|
    ensures Get(Stamp(pids, h, b), h[a].at) >= Index(h, a) <==> Past(h, a, b)
    decreases b, 1
  {
    var e, q := h[b], h[a].at;
    if e.at == q {
      StampBound(pids, h, b, q);
      IndexOrder(h, a, b);
      if a <= b { SameProcessPast(h, a, b); }
      if Past(h, a, b) { PastIsEarlier(h, a, b); }
    } else {
      var before := ClockAt(pids, h, b, e.at);
      assert ValidEvent(pids, h[..b], e);
      ClockKnows(pids, h, b, e.at, a);
      if e.Receive? {
        StampKnows(pids, h, e.src, a);
        GetReceived(before, Stamp(pids, h, e.src), e.at, q);
      } else {
        GetTicked(before, e.at, q);
      }
      PastByStep(h, a, b);
    }
  }

  /** The past of an event of another process comes through its own process or its message. */
  lemma PastByStep(h: Run, a: nat, b: nat)
    requires b < |h| && a < |h| && h[a].at != h[b].at
    ensures Past(h, a, b) <==>
            Knows(h, b, h[b].at, a) || (h[b].Receive? && h[b].src < b && Past(h, a, h[b].src))
  {}

  // ---- The strong clock condition ----

  lemma {:induction false} StampMonotone(pids: set<Pid>, h: Run, a: nat, b: nat)
    requires Valid(pids, h) && Past(h, a, b)
    ensures a <= b < |h| && Leq(Stamp(pids, h, a), Stamp(pids, h, b))
  {
    PastIsEarlier(h, a, b);
    forall q ensures Get(Stamp(pids, h, a), q) <= Get(Stamp(pids, h, b), q) {
      var k := Get(Stamp(pids, h, a), q);
      StampBound(pids, h, a, q);
      if k > 0 {
        var x := EventOfIndex(h, a + 1, q, k);
        StampKnows(pids, h, a, x);
        PastTransitive(h, x, a, b);
        StampKnows(pids, h, b, x);
      }
    }
  }

  lemma StampOrder(pids: set<Pid>, h: Run, a: nat, b: nat)
    requires Valid(pids, h) && a < |h| && b < |h|
    ensures Leq(Stamp(pids, h, a), Stamp(pids, h, b)) <==> Past(h, a, b)
  {
    if Past(h, a, b) {
      StampMonotone(pids, h, a, b);
    }
    if Leq(Stamp(pids, h, a), Stamp(pids, h, b)) {
      StampBound(pids, h, a, h[a].at);
      assert Get(Stamp(pids, h, a), h[a].at) <= Get(Stamp(pids, h, b), h[a].at);
      StampKnows(pids, h, b, a);
    }
  }

  /** Comparing the clocks of two events decides their causal relation, whatever the network did. */
  lemma StrongClockCondition(pids: set<Pid>, h: Run, a: nat, b: nat)
    requires Valid(pids, h) && a < |h| && b < |h|
    ensures var order := OrderOf(Stamp(pids, h, a), Stamp(pids, h, b));
            && (order == HappenedBefore <==> HB(h, a, b))
            && (order == HappenedAfter <==> HB(h, b, a))
            && (order == Identical <==> a == b)
            && (order == Concurrent <==> a != b && !HB(h, a, b) && !HB(h, b, a))
  {
    StampOrder(pids, h, a, b);
    StampOrder(pids, h, b, a);
    if Past(h, a, b) { PastIsEarlier(h, a, b); }
    if Past(h, b, a) { PastIsEarlier(h, b, a); }
    Irreflexive(h, a);
  }

  lemma Irreflexive(h: Run, a: nat)
    ensures !HB(h, a, a)
  {
    if HB(h, a, a) {
      var c: nat :| c < a && Edge(h, c, a) && Past(h, a, c);
      PastIsEarlier(h, a, c);
    }
  }

  // ---- Extending a run ----

  lemma {:induction false} ExtendClock(pids: set<Pid>, h: Run, g: Run, n: nat, p: Pid)
    requires Valid(pids, h) && Valid(pids, g) && n <= |h| <= |g| && h == g[..|h|]
    ensures ClockAt(pids, h, n, p) == ClockAt(pids, g, n, p)
    decreases n, 0
  {
    if n > 0 {
      assert h[n - 1] == g[n - 1];
      if h[n - 1].at == p {
        ExtendStamp(pids, h, g, n - 1);
      } else {
        ExtendClock(pids, h, g, n - 1, p);
      }
    }
  }

  lemma {:induction false} ExtendStamp(pids: set<Pid>, h: Run, g: Run, i: nat)
    requires Valid(pids, h) && Valid(pids, g) && i < |h| <= |g| && h == g[..|h|]
    ensures Stamp(pids, h, i) == Stamp(pids, g, i)
    decreases i, 1
  {
    assert h[i] == g[i];
    assert ValidEvent(pids, h[..i], h[i]);
    ExtendClock(pids, h, g, i, h[i].at);
    if h[i].Receive? {
      ExtendStamp(pids, h, g, h[i].src);
    }
  }

  lemma ExtendValid(pids: set<Pid>, h: Run, e: Event)
    requires Valid(pids, h) && ValidEvent(pids, h, e)
    ensures Valid(pids, h + [e])
  {}
}
