/** Vector clocks: sparse maps from process ids to counters, where a missing key counts as zero.

    `Ticked`, `Merged` and `Received` are the clock rules as functions; the methods below them are the
    loops that fill a fresh map entry by entry, each proved to compute its function. `OrderOf` is the
    causal order defined from the pointwise order alone; `Compare` is the scan that decides it.
 */
module VectorClock {

  /** A process id: the Go code uses the bare string. */
  datatype Pid = Pid(name: string)

  predicate NoRepeat(pids: seq<Pid>) {
    forall i, j :: 0 <= i < j < |pids| ==> pids[i] != pids[j]
  }

  function Members(pids: seq<Pid>): set<Pid> {
    set p | p in pids
  }

  type Clock = map<Pid, nat>

  datatype Order = HappenedBefore | HappenedAfter | Concurrent | Identical

  function Get(c: Clock, p: Pid): nat {
    if p in c then c[p] else 0
  }

  function Max(x: nat, y: nat): nat {
    if x < y then y else x
  }

  /** The pointwise order, over every process id and not only the stored ones. */
  ghost predicate Leq(a: Clock, b: Clock) {
    forall p :: Get(a, p) <= Get(b, p)
  }

  /** Two maps that read the same everywhere: they may differ in which zeros they store. */
  ghost predicate Same(a: Clock, b: Clock) {
    forall p :: Get(a, p) == Get(b, p)
  }

  ghost function OrderOf(a: Clock, b: Clock): Order {
    if Leq(a, b) then (if Leq(b, a) then Identical else HappenedBefore)
    else if Leq(b, a) then HappenedAfter
    else Concurrent
  }

  function Zero(pids: set<Pid>): Clock {
    map p | p in pids :: 0
  }

  function Ticked(c: Clock, p: Pid): Clock {
    c[p := Get(c, p) + 1]
  }

  /** Pointwise maximum; a key of `b` is stored only where it raises the entry, as the loop does. */
  function Merged(a: Clock, b: Clock): Clock {
    a + map p | p in b && Get(a, p) < b[p] :: b[p]
  }

  function Received(local: Clock, stamp: Clock, self: Pid): Clock {
    Ticked(Merged(local, stamp), self)
  }

  lemma GetTicked(c: Clock, p: Pid, q: Pid)
    ensures Get(Ticked(c, p), q) == Get(c, q) + if p == q then 1 else 0
  {}

  lemma GetMerged(a: Clock, b: Clock, q: Pid)
    ensures Get(Merged(a, b), q) == Max(Get(a, q), Get(b, q))
  {}

  lemma GetReceived(a: Clock, b: Clock, self: Pid, q: Pid)
    ensures Get(Received(a, b, self), q) == Max(Get(a, q), Get(b, q)) + if self == q then 1 else 0
  {}

  /** The merge is the least upper bound in the pointwise order. */
  lemma MergedIsLeastUpperBound(a: Clock, b: Clock, c: Clock)
    ensures Leq(Merged(a, b), c) <==> Leq(a, c) && Leq(b, c)
  {}

  method New(pids: seq<Pid>) returns (c: Clock)
    ensures c == Zero(set p | p in pids)
  {
    c := map[];
    for i := 0 to |pids|
      invariant c == Zero(set p | p in pids[..i])
    {
      c := c[pids[i] := 0];
    }
    assert pids[..|pids|] == pids;
  }

  method Tick(c: Clock, p: Pid) returns (r: Clock)
    ensures r == Ticked(c, p)
    ensures r.Keys == c.Keys + {p} && forall q :: Get(r, q) == Get(c, q) + if q == p then 1 else 0
  {
    r := c[p := Get(c, p) + 1];
  }

  method Send(c: Clock, p: Pid) returns (local: Clock, stamp: Clock)
    ensures local == stamp == Ticked(c, p)
  {
    local := Tick(c, p);
    stamp := local;
  }

  method MergePassive(a: Clock, b: Clock) returns (r: Clock)
    ensures r == Merged(a, b)
    ensures forall p :: Get(r, p) == Max(Get(a, p), Get(b, p))
    ensures forall p :: p in r <==> p in a || (p in b && Get(a, p) < b[p])
  {
    r := a;
    var todo := b.Keys;
    while todo != {}
      invariant todo <= b.Keys
      invariant forall p :: p in r <==> p in a || (p in b && p !in todo && Get(a, p) < b[p])
      invariant forall p :: p in r ==>
        r[p] == if p in b && p !in todo && Get(a, p) < b[p] then b[p] else Get(a, p)
    {
      var k :| k in todo;
      if Get(r, k) < b[k] {
        r := r[k := b[k]];
      }
      todo := todo - {k};
    }
  }

  method Receive(local: Clock, stamp: Clock, self: Pid) returns (r: Clock)
    ensures r == Received(local, stamp, self)
    ensures forall p :: Get(r, p) == Max(Get(local, p), Get(stamp, p)) + if p == self then 1 else 0
  {
    var merged := MergePassive(local, stamp);
    r := Tick(merged, self);
  }

  /** Scans the union of the stored keys and stops once both directions have been seen. */
  method Compare(a: Clock, b: Clock) returns (order: Order)
    ensures order == OrderOf(a, b)
  {
    var todo := a.Keys + b.Keys;
    var aLess, bLess := false, false;
    while todo != {}
      invariant todo <= a.Keys + b.Keys
      invariant aLess <==> exists k :: k in a.Keys + b.Keys - todo && Get(a, k) < Get(b, k)
      invariant bLess <==> exists k :: k in a.Keys + b.Keys - todo && Get(b, k) < Get(a, k)
    {
      var k :| k in todo;
      ghost var seen := a.Keys + b.Keys - todo;
      todo := todo - {k};
      assert a.Keys + b.Keys - todo == seen + {k};
      if Get(a, k) < Get(b, k) { aLess := true; }
      if Get(b, k) < Get(a, k) { bLess := true; }
      if aLess && bLess {
        return Concurrent;
      }
    }
    assert aLess <==> !Leq(b, a) by { assert forall k :: k !in a.Keys + b.Keys ==> Get(a, k) == Get(b, k); }
    assert bLess <==> !Leq(a, b) by { assert forall k :: k !in a.Keys + b.Keys ==> Get(a, k) == Get(b, k); }
    if !aLess && !bLess { order := Identical; }
    else if aLess && !bLess { order := HappenedBefore; }
    else if bLess && !aLess { order := HappenedAfter; }
    else { order := Concurrent; }
  }
}
