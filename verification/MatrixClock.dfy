/** Matrix clocks: row `k` is what the holder knows of `k`'s vector clock. */
module MatrixClock {
  import opened VectorClock

  type Matrix = map<Pid, Clock>

  const MAX_UINT64: nat := 0xFFFF_FFFF_FFFF_FFFF

  function Row(m: Matrix, k: Pid): Clock {
    if k in m then m[k] else map[]
  }

  function Entry(m: Matrix, k: Pid, q: Pid): nat {
    Get(Row(m, k), q)
  }

  function ZeroMatrix(pids: set<Pid>): Matrix {
    map p | p in pids :: Zero(pids)
  }

  function TickedMatrix(m: Matrix, self: Pid): Matrix {
    m[self := Ticked(Row(m, self), self)]
  }

  /** The rows other than the receiver's own, raised to the incoming ones; absent rows are created. */
  function Propagated(m: Matrix, incoming: Matrix, self: Pid): Matrix {
    m + map k | k in incoming && k != self :: Merged(Row(m, k), incoming[k])
  }

  /** The same for the rows in `todo` left out. */
  ghost predicate PropagatedBut(m: Matrix, incoming: Matrix, self: Pid, todo: set<Pid>, r: Matrix) {
    forall k ::
      && (k in r <==> k in m || (k in incoming && k !in todo && k != self))
      && (k in r ==> r[k] == if k in incoming && k !in todo && k != self then Merged(Row(m, k), incoming[k]) else m[k])
  }

  lemma PropagateDone(m: Matrix, incoming: Matrix, self: Pid, r: Matrix)
    requires PropagatedBut(m, incoming, self, {}, r)
    ensures r == Propagated(m, incoming, self)
  {
    forall k ensures k in r <==> k in Propagated(m, incoming, self) {}
    forall k | k in r ensures r[k] == Propagated(m, incoming, self)[k] {}
  }

  lemma PropagateRow(m: Matrix, incoming: Matrix, self: Pid, todo: set<Pid>, r: Matrix, k: Pid)
    requires PropagatedBut(m, incoming, self, todo, r) && k in todo && k in incoming
    ensures if k == self then PropagatedBut(m, incoming, self, todo - {k}, r)
            else PropagatedBut(m, incoming, self, todo - {k}, r[k := Merged(Row(r, k), incoming[k])])
  {}

  /** Tick first, then merge the sender's row into the own row, then merge every other row. */
  function ReceivedMatrix(local: Matrix, incoming: Matrix, self: Pid, sender: Pid): Matrix {
    var ticked := TickedMatrix(local, self);
    Propagated(ticked[self := Merged(ticked[self], Row(incoming, sender))], incoming, self)
  }

  method Tick(m: Matrix, self: Pid) returns (r: Matrix)
    ensures r == TickedMatrix(m, self)
  {
    r := m;
    if self !in r {
      r := r[self := map[]];
    }
    var row: Clock := r[self];
    row := row[self := Get(row, self) + 1];
    r := r[self := row];
  }

  method Send(m: Matrix, self: Pid) returns (local: Matrix, stamp: Matrix)
    ensures local == stamp == TickedMatrix(m, self)
  {
    local := Tick(m, self);
    stamp := local;
  }

  /** The loop over the incoming rows. */
  method Propagate(m: Matrix, incoming: Matrix, self: Pid) returns (r: Matrix)
    ensures r == Propagated(m, incoming, self)
  {
    r := m;
    var todo := incoming.Keys;
    while todo != {}
      invariant todo <= incoming.Keys && PropagatedBut(m, incoming, self, todo, r)
    {
      var k :| k in todo;
      PropagateRow(m, incoming, self, todo, r, k);
      todo := todo - {k};
      if k != self {
        var row := MergePassive(Row(r, k), incoming[k]);
        r := r[k := row];
      }
    }
    PropagateDone(m, incoming, self, r);
  }

  method Receive(local: Matrix, incoming: Matrix, self: Pid, sender: Pid) returns (r: Matrix)
    ensures r == ReceivedMatrix(local, incoming, self, sender)
  {
    r := Tick(local, self);
    var own := MergePassive(r[self], Row(incoming, sender));
    r := r[self := own];
    r := Propagate(r, incoming, self);
  }

  /** The least entry for `q` over the stored rows, capped at the largest 64-bit value. */
  ghost function LeastEntry(m: Matrix, q: Pid): (least: nat)
    ensures least <= MAX_UINT64
    ensures forall k :: k in m ==> least <= Entry(m, k, q)
    ensures least == MAX_UINT64 || exists k :: k in m && Entry(m, k, q) == least
    decreases |m|
  {
    if m == map[] then MAX_UINT64
    else
      var k :| k in m;
      var rest := m - {k};
      assert forall l :: l in rest ==> Entry(rest, l, q) == Entry(m, l, q);
      assert rest.Keys == m.Keys - {k};
      var other := LeastEntry(rest, q);
      if Entry(m, k, q) < other then Entry(m, k, q) else other
  }

  /** The largest 64-bit value is the scan's starting point, so a minimum that high reads as zero. */
  ghost function KnownByAll(m: Matrix, q: Pid): nat {
    if LeastEntry(m, q) == MAX_UINT64 then 0 else LeastEntry(m, q)
  }

  method MinKnowledge(m: Matrix, q: Pid) returns (least: nat)
    ensures least == KnownByAll(m, q)
    ensures forall k :: k in m ==> least <= Entry(m, k, q)
    ensures least > 0 ==> exists k :: k in m && Entry(m, k, q) == least < MAX_UINT64
    ensures least == 0 ==>
              (forall k :: k in m ==> Entry(m, k, q) >= MAX_UINT64) || exists k :: k in m && Entry(m, k, q) == 0
  {
    if m == map[] {
      return 0;
    }
    least := MAX_UINT64;
    var todo := m.Keys;
    while todo != {}
      invariant todo <= m.Keys
      invariant least <= MAX_UINT64
      invariant forall k :: k in m && k !in todo ==> least <= Entry(m, k, q)
      invariant least == MAX_UINT64 || exists k :: k in m && k !in todo && Entry(m, k, q) == least
    {
      var k :| k in todo;
      todo := todo - {k};
      if Get(m[k], q) < least {
        least := Get(m[k], q);
      }
    }
    assert least == LeastEntry(m, q);
    if least == MAX_UINT64 {
      least := 0;
    }
  }

  method CanGC(m: Matrix, q: Pid, upTo: nat) returns (safe: bool)
    ensures safe <==> KnownByAll(m, q) >= upTo
  {
    var least := MinKnowledge(m, q);
    safe := least >= upTo;
  }
}
