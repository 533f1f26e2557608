/** Matrix clocks over whole runs: every row of every matrix is the vector clock of a definite event,
    which makes the garbage-collection test exact for the rows that are stored.
 */
module MatrixRuns {
  import opened VectorClock
  import opened MatrixClock
  import opened Runs

  /** Which rows each process's matrix is created with. */
  type Rows = map<Pid, set<Pid>>

  function RowsOf(rows: Rows, p: Pid): set<Pid> {
    if p in rows then rows[p] else {}
  }

  function FirstMatrix(rows: Rows, p: Pid): Matrix {
    ZeroMatrix(RowsOf(rows, p))
  }

  /** Every matrix is created with at least its own process's row. */
  ghost predicate OwnRowsStored(pids: set<Pid>, rows: Rows) {
    forall p :: p in pids ==> p in RowsOf(rows, p)
  }

  function MatrixAt(pids: set<Pid>, rows: Rows, h: Run, n: nat, p: Pid): Matrix
    requires Valid(pids, h) && n <= |h|
    decreases n, 0
  {
    if n == 0 then FirstMatrix(rows, p)
    else if h[n - 1].at == p then MatrixStamp(pids, rows, h, n - 1)
    else MatrixAt(pids, rows, h, n - 1, p)
  }

  function MatrixStamp(pids: set<Pid>, rows: Rows, h: Run, i: nat): Matrix
    requires Valid(pids, h) && i < |h|
    decreases i, 1
  {
    var e := h[i];
    var before := MatrixAt(pids, rows, h, i, e.at);
    assert ValidEvent(pids, h[..i], e);
    if e.Receive? then ReceivedMatrix(before, MatrixStamp(pids, rows, h, e.src), e.at, h[e.src].at)
    else TickedMatrix(before, e.at)
  }

  /** `row` is the vector clock of `k`'s event number `c`, and all zero when `c` is zero. */
  ghost predicate RowOf(pids: set<Pid>, h: Run, row: Clock, k: Pid, c: nat)
    requires Valid(pids, h)
  {
    && (c == 0 ==> forall q :: Get(row, q) == 0)
    && (forall x :: 0 <= x < |h| && h[x].at == k && Index(h, x) == c ==> Same(row, Stamp(pids, h, x)))
  }

  lemma RowEntry(m: Matrix, incoming: Matrix, self: Pid, sender: Pid, k: Pid, q: Pid)
    ensures Entry(TickedMatrix(m, self), k, q) == Entry(m, k, q) + if k == self == q then 1 else 0
    ensures k != self ==> Entry(ReceivedMatrix(m, incoming, self, sender), k, q)
                          == Max(Entry(m, k, q), Entry(incoming, k, q))
    ensures k == self ==> Entry(ReceivedMatrix(m, incoming, self, sender), k, q)
                          == Max(Entry(m, k, q) + if self == q then 1 else 0, Entry(incoming, sender, q))
  {
    if k == self {
      GetTicked(Row(m, self), self, q);
      GetMerged(Ticked(Row(m, self), self), Row(incoming, sender), q);
    } else {
      GetMerged(Row(m, k), Row(incoming, k), q);
    }
  }

  /** The row of the process itself evolves as its vector clock, although it ticks before merging. */
  lemma {:induction false} OwnRow(pids: set<Pid>, rows: Rows, h: Run, i: nat)
    requires Valid(pids, h) && i < |h|
    ensures Same(Row(MatrixStamp(pids, rows, h, i), h[i].at), Stamp(pids, h, i))
    decreases i, 1
  {
    var e := h[i];
    var p := e.at;
    assert ValidEvent(pids, h[..i], e);
    var m, c := MatrixAt(pids, rows, h, i, p), ClockAt(pids, h, i, p);
    MatrixRows(pids, rows, h, i, p, p);
    if e.Receive? {
      var src := e.src;
      StampRows(pids, rows, h, src, h[src].at);
      StampBound(pids, h, src, p);
      ClockBound(pids, h, i, p, p);
      CountMonotone(h, src + 1, i, p);
    }
    forall q ensures Entry(MatrixStamp(pids, rows, h, i), p, q) == Get(Stamp(pids, h, i), q) {
      if e.Receive? {
        RowEntry(m, MatrixStamp(pids, rows, h, e.src), p, h[e.src].at, p, q);
        GetReceived(c, Stamp(pids, h, e.src), p, q);
      } else {
        RowEntry(m, m, p, p, p, q);
        GetTicked(c, p, q);
      }
    }
  }

  /** Two rows of `k` merge to the one that belongs to the later event of `k`. */
  lemma MergeRows(pids: set<Pid>, h: Run, a: Clock, b: Clock, merged: Clock, k: Pid, c: nat, d: nat)
    requires Valid(pids, h) && d <= c <= CountAt(h, |h|, k)
    requires RowOf(pids, h, a, k, c) && RowOf(pids, h, b, k, d)
    requires forall q :: Get(merged, q) == Max(Get(a, q), Get(b, q))
    ensures RowOf(pids, h, merged, k, c)
  {
    if d > 0 {
      var x := EventOfIndex(h, |h|, k, c);
      var y := EventOfIndex(h, |h|, k, d);
      IndexOrder(h, y, x);
      SameProcessPast(h, y, x);
      StampMonotone(pids, h, y, x);
      forall q ensures Get(b, q) <= Get(a, q) {
        assert Get(b, q) == Get(Stamp(pids, h, y), q) && Get(a, q) == Get(Stamp(pids, h, x), q);
      }
    }
    assert Same(merged, a);
  }

  /** Row `k` after event `i` is exactly the vector clock of `k`'s latest event in `i`'s past. */
  lemma {:induction false} StampRows(pids: set<Pid>, rows: Rows, h: Run, i: nat, k: Pid)
    requires Valid(pids, h) && i < |h|
    ensures RowOf(pids, h, Row(MatrixStamp(pids, rows, h, i), k), k, Get(Stamp(pids, h, i), k))
    decreases i, 2
  {
    var p := h[i].at;
    assert ValidEvent(pids, h[..i], h[i]);
    if k == p {
      OwnRow(pids, rows, h, i);
      StampBound(pids, h, i, p);
      forall x | 0 <= x < |h| && h[x].at == k && Index(h, x) == Get(Stamp(pids, h, i), k) ensures x == i {
        IndexOrder(h, x, i);
        IndexOrder(h, i, x);
      }
      NoIndexZero(h, i);
    } else {
      MatrixRows(pids, rows, h, i, p, k);
      if h[i].Receive? {
        StampRows(pids, rows, h, h[i].src, k);
      }
      OtherRow(pids, rows, h, i, k);
    }
  }

  lemma ReceivedRow(pids: set<Pid>, h: Run, m: Matrix, inc: Matrix, p: Pid, s: Pid, k: Pid, c: nat, d: nat)
    requires Valid(pids, h) && k != p && c <= CountAt(h, |h|, k) && d <= CountAt(h, |h|, k)
    requires RowOf(pids, h, Row(m, k), k, c) && RowOf(pids, h, Row(inc, k), k, d)
    ensures RowOf(pids, h, Row(ReceivedMatrix(m, inc, p, s), k), k, Max(c, d))
  {
    var row := Row(ReceivedMatrix(m, inc, p, s), k);
    forall q ensures Get(row, q) == Max(Entry(m, k, q), Entry(inc, k, q)) {
      RowEntry(m, inc, p, s, k, q);
    }
    if d <= c {
      MergeRows(pids, h, Row(m, k), Row(inc, k), row, k, c, d);
    } else {
      MergeRows(pids, h, Row(inc, k), Row(m, k), row, k, d, c);
    }
  }

  lemma OtherRow(pids: set<Pid>, rows: Rows, h: Run, i: nat, k: Pid)
    requires Valid(pids, h) && i < |h| && k != h[i].at
    requires RowOf(pids, h, Row(MatrixAt(pids, rows, h, i, h[i].at), k), k, Get(ClockAt(pids, h, i, h[i].at), k))
    requires ValidEvent(pids, h[..i], h[i])
    requires h[i].Receive? ==>
      RowOf(pids, h, Row(MatrixStamp(pids, rows, h, h[i].src), k), k, Get(Stamp(pids, h, h[i].src), k))
    ensures RowOf(pids, h, Row(MatrixStamp(pids, rows, h, i), k), k, Get(Stamp(pids, h, i), k))
  {
    var p := h[i].at;
    var m, c := MatrixAt(pids, rows, h, i, p), ClockAt(pids, h, i, p);
    ClockBound(pids, h, i, p, k);
    CountMonotone(h, i, |h|, k);
    if h[i].Receive? {
      var src := h[i].src;
      var inc, d := MatrixStamp(pids, rows, h, src), Stamp(pids, h, src);
      StampBound(pids, h, src, k);
      CountMonotone(h, src + 1, |h|, k);
      GetReceived(c, d, p, k);
      ReceivedRow(pids, h, m, inc, p, h[src].at, k, Get(c, k), Get(d, k));
    } else {
      GetTicked(c, p, k);
      assert Row(MatrixStamp(pids, rows, h, i), k) == Row(m, k);
    }
  }

  lemma {:induction false} MatrixRows(pids: set<Pid>, rows: Rows, h: Run, n: nat, p: Pid, k: Pid)
    requires Valid(pids, h) && n <= |h|
    ensures RowOf(pids, h, Row(MatrixAt(pids, rows, h, n, p), k), k, Get(ClockAt(pids, h, n, p), k))
    ensures Same(Row(MatrixAt(pids, rows, h, n, p), p), ClockAt(pids, h, n, p))
    decreases n, 0
  {
    if n == 0 {
    } else if h[n - 1].at == p {
      StampRows(pids, rows, h, n - 1, k);
      OwnRow(pids, rows, h, n - 1);
    } else {
      MatrixRows(pids, rows, h, n - 1, p, k);
    }
  }

  /** The entries do not depend on the rows the matrices were created with. */
  lemma EntriesIgnoreRows(pids: set<Pid>, rows: Rows, others: Rows, h: Run, n: nat, p: Pid, k: Pid, q: Pid)
    requires Valid(pids, h) && n <= |h|
    ensures Entry(MatrixAt(pids, rows, h, n, p), k, q) == Entry(MatrixAt(pids, others, h, n, p), k, q)
  {
    var c := Get(ClockAt(pids, h, n, p), k);
    MatrixRows(pids, rows, h, n, p, k);
    MatrixRows(pids, others, h, n, p, k);
    if c > 0 {
      ClockBound(pids, h, n, p, k);
      CountMonotone(h, n, |h|, k);
      var x := EventOfIndex(h, |h|, k, c);
      assert Get(Row(MatrixAt(pids, rows, h, n, p), k), q) == Get(Stamp(pids, h, x), q);
    }
  }

  // ---- Which rows are stored ----

  /** An event makes its process's row and those its process was created with known to whoever knows it. */
  predicate Brings(rows: Rows, h: Run, x: nat, k: Pid) {
    x < |h| && (k == h[x].at || k in RowsOf(rows, h[x].at))
  }

  ghost predicate Brought(rows: Rows, h: Run, i: nat, k: Pid) {
    exists x: nat :: Past(h, x, i) && Brings(rows, h, x, k)
  }

  ghost predicate Stored(rows: Rows, h: Run, n: nat, p: Pid, k: Pid)
    requires n <= |h|
  {
    k in RowsOf(rows, p) || exists x: nat :: Knows(h, n, p, x) && Brings(rows, h, x, k)
  }

  lemma StampKeys(pids: set<Pid>, rows: Rows, h: Run, i: nat, k: Pid)
    requires Valid(pids, h) && i < |h|
    ensures k in MatrixStamp(pids, rows, h, i) <==>
              k == h[i].at || k in MatrixAt(pids, rows, h, i, h[i].at)
              || (h[i].Receive? && h[i].src < i && k in MatrixStamp(pids, rows, h, h[i].src))
  {
    assert ValidEvent(pids, h[..i], h[i]);
  }

  lemma {:induction false} StampStores(pids: set<Pid>, rows: Rows, h: Run, i: nat, k: Pid)
    requires Valid(pids, h) && i < |h|
    ensures k in MatrixStamp(pids, rows, h, i) <==> Brought(rows, h, i, k)
    decreases i, 1
  {
    var p := h[i].at;
    assert ValidEvent(pids, h[..i], h[i]);
    StampKeys(pids, rows, h, i, k);
    MatrixStores(pids, rows, h, i, p, k);
    if h[i].Receive? { StampStores(pids, rows, h, h[i].src, k); }
    StoredNext(rows, h, i, k);
  }

  /** What an event brings: what its process stored, its message brought, and its own row. */
  lemma StoredNext(rows: Rows, h: Run, i: nat, k: Pid)
    requires i < |h|
    ensures Brought(rows, h, i, k) <==>
              k == h[i].at || Stored(rows, h, i, h[i].at, k)
              || (h[i].Receive? && h[i].src < i && Brought(rows, h, h[i].src, k))
  {
    forall x: nat ensures Past(h, x, i) <==>
                          x == i || Knows(h, i, h[i].at, x) || (h[i].Receive? && h[i].src < i && Past(h, x, h[i].src))
    {
      PastNext(h, x, i);
    }
    assert Brings(rows, h, i, h[i].at) && Past(h, i, i);
    assert k in RowsOf(rows, h[i].at) ==> Brings(rows, h, i, k);
  }

  lemma PastNext(h: Run, x: nat, i: nat)
    requires i < |h|
    ensures Past(h, x, i) <==>
            x == i || Knows(h, i, h[i].at, x) || (h[i].Receive? && h[i].src < i && Past(h, x, h[i].src))
  {
    if c: nat :| c < i && Edge(h, c, i) && Past(h, x, c) {}
    if b: nat :| b < i && h[b].at == h[i].at && Past(h, x, b) { assert Edge(h, b, i); }
    if h[i].Receive? && h[i].src < i && Past(h, x, h[i].src) { assert Edge(h, h[i].src, i); }
  }

  /** A process knows after its event what is in the event's past. */
  lemma KnowsNext(h: Run, n: nat, x: nat)
    requires 0 < n <= |h|
    ensures Knows(h, n, h[n - 1].at, x) <==> Past(h, x, n - 1)
  {
    if b: nat :| b < n && h[b].at == h[n - 1].at && Past(h, x, b) {
      SameProcessPast(h, b, n - 1);
      PastTransitive(h, x, b, n - 1);
    }
  }

  /** Row `k` is stored exactly when `p` was created with it or knows an event that brings it. */
  lemma {:induction false} MatrixStores(pids: set<Pid>, rows: Rows, h: Run, n: nat, p: Pid, k: Pid)
    requires Valid(pids, h) && n <= |h|
    ensures k in MatrixAt(pids, rows, h, n, p) <==> Stored(rows, h, n, p, k)
    decreases n, 0
  {
    if n == 0 {
    } else if h[n - 1].at == p {
      StampStores(pids, rows, h, n - 1, k);
      forall x: nat ensures Knows(h, n, p, x) <==> Past(h, x, n - 1) { KnowsNext(h, n, x); }
      assert Past(h, n - 1, n - 1) && (k in RowsOf(rows, p) ==> Brings(rows, h, n - 1, k));
    } else {
      MatrixStores(pids, rows, h, n - 1, p, k);
      forall x: nat ensures Knows(h, n, p, x) <==> Knows(h, n - 1, p, x) {}
    }
  }

  // ---- Garbage collection ----

  /** `p` knows, among its first `n` events' past, an event of `k` that has seen event `a`. */
  ghost predicate KnowsSeenBy(h: Run, n: nat, p: Pid, k: Pid, a: nat)
    requires n <= |h|
  {
    exists x :: 0 <= x < |h| && h[x].at == k && Knows(h, n, p, x) && Past(h, a, x)
  }

  ghost predicate KnowsSeenByAll(ks: set<Pid>, h: Run, n: nat, p: Pid, a: nat)
    requires n <= |h|
  {
    forall k :: k in ks ==> KnowsSeenBy(h, n, p, k, a)
  }

  /** Entry (k, j) of `p`'s matrix reaches event `a` of `j` exactly when `p` knows that `k` has seen it. */
  lemma EntryMeaning(pids: set<Pid>, rows: Rows, h: Run, n: nat, p: Pid, k: Pid, a: nat)
    requires Valid(pids, h) && n <= |h| && a < |h|
    ensures Entry(MatrixAt(pids, rows, h, n, p), k, h[a].at) >= Index(h, a) <==> KnowsSeenBy(h, n, p, k, a)
  {
    var row, c := Row(MatrixAt(pids, rows, h, n, p), k), Get(ClockAt(pids, h, n, p), k);
    MatrixRows(pids, rows, h, n, p, k);
    NoIndexZero(h, a);
    if Get(row, h[a].at) >= Index(h, a) {
      ClockBound(pids, h, n, p, k);
      CountMonotone(h, n, |h|, k);
      var x := EventOfIndex(h, |h|, k, c);
      StampKnows(pids, h, x, a);
      ClockKnows(pids, h, n, p, x);
      assert KnowsSeenBy(h, n, p, k, a);
    }
    if KnowsSeenBy(h, n, p, k, a) {
      var y :| 0 <= y < |h| && h[y].at == k && Knows(h, n, p, y) && Past(h, a, y);
      ClockKnows(pids, h, n, p, y);
      NoIndexZero(h, y);
      ClockBound(pids, h, n, p, k);
      CountMonotone(h, n, |h|, k);
      var x := EventOfIndex(h, |h|, k, c);
      IndexOrder(h, y, x);
      SameProcessPast(h, y, x);
      PastTransitive(h, a, y, x);
      StampKnows(pids, h, x, a);
    }
  }

  /** `a` is `j`'s event number `t`. */
  predicate Numbered(h: Run, a: nat, j: Pid, t: nat) {
    a < |h| && h[a].at == j && Index(h, a) == t
  }

  /** On every run shorter than the counter range, `CanGC(M, j, t)` at `p` holds exactly when `j` has
      executed an event number `t` that `p` knows every process with a stored row to have seen. */
  lemma CanGCMeaning(pids: set<Pid>, rows: Rows, h: Run, n: nat, p: Pid, j: Pid, t: nat)
    requires Valid(pids, h) && n <= |h| < MAX_UINT64 && p in pids && OwnRowsStored(pids, rows) && t > 0
    ensures var m := MatrixAt(pids, rows, h, n, p);
            KnownByAll(m, j) >= t <==> exists a: nat :: Numbered(h, a, j, t) && KnowsSeenByAll(m.Keys, h, n, p, a)
  {
    var m := MatrixAt(pids, rows, h, n, p);
    MatrixStores(pids, rows, h, n, p, p);
    MatrixRows(pids, rows, h, n, p, p);
    ClockBound(pids, h, n, p, j);
    CountBound(h, n, j);
    assert Entry(m, p, j) <= |h|;
    if KnownByAll(m, j) >= t {
      CountMonotone(h, n, |h|, j);
      var a := EventOfIndex(h, |h|, j, t);
      forall k | k in m ensures KnowsSeenBy(h, n, p, k, a) {
        EntryMeaning(pids, rows, h, n, p, k, a);
      }
      assert Numbered(h, a, j, t) && KnowsSeenByAll(m.Keys, h, n, p, a);
    }
    if a: nat :| Numbered(h, a, j, t) && KnowsSeenByAll(m.Keys, h, n, p, a) {
      forall k | k in m ensures Entry(m, k, j) >= t {
        EntryMeaning(pids, rows, h, n, p, k, a);
      }
    }
  }

  lemma {:induction false} CountBound(h: Run, n: nat, p: Pid)
    requires n <= |h|
    ensures CountAt(h, n, p) <= n
  {
    if n > 0 { CountBound(h, n - 1, p); }
  }

  /** What passes the test is known to have been seen by every process exactly when every row is stored. */
  lemma CanGCForEveryone(pids: set<Pid>, rows: Rows, h: Run, n: nat, p: Pid, j: Pid, t: nat, a: nat)
    requires Valid(pids, h) && n <= |h| < MAX_UINT64 && p in pids && OwnRowsStored(pids, rows)
    requires KnownByAll(MatrixAt(pids, rows, h, n, p), j) >= t && Numbered(h, a, j, t)
    ensures KnowsSeenByAll(pids, h, n, p, a) <==> pids <= MatrixAt(pids, rows, h, n, p).Keys
  {
    var m := MatrixAt(pids, rows, h, n, p);
    NoIndexZero(h, a);
    CanGCMeaning(pids, rows, h, n, p, j, t);
    var b: nat :| Numbered(h, b, j, t) && KnowsSeenByAll(m.Keys, h, n, p, b);
    IndexOrder(h, a, b);
    IndexOrder(h, b, a);
    forall k | k in pids && KnowsSeenBy(h, n, p, k, a) ensures k in m {
      var x :| 0 <= x < |h| && h[x].at == k && Knows(h, n, p, x) && Past(h, a, x);
      MatrixStores(pids, rows, h, n, p, k);
      assert Brings(rows, h, x, k);
    }
  }

  /** Garbage collection is safe for the rows stored: if `p` may collect `j`'s events up to `t`, every process
      with a row in `p`'s matrix has already seen each of them. */
  lemma GCSafe(pids: set<Pid>, rows: Rows, h: Run, n: nat, p: Pid, j: Pid, t: nat, a: nat, k: Pid)
    requires Valid(pids, h) && n <= |h| < MAX_UINT64 && p in pids && OwnRowsStored(pids, rows)
    requires KnownByAll(MatrixAt(pids, rows, h, n, p), j) >= t && k in MatrixAt(pids, rows, h, n, p)
    requires a < |h| && h[a].at == j && Index(h, a) <= t
    ensures Knows(h, n, k, a)
  {
    NoIndexZero(h, a);
    CanGCMeaning(pids, rows, h, n, p, j, t);
    var b: nat :| Numbered(h, b, j, t) && KnowsSeenByAll(MatrixAt(pids, rows, h, n, p).Keys, h, n, p, b);
    assert KnowsSeenBy(h, n, p, k, b);
    var x :| 0 <= x < |h| && h[x].at == k && Knows(h, n, p, x) && Past(h, b, x);
    var y: nat :| y < n && h[y].at == p && Past(h, x, y);
    PastIsEarlier(h, x, y);
    IndexOrder(h, a, b);
    SameProcessPast(h, a, b);
    PastTransitive(h, a, b, x);
  }

  // ---- Matrices as spawning creates them ----

  /** A process is spawned with rows for itself and for everyone spawned before it. */
  function SpawnedRows(order: seq<Pid>): Rows {
    if order == [] then map[]
    else
      var last := order[|order| - 1];
      SpawnedRows(order[..|order| - 1])[last := Members(order)]
  }

  lemma {:induction false} SpawnedRowsAt(order: seq<Pid>, i: nat)
    requires NoRepeat(order) && i < |order|
    ensures RowsOf(SpawnedRows(order), order[i]) == Members(order[..i + 1])
    decreases |order|
  {
    if i == |order| - 1 {
      assert order[..i + 1] == order;
    } else {
      SpawnedRowsAt(order[..|order| - 1], i);
      assert order[..|order| - 1][..i + 1] == order[..i + 1];
    }
  }

  lemma SpawnedOwnRows(order: seq<Pid>)
    requires NoRepeat(order)
    ensures OwnRowsStored(Members(order), SpawnedRows(order))
  {
    forall p | p in order ensures p in RowsOf(SpawnedRows(order), p) {
      var i: nat :| i < |order| && order[i] == p;
      SpawnedRowsAt(order, i);
      assert order[..i + 1][i] == p;
    }
  }

  /** Whoever knows an event of the last one spawned has every row, so its test speaks of everyone. */
  lemma GCSafeOnceLastIsKnown(order: seq<Pid>, h: Run, n: nat, p: Pid, j: Pid, t: nat, a: nat, k: Pid, x: nat)
    requires NoRepeat(order) && order != []
    requires var pids := Members(order);
             && Valid(pids, h) && n <= |h| < MAX_UINT64 && p in pids && k in pids
             && KnownByAll(MatrixAt(pids, SpawnedRows(order), h, n, p), j) >= t
    requires p == order[|order| - 1] || (x < |h| && h[x].at == order[|order| - 1] && Knows(h, n, p, x))
    requires a < |h| && h[a].at == j && Index(h, a) <= t
    ensures Knows(h, n, k, a)
  {
    var pids, rows, last := Members(order), SpawnedRows(order), order[|order| - 1];
    SpawnedOwnRows(order);
    SpawnedRowsAt(order, |order| - 1);
    assert order[..|order| - 1 + 1] == order;
    assert k in RowsOf(rows, last);
    if p != last { assert Brings(rows, h, x, k); }
    MatrixStores(pids, rows, h, n, p, k);
    GCSafe(pids, rows, h, n, p, j, t, a, k);
  }

  /** The first one spawned has no row but its own: after its first event it may collect it, and nobody else
      has seen it. */
  lemma FirstCollectsAlone(order: seq<Pid>, q: Pid)
    requires NoRepeat(order) && order != [] && q in order && q != order[0]
    ensures var pids, h, p := Members(order), [Internal(order[0])], order[0];
            && Valid(pids, h) && Numbered(h, 0, p, 1)
            && KnownByAll(MatrixAt(pids, SpawnedRows(order), h, 1, p), p) >= 1
            && !Knows(h, 1, q, 0)
  {
    var pids, h, p, rows := Members(order), [Internal(order[0])], order[0], SpawnedRows(order);
    assert ValidEvent(pids, h[..0], h[0]);
    assert CountAt(h, 0, p) == 0 && Index(h, 0) == 1;
    SpawnedRowsAt(order, 0);
    SpawnedOwnRows(order);
    var m := MatrixAt(pids, rows, h, 1, p);
    forall k | k in m ensures KnowsSeenBy(h, 1, p, k, 0) {
      MatrixStores(pids, rows, h, 1, p, k);
      assert k == p;
      assert Past(h, 0, 0) && Knows(h, 1, p, 0);
    }
    assert KnowsSeenByAll(m.Keys, h, 1, p, 0);
    CanGCMeaning(pids, rows, h, 1, p, p, 1);
  }
}
