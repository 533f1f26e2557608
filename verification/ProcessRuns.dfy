/** Processes along whole runs: in immediate mode the clocks that processes keep, stamp and publish are those of
    the run's events, for each clock type.
 */
module ProcessRuns {
  import opened VectorClock
  import M = MatrixClock
  import opened Runs
  import opened MatrixRuns
  import P = Processes
  import H = HoldBack
  import CD = CausalDelivery
  import S = Snapshots
  import F = FifoRuns

  // ---- The clocks of processes along a run ----

  /** The clocks of `p` after the first `n` events, by the process's own rules; `rows` says which processes each
      one was created with. */
  function ClocksAt(t: P.ClockType, pids: set<Pid>, rows: Rows, h: Run, n: nat, p: Pid): P.Clocks
    requires Valid(pids, h) && n <= |h|
    decreases n, 0
  {
    if n == 0 then P.NewClocks(t, RowsOf(rows, p))
    else if h[n - 1].at == p then ClocksOf(t, pids, rows, h, n - 1)
    else ClocksAt(t, pids, rows, h, n - 1, p)
  }

  /** The clocks an event leaves its process with; a receive takes over what its send was stamped with. */
  function ClocksOf(t: P.ClockType, pids: set<Pid>, rows: Rows, h: Run, i: nat): P.Clocks
    requires Valid(pids, h) && i < |h|
    decreases i, 1
  {
    var e := h[i];
    var before := ClocksAt(t, pids, rows, h, i, e.at);
    assert ValidEvent(pids, h[..i], e);
    if e.Receive? then
      P.ReceivedClocks(t, before, P.StampOf(t, ClocksOf(t, pids, rows, h, e.src)), e.at, h[e.src].at)
    else P.TickedClocks(t, before, e.at)
  }

  // ---- Vector time ----

  lemma {:induction false} VectorAt(pids: set<Pid>, rows: Rows, h: Run, n: nat, p: Pid)
    requires Valid(pids, h) && n <= |h|
    ensures Same(ClocksAt(P.VectorTime, pids, rows, h, n, p).vector, ClockAt(pids, h, n, p))
    decreases n, 0
  {
    if n == 0 {
    } else if h[n - 1].at == p {
      VectorOf(pids, rows, h, n - 1);
    } else {
      VectorAt(pids, rows, h, n - 1, p);
    }
  }

  /** A vector-time process has the clock of the run's event after each of its events, and stamps its messages
      with it. */
  lemma {:induction false} VectorOf(pids: set<Pid>, rows: Rows, h: Run, i: nat)
    requires Valid(pids, h) && i < |h|
    ensures Same(ClocksOf(P.VectorTime, pids, rows, h, i).vector, Stamp(pids, h, i))
    ensures Same(P.StampOf(P.VectorTime, ClocksOf(P.VectorTime, pids, rows, h, i)).vector, Stamp(pids, h, i))
    decreases i, 1
  {
    var e := h[i];
    assert ValidEvent(pids, h[..i], e);
    VectorAt(pids, rows, h, i, e.at);
    var mine, run := ClocksAt(P.VectorTime, pids, rows, h, i, e.at).vector, ClockAt(pids, h, i, e.at);
    if e.Receive? {
      VectorOf(pids, rows, h, e.src);
      var stamp := P.StampOf(P.VectorTime, ClocksOf(P.VectorTime, pids, rows, h, e.src)).vector;
      forall q ensures Get(ClocksOf(P.VectorTime, pids, rows, h, i).vector, q) == Get(Stamp(pids, h, i), q) {
        GetReceived(mine, stamp, e.at, q);
        GetReceived(run, Stamp(pids, h, e.src), e.at, q);
      }
    } else {
      forall q ensures Get(ClocksOf(P.VectorTime, pids, rows, h, i).vector, q) == Get(Stamp(pids, h, i), q) {
        GetTicked(mine, e.at, q);
        GetTicked(run, e.at, q);
      }
    }
  }

  // ---- Matrix time ----

  lemma {:induction false} MatrixTimeAt(pids: set<Pid>, rows: Rows, h: Run, n: nat, p: Pid)
    requires Valid(pids, h) && n <= |h|
    ensures ClocksAt(P.MatrixTime, pids, rows, h, n, p).matrix == MatrixAt(pids, rows, h, n, p)
    decreases n, 0
  {
    if n == 0 {
    } else if h[n - 1].at == p {
      MatrixTimeOf(pids, rows, h, n - 1);
    } else {
      MatrixTimeAt(pids, rows, h, n - 1, p);
    }
  }

  /** A matrix-time process has the matrix of the run's event, and stamps its messages with it. */
  lemma {:induction false} MatrixTimeOf(pids: set<Pid>, rows: Rows, h: Run, i: nat)
    requires Valid(pids, h) && i < |h|
    ensures ClocksOf(P.MatrixTime, pids, rows, h, i).matrix == MatrixStamp(pids, rows, h, i)
    ensures P.StampOf(P.MatrixTime, ClocksOf(P.MatrixTime, pids, rows, h, i)).matrix == MatrixStamp(pids, rows, h, i)
    decreases i, 1
  {
    assert ValidEvent(pids, h[..i], h[i]);
    MatrixTimeAt(pids, rows, h, i, h[i].at);
    if h[i].Receive? { MatrixTimeOf(pids, rows, h, h[i].src); }
  }

  // ---- Lamport time ----

  function TimeOf(pids: set<Pid>, h: Run, i: nat): nat
    requires Valid(pids, h) && i < |h|
  {
    ClocksOf(P.LamportTime, pids, map[], h, i).lamport
  }

  /** The event of `p` before position `n`, if it has one. */
  lemma {:induction false} TimeAt(pids: set<Pid>, h: Run, n: nat, p: Pid) returns (a: nat)
    requires Valid(pids, h) && n <= |h|
    ensures a <= n
    ensures ClocksAt(P.LamportTime, pids, map[], h, n, p).lamport == if a == n then 0 else TimeOf(pids, h, a)
    ensures a < n ==> h[a].at == p
    ensures forall b :: 0 <= b < n && h[b].at == p ==> a < n && b <= a
    decreases n
  {
    if n == 0 {
      a := 0;
    } else if h[n - 1].at == p {
      a := n - 1;
    } else {
      var b := TimeAt(pids, h, n - 1, p);
      a := if b == n - 1 then n else b;
    }
  }

  /** The time of an event is one more than the larger of its process's last event and its message. */
  lemma TimeStep(pids: set<Pid>, h: Run, i: nat) returns (a: nat)
    requires Valid(pids, h) && i < |h|
    ensures a <= i && (a < i ==> h[a].at == h[i].at) && forall b :: 0 <= b < i && h[b].at == h[i].at ==> a < i && b <= a
    ensures var last := if a == i then 0 else TimeOf(pids, h, a);
            && (h[i].Receive? ==> h[i].src < i)
            && TimeOf(pids, h, i) == 1 + if h[i].Receive? then Max(last, TimeOf(pids, h, h[i].src)) else last
  {
    assert ValidEvent(pids, h[..i], h[i]);
    a := TimeAt(pids, h, i, h[i].at);
  }

  /** Time grows from event to event along happened-before. */
  lemma {:induction false} TimeGrows(pids: set<Pid>, h: Run, a: nat, b: nat)
    requires Valid(pids, h) && Past(h, a, b)
    ensures a <= b < |h| && TimeOf(pids, h, a) <= TimeOf(pids, h, b)
    ensures a != b ==> TimeOf(pids, h, a) < TimeOf(pids, h, b)
    decreases b
  {
    PastIsEarlier(h, a, b);
    if a != b {
      var c: nat :| c < b && Edge(h, c, b) && Past(h, a, c);
      TimeGrows(pids, h, a, c);
      var last := TimeStep(pids, h, b);
      if h[c].at == h[b].at && c != last {
        SameProcessPast(h, c, last);
        TimeGrows(pids, h, c, last);
      }
    }
  }

  /** A chain of events, each happened before the next. */
  ghost predicate Chain(h: Run, c: seq<nat>) {
    && c != [] && c[|c| - 1] < |h|
    && forall k :: 0 < k < |c| ==> HB(h, c[k - 1], c[k])
  }

  lemma {:induction false} ChainFits(pids: set<Pid>, h: Run, c: seq<nat>)
    requires Valid(pids, h) && Chain(h, c)
    ensures |c| <= TimeOf(pids, h, c[|c| - 1])
    decreases |c|
  {
    var last := c[|c| - 1];
    var prior := TimeStep(pids, h, last);
    if |c| > 1 {
      var init := c[..|c| - 1];
      PastIsEarlier(h, c[|c| - 2], last);
      Irreflexive(h, last);
      assert Chain(h, init);
      ChainFits(pids, h, init);
      TimeGrows(pids, h, c[|c| - 2], last);
    }
  }

  /** Some chain ending in the event is as long as its time. */
  lemma {:induction false} LongChain(pids: set<Pid>, h: Run, i: nat) returns (c: seq<nat>)
    requires Valid(pids, h) && i < |h|
    ensures Chain(h, c) && c[|c| - 1] == i && |c| == TimeOf(pids, h, i)
    decreases i
  {
    var a := TimeStep(pids, h, i);
    var last := if a == i then 0 else TimeOf(pids, h, a);
    if h[i].Receive? && last < TimeOf(pids, h, h[i].src) {
      var d := LongChain(pids, h, h[i].src);
      assert Edge(h, h[i].src, i) && Past(h, h[i].src, h[i].src);
      c := d + [i];
    } else if a < i {
      var d := LongChain(pids, h, a);
      assert Edge(h, a, i) && Past(h, a, a);
      c := d + [i];
    } else {
      c := [i];
    }
  }

  /** A Lamport-time process counts: the value an event leaves is the length of the longest chain of events, each
      happened before the next, that ends in it; its messages are stamped with that value. */
  lemma LamportOf(pids: set<Pid>, rows: Rows, h: Run, i: nat)
    requires Valid(pids, h) && i < |h|
    ensures var time := ClocksOf(P.LamportTime, pids, rows, h, i).lamport;
            && (exists c :: Chain(h, c) && c[|c| - 1] == i && |c| == time)
            && (forall c :: Chain(h, c) && c[|c| - 1] == i ==> |c| <= time)
            && P.StampOf(P.LamportTime, ClocksOf(P.LamportTime, pids, rows, h, i)).lamport == time
  {
    LamportIgnoresRows(pids, rows, h, i);
    var c := LongChain(pids, h, i);
    forall d | Chain(h, d) && d[|d| - 1] == i ensures |d| <= TimeOf(pids, h, i) { ChainFits(pids, h, d); }
  }

  /** The order of names, character by character. */
  predicate Precedes(s: string, t: string) {
    t != "" && (s == "" || s[0] < t[0] || (s[0] == t[0] && Precedes(s[1..], t[1..])))
  }

  lemma {:induction false} NamesAreOrdered(s: string, t: string)
    ensures Precedes(s, t) <==> s != t && !Precedes(t, s)
    decreases |s|
  {
    if s != "" && t != "" {
      NamesAreOrdered(s[1..], t[1..]);
      assert s == [s[0]] + s[1..] && t == [t[0]] + t[1..];
    }
  }

  lemma {:induction false} PrecedesTransitive(s: string, t: string, u: string)
    requires Precedes(s, t) && Precedes(t, u)
    ensures Precedes(s, u)
    decreases |s|
  {
    if s != "" && s[0] == t[0] == u[0] { PrecedesTransitive(s[1..], t[1..], u[1..]); }
  }

  /** The order of time stamps: by value, then by process name. */
  function TotalOrder(time: nat, p: Pid, time': nat, q: Pid): int {
    if time != time' then (if time < time' then -1 else 1)
    else if Precedes(p.name, q.name) then -1
    else if Precedes(q.name, p.name) then 1
    else 0
  }

  /** Lamport's order of the events of a run: a strict total order that extends happened-before. */
  lemma TotalOrderExtends(pids: set<Pid>, rows: Rows, h: Run, a: nat, b: nat, c: nat)
    requires Valid(pids, h) && a < |h| && b < |h| && c < |h|
    ensures var order := (i: nat, j: nat) requires i < |h| && j < |h| =>
                           TotalOrder(ClocksOf(P.LamportTime, pids, rows, h, i).lamport, h[i].at,
                                      ClocksOf(P.LamportTime, pids, rows, h, j).lamport, h[j].at);
            && (HB(h, a, b) ==> order(a, b) == -1)
            && (order(a, b) == 0 <==> a == b)
            && (order(a, b) == -1 <==> order(b, a) == 1)
            && (order(a, b) == -1 && order(b, c) == -1 ==> order(a, c) == -1)
  {
    hide ClocksOf, HB;
    TimeExtends(pids, rows, h, a, b);
    TimeExtends(pids, rows, h, b, a);
    var p, q, r := h[a].at.name, h[b].at.name, h[c].at.name;
    NamesAreOrdered(p, q);
    NamesAreOrdered(q, p);
    if Precedes(p, q) && Precedes(q, r) { PrecedesTransitive(p, q, r); }
    assert p == q ==> h[a].at == h[b].at;
  }

  lemma TimeExtends(pids: set<Pid>, rows: Rows, h: Run, a: nat, b: nat)
    requires Valid(pids, h) && a < |h| && b < |h|
    ensures var timeA := ClocksOf(P.LamportTime, pids, rows, h, a).lamport;
            var timeB := ClocksOf(P.LamportTime, pids, rows, h, b).lamport;
            (HB(h, a, b) ==> timeA < timeB) && (h[a].at == h[b].at && a < b ==> timeA < timeB)
  {
    if a < b && h[a].at == h[b].at {
      assert Edge(h, a, b) && Past(h, a, a);
    }
    if HB(h, a, b) {
      LamportIgnoresRows(pids, rows, h, a);
      LamportIgnoresRows(pids, rows, h, b);
      var c := LongChain(pids, h, a);
      ChainFits(pids, h, c + [b]);
    }
  }

  lemma {:induction false} LamportIgnoresRows(pids: set<Pid>, rows: Rows, h: Run, i: nat)
    requires Valid(pids, h) && i < |h|
    ensures ClocksOf(P.LamportTime, pids, rows, h, i).lamport == TimeOf(pids, h, i)
    decreases i, 1
  {
    assert ValidEvent(pids, h[..i], h[i]);
    LamportIgnoresRowsAt(pids, rows, h, i, h[i].at);
    if h[i].Receive? { LamportIgnoresRows(pids, rows, h, h[i].src); }
  }

  lemma {:induction false} LamportIgnoresRowsAt(pids: set<Pid>, rows: Rows, h: Run, n: nat, p: Pid)
    requires Valid(pids, h) && n <= |h|
    ensures ClocksAt(P.LamportTime, pids, rows, h, n, p).lamport ==
            ClocksAt(P.LamportTime, pids, map[], h, n, p).lamport
    decreases n, 0
  {
    if n == 0 {
    } else if h[n - 1].at == p {
      LamportIgnoresRows(pids, rows, h, n - 1);
    } else {
      LamportIgnoresRowsAt(pids, rows, h, n - 1, p);
    }
  }

  /** The clocks a process's type does not use stay empty. */
  lemma {:induction false} UnusedAt(t: P.ClockType, pids: set<Pid>, rows: Rows, h: Run, n: nat, p: Pid)
    requires Valid(pids, h) && n <= |h|
    ensures Unused(t, ClocksAt(t, pids, rows, h, n, p))
    decreases n, 0
  {
    if n == 0 {
    } else if h[n - 1].at == p {
      UnusedOf(t, pids, rows, h, n - 1);
    } else {
      UnusedAt(t, pids, rows, h, n - 1, p);
    }
  }

  lemma {:induction false} UnusedOf(t: P.ClockType, pids: set<Pid>, rows: Rows, h: Run, i: nat)
    requires Valid(pids, h) && i < |h|
    ensures Unused(t, ClocksOf(t, pids, rows, h, i)) && Unused(t, P.StampOf(t, ClocksOf(t, pids, rows, h, i)))
    decreases i, 1
  {
    assert ValidEvent(pids, h[..i], h[i]);
    UnusedAt(t, pids, rows, h, i, h[i].at);
  }

  predicate Unused(t: P.ClockType, c: P.Clocks) {
    && (t.LamportTime? || c.lamport == 0)
    && (t.VectorTime? || c.vector == map[])
    && (t.MatrixTime? || c.matrix == map[])
  }

  // ---- The logs of processes along a run ----

  function KindOf(e: Event): P.EventKind {
    match e
    case Internal(_) => P.InternalEvent
    case SendTo(_, _) => P.SendEvent
    case Receive(_, _) => P.ReceiveEvent
  }

  function SendsAt(h: Run, n: nat, p: Pid): nat
    requires n <= |h|
  {
    if n == 0 then 0 else SendsAt(h, n - 1, p) + if h[n - 1].SendTo? && h[n - 1].at == p then 1 else 0
  }

  /** The number of the message an event sends or receives. */
  function MessageOf(pids: set<Pid>, h: Run, i: nat): nat
    requires Valid(pids, h) && i < |h|
  {
    assert ValidEvent(pids, h[..i], h[i]);
    match h[i]
    case Internal(_) => 0
    case SendTo(p, _) => SendsAt(h, i + 1, p)
    case Receive(_, src) => SendsAt(h, src + 1, h[src].at)
  }

  /** What `p` has published after the first `n` events: its spawning, and each of its events. */
  function LogAt(t: P.ClockType, pids: set<Pid>, rows: Rows, h: Run, n: nat, p: Pid): seq<P.Emitted>
    requires Valid(pids, h) && n <= |h|
  {
    if n == 0 then [P.Emitted(P.SpawnedEvent, 1, P.NewClocks(t, RowsOf(rows, p)), 0)]
    else
      var before := LogAt(t, pids, rows, h, n - 1, p);
      if h[n - 1].at == p then
        var clocks := ClocksOf(t, pids, rows, h, n - 1);
        before + [P.Emitted(KindOf(h[n - 1]), |before| + 1, clocks, MessageOf(pids, h, n - 1))]
      else before
  }

  /** The log has one event more than the process has taken part in, and numbers each by its index and one. */
  lemma {:induction false} LogEntry(t: P.ClockType, pids: set<Pid>, rows: Rows, h: Run, n: nat, p: Pid, i: nat)
    requires Valid(pids, h) && n <= |h|
    ensures |LogAt(t, pids, rows, h, n, p)| == CountAt(h, n, p) + 1
    ensures i < n && h[i].at == p ==>
              Index(h, i) < |LogAt(t, pids, rows, h, n, p)| && LogAt(t, pids, rows, h, n, p)[Index(h, i)] ==
              P.Emitted(KindOf(h[i]), Index(h, i) + 1, ClocksOf(t, pids, rows, h, i), MessageOf(pids, h, i))
    decreases n
  {
    if n > 0 {
      LogEntry(t, pids, rows, h, n - 1, p, i);
      if i < n && h[i].at == p { CountMonotone(h, i + 1, n, p); }
    }
  }

  lemma OrderOfSame(a: Clock, b: Clock, c: Clock, d: Clock)
    requires Same(a, c) && Same(b, d)
    ensures OrderOf(a, b) == OrderOf(c, d)
  {
    assert Leq(a, b) <==> Leq(c, d);
    assert Leq(b, a) <==> Leq(d, c);
  }

  /** The strong clock condition for what vector-time processes publish: comparing the clocks in two logs decides
      how the events are related. */
  lemma PublishedClocksDecide(pids: set<Pid>, rows: Rows, h: Run, a: nat, b: nat)
    requires Valid(pids, h) && a < |h| && b < |h|
    ensures var logA := LogAt(P.VectorTime, pids, rows, h, |h|, h[a].at);
            var logB := LogAt(P.VectorTime, pids, rows, h, |h|, h[b].at);
            && Index(h, a) < |logA| && Index(h, b) < |logB|
            && var order := OrderOf(logA[Index(h, a)].clocks.vector, logB[Index(h, b)].clocks.vector);
               && (order == HappenedBefore <==> HB(h, a, b))
               && (order == HappenedAfter <==> HB(h, b, a))
               && (order == Identical <==> a == b)
               && (order == Concurrent <==> a != b && !HB(h, a, b) && !HB(h, b, a))
  {
    LogEntry(P.VectorTime, pids, rows, h, |h|, h[a].at, a);
    LogEntry(P.VectorTime, pids, rows, h, |h|, h[b].at, b);
    VectorOf(pids, rows, h, a);
    VectorOf(pids, rows, h, b);
    OrderOfSame(ClocksOf(P.VectorTime, pids, rows, h, a).vector, ClocksOf(P.VectorTime, pids, rows, h, b).vector,
                Stamp(pids, h, a), Stamp(pids, h, b));
    StrongClockCondition(pids, h, a, b);
  }

  // ---- Appending an event ----

  lemma {:induction false} SameClocksAt(t: P.ClockType, pids: set<Pid>, rows: Rows, h: Run, g: Run, n: nat, p: Pid)
    requires Valid(pids, h) && Valid(pids, g) && n <= |h| <= |g| && h == g[..|h|]
    ensures ClocksAt(t, pids, rows, h, n, p) == ClocksAt(t, pids, rows, g, n, p)
    decreases n, 0
  {
    if n > 0 {
      assert h[n - 1] == g[n - 1];
      if h[n - 1].at == p {
        SameClocksOf(t, pids, rows, h, g, n - 1);
      } else {
        SameClocksAt(t, pids, rows, h, g, n - 1, p);
      }
    }
  }

  lemma {:induction false} SameClocksOf(t: P.ClockType, pids: set<Pid>, rows: Rows, h: Run, g: Run, i: nat)
    requires Valid(pids, h) && Valid(pids, g) && i < |h| <= |g| && h == g[..|h|]
    ensures ClocksOf(t, pids, rows, h, i) == ClocksOf(t, pids, rows, g, i)
    decreases i, 1
  {
    assert h[i] == g[i];
    assert ValidEvent(pids, h[..i], h[i]);
    SameClocksAt(t, pids, rows, h, g, i, h[i].at);
    if h[i].Receive? {
      assert h[h[i].src] == g[h[i].src];
      SameClocksOf(t, pids, rows, h, g, h[i].src);
    }
  }

  lemma {:induction false} SameSends(h: Run, g: Run, n: nat, p: Pid)
    requires n <= |h| <= |g| && h == g[..|h|]
    ensures SendsAt(h, n, p) == SendsAt(g, n, p)
    decreases n
  {
    if n > 0 {
      assert h[n - 1] == g[n - 1];
      SameSends(h, g, n - 1, p);
    }
  }

  lemma SameMessage(pids: set<Pid>, h: Run, g: Run, i: nat)
    requires Valid(pids, h) && Valid(pids, g) && i < |h| <= |g| && h == g[..|h|]
    ensures MessageOf(pids, h, i) == MessageOf(pids, g, i)
  {
    assert h[i] == g[i];
    assert ValidEvent(pids, h[..i], h[i]);
    match h[i]
    case Internal(_) =>
    case SendTo(p, _) => SameSends(h, g, i + 1, p);
    case Receive(_, src) =>
      assert h[src] == g[src];
      SameSends(h, g, src + 1, h[src].at);
  }

  lemma {:induction false} SameLog(t: P.ClockType, pids: set<Pid>, rows: Rows, h: Run, g: Run, n: nat, p: Pid)
    requires Valid(pids, h) && Valid(pids, g) && n <= |h| <= |g| && h == g[..|h|]
    ensures LogAt(t, pids, rows, h, n, p) == LogAt(t, pids, rows, g, n, p)
    decreases n
  {
    hide ClocksOf, MessageOf, Valid;
    if n > 0 {
      assert h[n - 1] == g[n - 1];
      SameLog(t, pids, rows, h, g, n - 1, p);
      SameClocksOf(t, pids, rows, h, g, n - 1);
      SameMessage(pids, h, g, n - 1);
    }
  }

  // ---- Causal mode ----

  lemma {:induction false} ReleasedEvent(hs: seq<H.Held>, localSeq: nat, clocks: P.Clocks, k: nat)
    ensures |P.DeliveredEvents(hs, localSeq, clocks)| == |hs|
    ensures k < |hs| ==> P.DeliveredEvents(hs, localSeq, clocks)[k] ==
                         P.Emitted(P.DeliveredEvent, localSeq + 1 + k, clocks, hs[k].msg.id)
    decreases |hs|
  {
    if hs != [] { ReleasedEvent(hs[1..], localSeq + 1, clocks, if k == 0 then 0 else k - 1); }
  }

  lemma {:induction false} ReceivesAt(p: Pid, ds: seq<H.Held>, k: nat)
    ensures |CD.Receives(p, ds)| == |ds|
    ensures k < |ds| ==> CD.Receives(p, ds)[k] == Receive(p, ds[k].msg.id)
    decreases |ds|
  {
    if ds != [] { ReceivesAt(p, ds[1..], if k == 0 then 0 else k - 1); }
  }

  lemma LastStamp(pids: set<Pid>, g: Run, p: Pid)
    requires Valid(pids, g) && g != [] && g[|g| - 1].at == p
    ensures Stamp(pids, g, |g| - 1) == ClockAt(pids, g, |g|, p)
  {}

  /** The stamps of the first and of the last receive of a delivery. */
  lemma {:induction false} FirstStamp(pids: set<Pid>, h: Run, p: Pid, ds: seq<H.Held>, local: Clock)
    requires CD.Causal(pids, h) && p in pids && local == ClockAt(pids, h, |h|, p) && ds != []
    requires CD.Sent(pids, h, ds[0].msg) && ds[0].msg.to == p && ds[0].sentVC == ds[0].msg.sentVC
    requires H.Deliverable(ds[0], local) && Valid(pids, h + CD.Receives(p, ds))
    ensures var g := h + CD.Receives(p, ds);
            && |g| == |h| + |ds| && Stamp(pids, g, |h|) == Received(local, ds[0].sentVC, p)
            && Stamp(pids, g, |g| - 1) == ClockAt(pids, g, |g|, p)
  {
    hide CD.Sent, H.Deliverable, CD.MetCondition, CD.Receives, Stamp, ClockAt, Valid;
    var g, first := h + CD.Receives(p, ds), h + [Receive(p, ds[0].msg.id)];
    ReceivesAt(p, ds, |ds| - 1);
    ReceivesAt(p, ds, 0);
    CD.ReceiveHead(pids, h, p, ds[0], local);
    assert Valid(pids, first);
    LastStamp(pids, first, p);
    assert g[..|first|] == first;
    ExtendStamp(pids, first, g, |h|);
    LastStamp(pids, g, p);
  }

  /** `more` continues the log by one event for each receive by which `g` continues `h`: the first with the clock of
      its own receive, the rest, in order, all with the clock of the last one. */
  ghost predicate Publishes(pids: set<Pid>, h: Run, g: Run, p: Pid, log: seq<P.Emitted>, more: seq<P.Emitted>,
                            clocks: P.Clocks)
    requires Valid(pids, g) && |h| < |g|
  {
    && |more| == |log| + (|g| - |h|) && more[..|log|] == log
    && var news, received := more[|log|..], g[|h|..];
       forall k :: 0 <= k < |news| ==>
         && received[k].Receive? && received[k].at == p
         && news[k] == P.Emitted(if k == 0 then P.ReceiveEvent else P.DeliveredEvent, |log| + 1 + k,
                                 clocks.(vector := Stamp(pids, g, if k == 0 then |h| else |g| - 1)), received[k].src)
  }

  lemma DeliveredLog(pids: set<Pid>, h: Run, m: H.Message, log: seq<P.Emitted>, clocks: P.Clocks, queue: seq<H.Held>)
    requires CD.Causal(pids, h) && CD.Sent(pids, h, m) && m.to in pids
    requires clocks.vector == ClockAt(pids, h, |h|, m.to)
    requires CD.QueueOk(pids, h, m.to, queue) && H.Quiescent(queue, clocks.vector)
    requires H.CanDeliver(m.sentVC, m.from, clocks.vector)
    ensures var g := h + CD.Receives(m.to, H.Deliveries(m, H.Arrive(clocks.vector, queue, m, m.to)));
            && Valid(pids, g) && |h| < |g| && g[|h|] == Receive(m.to, m.id)
            && Publishes(pids, h, g, m.to, log, P.CausalEvents(log, clocks, queue, m, m.to, |log|), clocks)
  {
    hide CD.MetCondition, CD.Receives, CD.QueueOk, H.Quiescent, H.CanDeliver, H.Drain, Stamp, ClockAt, Valid, Received,
      P.DeliveredEvents;
    var p := m.to;
    var o := H.Arrive(clocks.vector, queue, m, p);
    var ds := H.Deliveries(m, o);
    CD.ArrivalGrows(pids, h, p, clocks.vector, queue, m);
    FirstStamp(pids, h, p, ds, clocks.vector);
    ReceivesAt(p, ds, 0);
    ReleasedEvent(o.released, |log| + 1, clocks.(vector := o.clock), 0);
    forall k | 0 < k < |ds| ensures CD.Receives(p, ds)[k] == Receive(p, o.released[k - 1].msg.id) {
      ReceivesAt(p, ds, k);
    }
    forall k | 0 <= k < |o.released|
      ensures P.DeliveredEvents(o.released, |log| + 1, clocks.(vector := o.clock))[k] ==
              P.Emitted(P.DeliveredEvent, |log| + 2 + k, clocks.(vector := o.clock), o.released[k].msg.id)
    {
      ReleasedEvent(o.released, |log| + 1, clocks.(vector := o.clock), k);
    }
  }

  /** What an arrival publishes in any reachable state of the causal system: a message that is held, the clock as it
      was; one that is delivered, its receive and those it releases. */
  lemma CausalLog(pids: set<Pid>, steps: seq<CD.Step>, id: nat, log: seq<P.Emitted>, clocks: P.Clocks)
    requires var s := CD.After(pids, steps);
             && id in s.net && s.net[id].to in s.clocks && s.net[id].to in s.held
             && clocks.vector == s.clocks[s.net[id].to]
    ensures var s := CD.After(pids, steps);
            var m, h, g := s.net[id], s.history, CD.Apply(s, CD.ArrivalStep(id)).history;
            var more := P.CausalEvents(log, clocks, s.held[m.to], m, m.to, |log|);
            if H.CanDeliver(m.sentVC, m.from, clocks.vector) then
              Valid(pids, g) && |h| < |g| && g[|h|] == Receive(m.to, m.id)
              && Publishes(pids, h, g, m.to, log, more, clocks)
            else g == h && more == log + [P.Emitted(P.HeldEvent, |log| + 1, clocks, m.id)]
  {
    hide Publishes, H.CanDeliver, CD.QueueOk, H.Quiescent, CD.Causal, CD.Sent, P.DeliveredEvents, CD.Receives;
    var s := CD.After(pids, steps);
    CD.ReachableInv(pids, steps);
    if H.CanDeliver(s.net[id].sentVC, s.net[id].from, clocks.vector) {
      DeliveredLog(pids, s.history, s.net[id], log, clocks, s.held[s.net[id].to]);
    } else {
      NothingReceived(s.net[id].to);
    }
  }

  lemma NothingReceived(p: Pid)
    ensures CD.Receives(p, []) == []
  {}

  // ---- The processes of a simulation ----

  /** The local steps of a simulation are those of a vector-time process in immediate mode: clocks, stamps and
      message numbers. */
  lemma LocalsAreProcesses(l: S.Local, self: Pid, to: Pid, from: Pid, m: S.App)
    ensures var c, t := P.Clocks(0, l.clock, map[]), P.VectorTime;
            && F.LocalTick(l, self).clock == P.TickedClocks(t, c, self).vector
            && F.LocalSend(l, self, to).clock == P.TickedClocks(t, c, self).vector
            && F.NextMessage(l, self, to) ==
               S.App(l.messageSeq + 1, self, to, P.StampOf(t, P.TickedClocks(t, c, self)).vector)
            && F.LocalSend(l, self, to).messageSeq == l.messageSeq + 1
            && F.LocalReceive(l, self, from, m).clock ==
               P.ReceivedClocks(t, c, P.Clocks(0, m.stamp, map[]), self, from).vector
            && F.LocalReceive(l, self, from, m).messageSeq == F.LocalTick(l, self).messageSeq == l.messageSeq
            && F.ReceivedFrom(F.LocalReceive(l, self, from, m), from) == F.ReceivedFrom(l, from) + [m]
            && F.SentTo(F.LocalSend(l, self, to), to) == F.SentTo(l, to) + [F.NextMessage(l, self, to)]
  {}
}
