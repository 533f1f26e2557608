/** Cuts of whole runs: the test on messages is closure under happened-before, and the cut before an event's
    vector clock is its causal past, the least consistent cut that contains it, exactly when the log numbers
    every event with its own clock entry.
 */
module CutRuns {
  import opened VectorClock
  import opened Runs
  import opened Cuts
  import G = CausalGraphs

  type LogEntry = G.Event

  function KindOf(e: Event): G.EventType {
    match e
    case Internal(_) => G.InternalEvent
    case SendTo(_, _) => G.SendEvent
    case Receive(_, _) => G.ReceiveEvent
  }

  /** The events of a run as a log has them: each process's numbers are positive and grow with its events;
      ids and message ids are unique, and a receive bears the id of the message it consumes. The numbers may
      have gaps, as the repository's do: a process publishes more kinds of events than the run has. */
  ghost predicate Logs(h: Run, events: seq<LogEntry>) {
    && |events| == |h|
    && (forall x :: 0 <= x < |h| ==>
          events[x].process == h[x].at && events[x].localSeq > 0 && events[x].kind == KindOf(h[x]))
    && (forall x, y :: 0 <= x < y < |h| && h[x].at == h[y].at ==> events[x].localSeq < events[y].localSeq)
    && (forall x, y :: 0 <= x < y < |h| ==> events[x].id != events[y].id)
    && (forall x :: 0 <= x < |h| && h[x].SendTo? ==> events[x].message != G.NoMessage)
    && (forall x, y :: 0 <= x < y < |h| && h[x].SendTo? && h[y].SendTo? ==> events[x].message != events[y].message)
    && (forall x :: 0 <= x < |h| && h[x].Receive? ==>
          h[x].src < x && h[h[x].src].SendTo? && events[x].message == events[h[x].src].message)
  }

  /** Without gaps: every event is numbered with its own clock entry. */
  ghost predicate NumberedByEntry(h: Run, events: seq<LogEntry>)
    requires |events| == |h|
  {
    forall x :: 0 <= x < |h| ==> events[x].localSeq == Index(h, x)
  }

  /** A number is never below the event's own clock entry. */
  lemma {:induction false} NumbersRunAhead(h: Run, events: seq<LogEntry>, x: nat)
    requires Logs(h, events) && x < |h|
    ensures events[x].localSeq >= Index(h, x)
    decreases x
  {
    if Index(h, x) > 1 {
      var a := EventOfIndex(h, x, h[x].at, Index(h, x) - 1);
      NumbersRunAhead(h, events, a);
    }
  }

  lemma {:induction false} FindById(events: seq<LogEntry>, x: nat)
    requires x < |events| && forall a, b :: 0 <= a < b < |events| ==> events[a].id != events[b].id
    ensures Find(events, events[x].id) == Found(events[x])
  {
    if x > 0 { FindById(events[1..], x - 1); }
  }

  /** The messages paired up are those of the run: a send and a receive of it. */
  lemma PairsOfRun(h: Run, events: seq<LogEntry>, messages: seq<Message>, a: nat, b: nat)
    requires Logs(h, events) && ArePairs(events, messages) && a < |h| && b < |h| && h[b] == Receive(h[b].at, a)
    ensures Message(events[a].message, events[a].id, events[b].id) in messages
  {}

  lemma SameSend(h: Run, events: seq<LogEntry>, a: nat, b: nat)
    requires Logs(h, events) && a < |h| && b < |h| && h[a].SendTo? && h[b].SendTo?
    requires events[a].message == events[b].message
    ensures a == b
  {}

  lemma PairIsOfRun(h: Run, events: seq<LogEntry>, messages: seq<Message>, m: Message) returns (a: nat, b: nat)
    requires Logs(h, events) && ArePairs(events, messages) && m in messages
    ensures a < |h| && b < |h| && h[b] == Receive(h[b].at, a)
    ensures Find(events, m.send) == Found(events[a]) && Find(events, m.receive) == Found(events[b])
  {
    var s, r :| s in events && r in events && Matches(s, r) && m == Message(s.message, s.id, r.id);
    a :| 0 <= a < |events| && events[a] == s;
    b :| 0 <= b < |events| && events[b] == r;
    FindById(events, a);
    FindById(events, b);
    SameSend(h, events, a, h[b].src);
  }

  ghost predicate PastClosed(h: Run, events: seq<LogEntry>, f: Frontier)
    requires |events| == |h|
  {
    forall a, b :: 0 <= a < |h| && 0 <= b < |h| && Past(h, a, b) && InCut(f, events[b]) ==> InCut(f, events[a])
  }

  lemma {:induction false} ClosedDownward(h: Run, events: seq<LogEntry>, messages: seq<Message>, f: Frontier, a: nat,
                                          b: nat)
    requires Logs(h, events) && ArePairs(events, messages) && Consistent(f, events, messages)
    requires a < |h| && b < |h| && Past(h, a, b) && InCut(f, events[b])
    ensures InCut(f, events[a])
    decreases b
  {
    if a != b {
      var c: nat :| c < b && Edge(h, c, b) && Past(h, a, c);
      if h[c].at != h[b].at {
        PairsOfRun(h, events, messages, c, b);
        FindById(events, c);
        FindById(events, b);
        assert Respected(f, Found(events[c]), Found(events[b]));
      }
      ClosedDownward(h, events, messages, f, a, c);
    }
  }

  /** On every run, however its events are numbered in order, a cut passes the test exactly when it is closed
      under happened-before. */
  lemma ConsistentIsPastClosed(h: Run, events: seq<LogEntry>, messages: seq<Message>, f: Frontier)
    requires Logs(h, events) && ArePairs(events, messages)
    ensures Consistent(f, events, messages) <==> PastClosed(h, events, f)
  {
    if Consistent(f, events, messages) {
      forall a, b | 0 <= a < |h| && 0 <= b < |h| && Past(h, a, b) && InCut(f, events[b]) ensures InCut(f, events[a]) {
        ClosedDownward(h, events, messages, f, a, b);
      }
    }
    if PastClosed(h, events, f) {
      forall m | m in messages ensures Respected(f, Find(events, m.send), Find(events, m.receive)) {
        var a, b := PairIsOfRun(h, events, messages, m);
        assert Edge(h, a, b) && Past(h, a, a);
        assert Past(h, a, b);
      }
    }
  }

  /** The cut before a clock holds the events whose numbers the clock covers. */
  lemma BeforeHolds(h: Run, events: seq<LogEntry>, vc: Clock, y: nat)
    requires Logs(h, events) && y < |h|
    ensures InCut(Before(vc, events), events[y]) <==> events[y].localSeq <= Get(vc, h[y].at)
  {
    var e := events[y];
    assert e in events;
    CutBeforeCovers(vc, events, e);
    if e.localSeq <= Get(vc, e.process) { assert Within(e, e.process, Get(vc, e.process)); }
  }

  /** An event is in the cut before its own clock exactly when its number is its own entry, not above it. */
  lemma InOwnCut(pids: set<Pid>, h: Run, events: seq<LogEntry>, x: nat)
    requires Valid(pids, h) && Logs(h, events) && x < |h|
    ensures InCut(Before(Stamp(pids, h, x), events), events[x]) <==> events[x].localSeq == Index(h, x)
  {
    BeforeHolds(h, events, Stamp(pids, h, x), x);
    StampBound(pids, h, x, h[x].at);
    NumbersRunAhead(h, events, x);
  }

  /** Every event in `x`'s past, and `x`, is numbered with its own clock entry. */
  ghost predicate PastNumberedByEntry(h: Run, events: seq<LogEntry>, x: nat)
    requires |events| == |h|
  {
    forall a :: 0 <= a < |h| && Past(h, a, x) ==> events[a].localSeq == Index(h, a)
  }

  /** The cut before the event's clock is the event's causal past. */
  ghost predicate CutIsPast(pids: set<Pid>, h: Run, events: seq<LogEntry>, x: nat)
    requires Valid(pids, h) && |events| == |h| && x < |h|
  {
    forall y :: 0 <= y < |h| ==> (InCut(Before(Stamp(pids, h, x), events), events[y]) <==> Past(h, y, x))
  }

  /** An event numbered with its own entry has no gap before it at its process. */
  lemma {:induction false} NoGapBelow(h: Run, events: seq<LogEntry>, a: nat, z: nat)
    requires Logs(h, events) && a <= z < |h| && h[a].at == h[z].at && events[z].localSeq == Index(h, z)
    ensures events[a].localSeq == Index(h, a)
    decreases z
  {
    if a < z {
      var p := h[z].at;
      CountMonotone(h, a + 1, z, p);
      assert Index(h, z) == CountAt(h, z, p) + 1;
      assert CountAt(h, a + 1, p) >= 1;
      var w := EventOfIndex(h, z, p, CountAt(h, z, p));
      NumbersRunAhead(h, events, w);
      IndexOrder(h, a, w);
      NoGapBelow(h, events, a, w);
    }
  }

  /** For any log: the cut before an event's clock is the event's causal past exactly when every event in that
      past is numbered with its own entry. */
  lemma CutBeforeIsPast(pids: set<Pid>, h: Run, events: seq<LogEntry>, x: nat)
    requires Valid(pids, h) && Logs(h, events) && x < |h|
    ensures CutIsPast(pids, h, events, x) <==> PastNumberedByEntry(h, events, x)
  {
    var vc := Stamp(pids, h, x);
    if PastNumberedByEntry(h, events, x) {
      forall y | 0 <= y < |h| ensures InCut(Before(vc, events), events[y]) <==> Past(h, y, x) {
        BeforeHolds(h, events, vc, y);
        StampKnows(pids, h, x, y);
        NumbersRunAhead(h, events, y);
      }
    }
    if CutIsPast(pids, h, events, x) {
      forall a | 0 <= a < |h| && Past(h, a, x) ensures events[a].localSeq == Index(h, a) {
        PastInCutIsNumbered(pids, h, events, x, a);
      }
    }
  }

  /** Where the cut holds the past, the past has no gaps. */
  lemma PastInCutIsNumbered(pids: set<Pid>, h: Run, events: seq<LogEntry>, x: nat, a: nat)
    requires Valid(pids, h) && Logs(h, events) && x < |h| && a < |h| && Past(h, a, x)
    requires forall y :: 0 <= y < |h| && Past(h, y, x) ==> InCut(Before(Stamp(pids, h, x), events), events[y])
    ensures events[a].localSeq == Index(h, a)
  {
    hide Valid, Logs, Before, InCut;
    var vc, q := Stamp(pids, h, x), h[a].at;
    StampKnows(pids, h, x, a);
    NoIndexZero(h, a);
    StampBound(pids, h, x, q);
    var z := EventOfIndex(h, x + 1, q, Get(vc, q));
    StampKnows(pids, h, x, z);
    BeforeHolds(h, events, vc, z);
    NumbersRunAhead(h, events, z);
    IndexOrder(h, a, z);
    NoGapBelow(h, events, a, z);
  }

  /** So all cuts before events' clocks are pasts exactly when the whole log is numbered by entries. */
  lemma PastsNeedEntries(pids: set<Pid>, h: Run, events: seq<LogEntry>)
    requires Valid(pids, h) && Logs(h, events)
    ensures NumberedByEntry(h, events) <==> forall x :: 0 <= x < |h| ==> CutIsPast(pids, h, events, x)
  {
    forall x | 0 <= x < |h|
      ensures NumberedByEntry(h, events) ==> CutIsPast(pids, h, events, x)
      ensures CutIsPast(pids, h, events, x) ==> events[x].localSeq == Index(h, x)
    {
      CutBeforeIsPast(pids, h, events, x);
      assert Past(h, x, x);
    }
  }

  // ---- The cut before an arbitrary clock ----

  /** The numbers a clock covers are closed under happened-before. */
  ghost predicate CoversPasts(h: Run, events: seq<LogEntry>, vc: Clock)
    requires |events| == |h|
  {
    forall a, b :: 0 <= a < |h| && 0 <= b < |h| && Past(h, a, b) && events[b].localSeq <= Get(vc, h[b].at) ==>
      events[a].localSeq <= Get(vc, h[a].at)
  }

  /** For any log: the cut before a clock is consistent exactly when the numbers it covers are closed under
      happened-before. */
  lemma CutBeforeConsistent(h: Run, events: seq<LogEntry>, messages: seq<Message>, vc: Clock)
    requires Logs(h, events) && ArePairs(events, messages)
    ensures Consistent(Before(vc, events), events, messages) <==> CoversPasts(h, events, vc)
  {
    ConsistentIsPastClosed(h, events, messages, Before(vc, events));
    forall y | 0 <= y < |h| ensures InCut(Before(vc, events), events[y]) <==> events[y].localSeq <= Get(vc, h[y].at) {
      BeforeHolds(h, events, vc, y);
    }
  }

  /** A clock that covers an event covers its whole clock. */
  ghost predicate ClocksCovered(pids: set<Pid>, h: Run, vc: Clock)
    requires Valid(pids, h)
  {
    forall b :: 0 <= b < |h| && Index(h, b) <= Get(vc, h[b].at) ==> Leq(Stamp(pids, h, b), vc)
  }

  /** Numbered by entries, that is: the clock covers the clock of each event it covers. */
  lemma {:induction false} CutBeforeConsistentByEntry(pids: set<Pid>, h: Run, events: seq<LogEntry>,
                                                      messages: seq<Message>, vc: Clock)
    requires Valid(pids, h) && Logs(h, events) && NumberedByEntry(h, events) && ArePairs(events, messages)
    ensures Consistent(Before(vc, events), events, messages) <==> ClocksCovered(pids, h, vc)
  {
    CutBeforeConsistent(h, events, messages, vc);
    if CoversPasts(h, events, vc) {
      forall b | 0 <= b < |h| && Index(h, b) <= Get(vc, h[b].at) ensures Leq(Stamp(pids, h, b), vc) {
        PastInCutIsCovered(pids, h, events, vc, b);
      }
    }
    if ClocksCovered(pids, h, vc) {
      forall a, b | 0 <= a < |h| && 0 <= b < |h| && Past(h, a, b) && Index(h, b) <= Get(vc, h[b].at)
        ensures Index(h, a) <= Get(vc, h[a].at)
      {
        StampKnows(pids, h, b, a);
        assert Leq(Stamp(pids, h, b), vc);
        assert Get(Stamp(pids, h, b), h[a].at) <= Get(vc, h[a].at);
      }
    }
  }

  lemma PastInCutIsCovered(pids: set<Pid>, h: Run, events: seq<LogEntry>, vc: Clock, b: nat)
    requires Valid(pids, h) && |events| == |h| && NumberedByEntry(h, events) && CoversPasts(h, events, vc)
    requires b < |h| && Index(h, b) <= Get(vc, h[b].at)
    ensures Leq(Stamp(pids, h, b), vc)
  {
    forall q ensures Get(Stamp(pids, h, b), q) <= Get(vc, q) {
      var k := Get(Stamp(pids, h, b), q);
      StampBound(pids, h, b, q);
      if k > 0 {
        var a := EventOfIndex(h, b + 1, q, k);
        StampKnows(pids, h, b, a);
        assert events[a].localSeq <= Get(vc, h[a].at);
      }
    }
  }

  /** Such a clock, and an inconsistent cut: it covers the receive of a message and not its send. */
  lemma ArbitraryClockInconsistent(p: Pid, q: Pid, s: G.EventId, r: G.EventId, m: string)
    requires p != q && s != r
    ensures var id := G.MessageId(m);
            var events := [G.Event(s, p, G.SendEvent, 1, id), G.Event(r, q, G.ReceiveEvent, 1, id)];
            var messages := [Message(id, s, r)];
            ArePairs(events, messages) && !Consistent(Before(map[q := 1], events), events, messages)
  {
    var id := G.MessageId(m);
    var send, receive := G.Event(s, p, G.SendEvent, 1, id), G.Event(r, q, G.ReceiveEvent, 1, id);
    var events, messages := [send, receive], [Message(id, s, r)];
    var f := Before(map[q := 1], events);
    assert send in events && receive in events && Matches(send, receive);
    assert Find(events, s) == Found(send);
    FindSecond(send, receive);
    CutBeforeCovers(map[q := 1], events, send);
    CutBeforeCovers(map[q := 1], events, receive);
    assert Within(receive, q, 1);
    assert InCut(f, receive) && !InCut(f, send);
    assert messages[0] in messages && !Respected(f, Find(events, s), Find(events, r));
  }

  /** A message from `p` to `q` and one more event at `q`, numbered as processes number them: their spawn events
      have taken number 1. */
  function GappedRun(p: Pid, q: Pid): Run {
    [SendTo(p, q), Receive(q, 0), Internal(q)]
  }

  function GappedLog(p: Pid, q: Pid, s: G.EventId, r: G.EventId, i: G.EventId, m: string): seq<LogEntry> {
    [G.Event(s, p, G.SendEvent, 2, G.MessageId(m)), G.Event(r, q, G.ReceiveEvent, 2, G.MessageId(m)),
     G.Event(i, q, G.InternalEvent, 3, G.NoMessage)]
  }

  lemma GappedRunIsLogged(p: Pid, q: Pid, s: G.EventId, r: G.EventId, i: G.EventId, m: string)
    requires p != q && s != r && s != i && r != i
    ensures Valid({p, q}, GappedRun(p, q)) && Logs(GappedRun(p, q), GappedLog(p, q, s, r, i, m))
  {
    var h := GappedRun(p, q);
    assert ValidEvent({p, q}, h[..0], h[0]) && ValidEvent({p, q}, h[..1], h[1]) && ValidEvent({p, q}, h[..2], h[2]);
  }

  /** With gaps even the cut before an event's own clock can be inconsistent: this one holds the receive, whose
      number the receiver's entry has reached, and not the send, whose number is above the sender's entry. */
  lemma OwnClockInconsistent(p: Pid, q: Pid, s: G.EventId, r: G.EventId, i: G.EventId, m: string,
                             messages: seq<Message>)
    requires p != q && s != r && s != i && r != i && ArePairs(GappedLog(p, q, s, r, i, m), messages)
    ensures Valid({p, q}, GappedRun(p, q))
    ensures var events := GappedLog(p, q, s, r, i, m);
            !Consistent(Before(Stamp({p, q}, GappedRun(p, q), 2), events), events, messages)
  {
    var pids, h, events := {p, q}, GappedRun(p, q), GappedLog(p, q, s, r, i, m);
    GappedRunIsLogged(p, q, s, r, i, m);
    var vc := Stamp(pids, h, 2);
    StampBound(pids, h, 2, p);
    StampBound(pids, h, 2, q);
    assert CountAt(h, 1, p) == 1 && CountAt(h, 2, p) == 1 && CountAt(h, 3, p) == 1;
    assert CountAt(h, 1, q) == 0 && CountAt(h, 2, q) == 1 && CountAt(h, 3, q) == 2;
    assert Edge(h, 0, 1) && Past(h, 0, 0) && Past(h, 0, 1);
    assert Get(vc, p) <= 1 && Get(vc, q) == 2;
    CutBeforeConsistent(h, events, messages, vc);
    assert events[1].localSeq <= Get(vc, h[1].at) && events[0].localSeq > Get(vc, h[0].at);
  }

  lemma FindSecond(a: LogEntry, b: LogEntry)
    requires a.id != b.id
    ensures Find([a, b], b.id) == Found(b)
  {
    assert [a, b][1..] == [b];
  }

  // ---- The least consistent cut ----

  ghost predicate Below(f: Frontier, g: Frontier) {
    forall p :: p in f ==> p in g && f[p] <= g[p]
  }

  lemma BeforeIsCandidate(vc: Clock, events: seq<LogEntry>)
    ensures Candidate(Before(vc, events), events)
  {
    var f := Before(vc, events);
    forall p | p in f ensures f[p] == -1 || exists e :: e in events && e.process == p && e.localSeq == f[p] {
      LatestIsMax(events, p, Get(vc, p));
    }
  }

  /** What a cut holds of the events before `vc` bounds the cut before `vc`. */
  lemma BeforeIsBelow(vc: Clock, events: seq<LogEntry>, g: Frontier)
    requires Candidate(g, events)
    requires forall e :: e in events && InCut(Before(vc, events), e) ==> InCut(g, e)
    ensures Below(Before(vc, events), g)
  {
    var f := Before(vc, events);
    forall p | p in f ensures p in g && f[p] <= g[p] {
      LatestIsMax(events, p, Get(vc, p));
      if f[p] != -1 {
        var e :| e in events && Within(e, p, Get(vc, p)) && e.localSeq == f[p];
        assert InCut(f, e);
      }
    }
  }

  /** One of the consistent cuts enumerated, holding `e`, and below all that do. */
  ghost predicate LeastCut(f: Frontier, events: seq<LogEntry>, messages: seq<Message>, e: LogEntry) {
    && Candidate(f, events) && InCut(f, e) && Consistent(f, events, messages)
    && forall g :: Candidate(g, events) && Consistent(g, events, messages) && InCut(g, e) ==> Below(f, g)
  }

  /** For any log: the cut before an event's clock is the least consistent one containing the event exactly when
      every event in its past is numbered with its own entry. */
  lemma {:induction false} CutBeforeIsLeast(pids: set<Pid>, h: Run, events: seq<LogEntry>, messages: seq<Message>,
                                            x: nat)
    requires Valid(pids, h) && Logs(h, events) && ArePairs(events, messages) && x < |h|
    ensures LeastCut(Before(Stamp(pids, h, x), events), events, messages, events[x])
            <==> PastNumberedByEntry(h, events, x)
  {
    var vc := Stamp(pids, h, x);
    var f := Before(vc, events);
    ConsistentIsPastClosed(h, events, messages, f);
    if PastNumberedByEntry(h, events, x) {
      BeforeIsCandidate(vc, events);
      CutBeforeIsPast(pids, h, events, x);
      assert Past(h, x, x);
      PastCutIsClosed(pids, h, events, x);
      forall g | Candidate(g, events) && Consistent(g, events, messages) && InCut(g, events[x]) ensures Below(f, g) {
        ConsistentIsPastClosed(h, events, messages, g);
        PastIsBelow(pids, h, events, x, g);
      }
    }
    if LeastCut(f, events, messages, events[x]) {
      forall a | 0 <= a < |h| && Past(h, a, x) ensures events[a].localSeq == Index(h, a) {
        PastInCutIsNumbered(pids, h, events, x, a);
      }
    }
  }

  lemma PastCutIsClosed(pids: set<Pid>, h: Run, events: seq<LogEntry>, x: nat)
    requires Valid(pids, h) && |events| == |h| && x < |h| && CutIsPast(pids, h, events, x)
    ensures PastClosed(h, events, Before(Stamp(pids, h, x), events))
  {
    var f := Before(Stamp(pids, h, x), events);
    forall a, b | 0 <= a < |h| && 0 <= b < |h| && Past(h, a, b) && InCut(f, events[b]) ensures InCut(f, events[a]) {
      PastTransitive(h, a, b, x);
    }
  }

  lemma PastIsBelow(pids: set<Pid>, h: Run, events: seq<LogEntry>, x: nat, g: Frontier)
    requires Valid(pids, h) && |events| == |h| && x < |h| && CutIsPast(pids, h, events, x)
    requires Candidate(g, events) && PastClosed(h, events, g) && InCut(g, events[x])
    ensures Below(Before(Stamp(pids, h, x), events), g)
  {
    var f := Before(Stamp(pids, h, x), events);
    forall e | e in events && InCut(f, e) ensures InCut(g, e) {
      var y :| 0 <= y < |events| && events[y] == e;
      assert Past(h, y, x);
    }
    BeforeIsBelow(Stamp(pids, h, x), events, g);
  }
}
