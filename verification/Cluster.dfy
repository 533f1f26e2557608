/** Process objects over a network that keeps every message: whatever the calls, their clocks, stamps and logs are
    those of one run.
 */
module Clusters {
  import opened VectorClock
  import opened Runs
  import opened MatrixRuns
  import opened ProcessRuns
  import P = Processes

  /** Where a run leaves a process. */
  datatype Standing = Standing(clocks: P.Clocks, events: seq<P.Emitted>, messageSeq: nat)

  ghost function StandingAt(t: P.ClockType, pids: set<Pid>, rows: Rows, h: Run, p: Pid): Standing
    requires Valid(pids, h)
  {
    Standing(ClocksAt(t, pids, rows, h, |h|, p), LogAt(t, pids, rows, h, |h|, p), SendsAt(h, |h|, p))
  }

  ghost predicate Follows(process: P.Process, t: P.ClockType, p: Pid, standing: Standing)
    reads process
  {
    && process.id == p && process.clockType == t && process.mode.ImmediateDelivery?
    && process.clocks == standing.clocks && process.messageSeq == standing.messageSeq
    && process.events == standing.events && P.InOrder(process.events, process.localSeq)
  }

  /** The message that event `i` sent, with the clocks that event left. */
  ghost predicate Carries(packet: P.Packet, t: P.ClockType, pids: set<Pid>, rows: Rows, h: Run, i: nat)
    requires Valid(pids, h) && i < |h|
  {
    && h[i].SendTo? && packet.Application? && packet.message.from == h[i].at && packet.message.to == h[i].to
    && packet.message.id == MessageOf(pids, h, i)
    && P.CarriedBy(packet) == P.StampOf(t, ClocksOf(t, pids, rows, h, i))
  }

  /** The network has every message sent. */
  ghost predicate NetFollows(net: map<nat, P.Packet>, t: P.ClockType, pids: set<Pid>, rows: Rows, h: Run)
    requires Valid(pids, h)
  {
    forall i :: 0 <= i < |h| && h[i].SendTo? ==> i in net && Carries(net[i], t, pids, rows, h, i)
  }

  /** An event changes the standing of its process as the process's rules do. */
  lemma OwnStep(t: P.ClockType, pids: set<Pid>, rows: Rows, h: Run, e: Event)
    requires Valid(pids, h) && ValidEvent(pids, h, e)
    ensures Valid(pids, h + [e])
    ensures var old', new' := StandingAt(t, pids, rows, h, e.at), StandingAt(t, pids, rows, h + [e], e.at);
            && new'.clocks == ClocksOf(t, pids, rows, h + [e], |h|)
            && new'.clocks ==
               (if e.Receive? then
                  P.ReceivedClocks(t, old'.clocks, P.StampOf(t, ClocksOf(t, pids, rows, h, e.src)), e.at, h[e.src].at)
                else P.TickedClocks(t, old'.clocks, e.at))
            && new'.events ==
               old'.events + [P.Emitted(KindOf(e), |old'.events| + 1, new'.clocks, MessageOf(pids, h + [e], |h|))]
            && new'.messageSeq == old'.messageSeq + if e.SendTo? then 1 else 0
  {
    hide P.TickedClocks, P.ReceivedClocks, P.StampOf, P.NewClocks, MessageOf, KindOf, Valid;
    var g := h + [e];
    ExtendValid(pids, h, e);
    assert g[..|h|] == h;
    SameClocksAt(t, pids, rows, h, g, |h|, e.at);
    SameLog(t, pids, rows, h, g, |h|, e.at);
    SameSends(h, g, |h|, e.at);
    if e.Receive? { SameClocksOf(t, pids, rows, h, g, e.src); }
  }

  /** The message number of an appended event. */
  lemma OwnMessage(t: P.ClockType, pids: set<Pid>, rows: Rows, h: Run, e: Event)
    requires Valid(pids, h) && ValidEvent(pids, h, e) && Valid(pids, h + [e])
    ensures MessageOf(pids, h + [e], |h|) ==
            if e.Internal? then 0 else if e.SendTo? then StandingAt(t, pids, rows, h, e.at).messageSeq + 1
            else MessageOf(pids, h, e.src)
  {
    var g := h + [e];
    assert g[..|h|] == h;
    SameSends(h, g, |h|, e.at);
    if e.Receive? { SameSends(h, g, e.src + 1, h[e.src].at); }
  }

  lemma OtherStep(t: P.ClockType, pids: set<Pid>, rows: Rows, h: Run, e: Event, q: Pid)
    requires Valid(pids, h) && ValidEvent(pids, h, e) && q != e.at
    ensures Valid(pids, h + [e]) && StandingAt(t, pids, rows, h + [e], q) == StandingAt(t, pids, rows, h, q)
  {
    var g := h + [e];
    ExtendValid(pids, h, e);
    assert g[..|h|] == h;
    SameClocksAt(t, pids, rows, h, g, |h|, q);
    SameLog(t, pids, rows, h, g, |h|, q);
    SameSends(h, g, |h|, q);
  }

  lemma StillCarries(packet: P.Packet, t: P.ClockType, pids: set<Pid>, rows: Rows, h: Run, e: Event, i: nat)
    requires Valid(pids, h) && Valid(pids, h + [e]) && i < |h| && Carries(packet, t, pids, rows, h, i)
    ensures Carries(packet, t, pids, rows, h + [e], i)
  {
    assert (h + [e])[..|h|] == h;
    SameClocksOf(t, pids, rows, h, h + [e], i);
    SameMessage(pids, h, h + [e], i);
  }

  lemma OneMore(order: seq<Pid>, p: Pid)
    requires NoRepeat(order) && p !in Members(order)
    ensures NoRepeat(order + [p]) && Members(order + [p]) == Members(order) + {p}
  {}

  /** Spawning one more leaves the others where they started. */
  lemma SameStart(t: P.ClockType, order: seq<Pid>, p: Pid, net: map<nat, P.Packet>)
    requires p !in order
    ensures Valid(Members(order), []) && Valid(Members(order + [p]), [])
    ensures forall q :: q in Members(order) ==>
              StandingAt(t, Members(order + [p]), SpawnedRows(order + [p]), [], q)
              == StandingAt(t, Members(order), SpawnedRows(order), [], q)
    ensures var clocks := P.NewClocks(t, Members(order + [p]));
            StandingAt(t, Members(order + [p]), SpawnedRows(order + [p]), [], p)
            == Standing(clocks, [P.Emitted(P.SpawnedEvent, 1, clocks, 0)], 0)
    ensures NetFollows(net, t, Members(order + [p]), SpawnedRows(order + [p]), [])
  {
    SpawnedRowsMore(order, p);
  }

  /** Where everyone stands after one more event. */
  lemma Steps(t: P.ClockType, pids: set<Pid>, rows: Rows, h: Run, e: Event)
    requires Valid(pids, h) && ValidEvent(pids, h, e)
    ensures Valid(pids, h + [e])
    ensures forall q :: q != e.at ==> StandingAt(t, pids, rows, h + [e], q) == StandingAt(t, pids, rows, h, q)
    ensures StandingAt(t, pids, rows, h + [e], e.at) ==
            Then(StandingAt(t, pids, rows, h, e.at), KindOf(e), ClocksOf(t, pids, rows, h + [e], |h|),
                 MessageOf(pids, h + [e], |h|))
    ensures ClocksOf(t, pids, rows, h + [e], |h|) ==
            (if e.Receive? then
               P.ReceivedClocks(t, StandingAt(t, pids, rows, h, e.at).clocks,
                                P.StampOf(t, ClocksOf(t, pids, rows, h, e.src)), e.at, h[e.src].at)
             else P.TickedClocks(t, StandingAt(t, pids, rows, h, e.at).clocks, e.at))
    ensures MessageOf(pids, h + [e], |h|) ==
            if e.Internal? then 0 else if e.SendTo? then StandingAt(t, pids, rows, h, e.at).messageSeq + 1
            else MessageOf(pids, h, e.src)
  {
    OwnStep(t, pids, rows, h, e);
    OwnMessage(t, pids, rows, h, e);
    forall q | q != e.at ensures StandingAt(t, pids, rows, h + [e], q) == StandingAt(t, pids, rows, h, q) {
      OtherStep(t, pids, rows, h, e, q);
    }
  }

  lemma InNet(net: map<nat, P.Packet>, t: P.ClockType, pids: set<Pid>, rows: Rows, h: Run, i: nat)
    requires Valid(pids, h) && NetFollows(net, t, pids, rows, h) && i < |h| && h[i].SendTo?
    ensures i in net && Carries(net[i], t, pids, rows, h, i)
  {}

  lemma NetStays(net: map<nat, P.Packet>, t: P.ClockType, pids: set<Pid>, rows: Rows, h: Run, e: Event)
    requires Valid(pids, h) && Valid(pids, h + [e]) && NetFollows(net, t, pids, rows, h) && !e.SendTo?
    ensures NetFollows(net, t, pids, rows, h + [e])
  {
    forall i | 0 <= i < |h| + 1 && (h + [e])[i].SendTo? ensures i in net && Carries(net[i], t, pids, rows, h + [e], i) {
      StillCarries(net[i], t, pids, rows, h, e, i);
    }
  }

  lemma NetGrows(net: map<nat, P.Packet>, t: P.ClockType, pids: set<Pid>, rows: Rows, h: Run, e: Event,
                 packet: P.Packet)
    requires Valid(pids, h) && Valid(pids, h + [e]) && NetFollows(net, t, pids, rows, h)
    requires Carries(packet, t, pids, rows, h + [e], |h|)
    ensures NetFollows(net[|h| := packet], t, pids, rows, h + [e])
  {
    forall i | 0 <= i < |h| && (h + [e])[i].SendTo? ensures i in net && Carries(net[i], t, pids, rows, h + [e], i) {
      StillCarries(net[i], t, pids, rows, h, e, i);
    }
  }

  // ---- What one call makes of one process ----

  /** The standing after an event that left these clocks. */
  ghost function Then(s: Standing, kind: P.EventKind, clocks: P.Clocks, message: nat): Standing {
    Standing(clocks, s.events + [P.Emitted(kind, |s.events| + 1, clocks, message)],
             s.messageSeq + if kind == P.SendEvent then 1 else 0)
  }

  method SpawnOne(p: Pid, t: P.ClockType, known: seq<Pid>) returns (process: P.Process)
    ensures fresh(process) && fresh(process.queue)
    ensures var clocks := P.NewClocks(t, Members(known));
            Follows(process, t, p, Standing(clocks, [P.Emitted(P.SpawnedEvent, 1, clocks, 0)], 0))
  {
    process := new P.Process(p, t, P.ImmediateDelivery, known);
    process.Start();
  }

  method TickIn(process: P.Process, ghost t: P.ClockType, ghost p: Pid, ghost s: Standing)
    requires Follows(process, t, p, s)
    modifies process
    ensures Follows(process, t, p, Then(s, P.InternalEvent, P.TickedClocks(t, s.clocks, p), 0))
  {
    process.Internal();
  }

  method SendFrom(process: P.Process, to: Pid, ghost t: P.ClockType, ghost p: Pid, ghost s: Standing)
    returns (packet: P.Packet)
    requires Follows(process, t, p, s)
    modifies process
    ensures Follows(process, t, p, Then(s, P.SendEvent, P.TickedClocks(t, s.clocks, p), s.messageSeq + 1))
    ensures packet.Application? && packet.message.from == p && packet.message.to == to
    ensures packet.message.id == s.messageSeq + 1
    ensures P.CarriedBy(packet) == P.StampOf(t, P.TickedClocks(t, s.clocks, p))
  {
    process.Send(to);
    packet := process.outbox[|process.outbox| - 1];
  }

  method HandTo(process: P.Process, packet: P.Packet, ghost t: P.ClockType, ghost p: Pid, ghost s: Standing)
    requires Follows(process, t, p, s) && packet.Application?
    modifies process, process.queue
    ensures Follows(process, t, p,
                    Then(s, P.ReceiveEvent,
                         P.ReceivedClocks(t, s.clocks, P.CarriedBy(packet), p, packet.message.from),
                         packet.message.id))
  {
    process.HandleMessage(packet);
  }

  // ---- Everyone ----

  /** No object is two processes. */
  ghost predicate Apart(procs: map<Pid, P.Process>) {
    forall p, q :: p in procs && q in procs && p != q ==> procs[p] != procs[q]
  }

  ghost predicate EveryoneFollows(procs: map<Pid, P.Process>, t: P.ClockType, pids: set<Pid>, rows: Rows, h: Run)
    requires Valid(pids, h)
    reads procs.Values
  {
    forall p :: p in procs ==> Follows(procs[p], t, p, StandingAt(t, pids, rows, h, p))
  }

  /** A new process joins those that have followed no event yet. */
  lemma JoinOne(procs: map<Pid, P.Process>, process: P.Process, p: Pid, t: P.ClockType, order: seq<Pid>)
    requires p !in order && procs.Keys == Members(order) && process !in procs.Values && Apart(procs)
    requires Valid(Members(order), []) && EveryoneFollows(procs, t, Members(order), SpawnedRows(order), [])
    requires var clocks := P.NewClocks(t, Members(order + [p]));
             Follows(process, t, p, Standing(clocks, [P.Emitted(P.SpawnedEvent, 1, clocks, 0)], 0))
    ensures Valid(Members(order + [p]), []) && Apart(procs[p := process])
    ensures EveryoneFollows(procs[p := process], t, Members(order + [p]), SpawnedRows(order + [p]), [])
  {
    hide StandingAt, SpawnedRows, NetFollows, Follows, P.NewClocks, P.InOrder, NoRepeat;
    SameStart(t, order, p, map[]);
    assert forall q :: q in procs ==> procs[q] in procs.Values;
  }

  ghost predicate OthersFollow(procs: map<Pid, P.Process>, self: Pid, t: P.ClockType, pids: set<Pid>, rows: Rows,
                               h: Run)
    requires Valid(pids, h)
    reads set p | p in procs && p != self :: procs[p]
  {
    forall p :: p in procs && p != self ==> Follows(procs[p], t, p, StandingAt(t, pids, rows, h, p))
  }

  /** Once one process has followed an event of its own, everyone has. */
  lemma FollowOn(procs: map<Pid, P.Process>, t: P.ClockType, pids: set<Pid>, rows: Rows, h: Run, e: Event)
    requires Valid(pids, h) && ValidEvent(pids, h, e) && e.at in procs && OthersFollow(procs, e.at, t, pids, rows, h)
    requires Valid(pids, h + [e]) && Follows(procs[e.at], t, e.at, StandingAt(t, pids, rows, h + [e], e.at))
    ensures EveryoneFollows(procs, t, pids, rows, h + [e])
  {
    hide StandingAt, Follows, P.InOrder, Then, ClocksOf, MessageOf;
    Steps(t, pids, rows, h, e);
  }

  class Cluster {
    const clockType: P.ClockType
    var order: seq<Pid>
    var procs: map<Pid, P.Process>
    var history: Run
    /** Every message ever sent, by the event that sent it: any of them may be delivered, any number of times. */
    var net: map<nat, P.Packet>

    /** Every process is where the history says. */
    ghost predicate Follow()
      reads this, procs.Values
    {
      var pids, rows := Members(order), SpawnedRows(order);
      && NoRepeat(order) && procs.Keys == pids && Valid(pids, history)
      && Apart(procs) && EveryoneFollows(procs, clockType, pids, rows, history)
      && NetFollows(net, clockType, pids, rows, history)
    }

    constructor (clockType: P.ClockType)
      ensures this.clockType == clockType && order == [] && history == [] && Follow()
    {
      this.clockType := clockType;
      order, procs, history, net := [], map[], [], map[];
    }

    /** Processes are spawned before the first event, each knowing those before it. */
    method Spawn(p: Pid)
      requires Follow() && history == [] && p !in procs
      modifies this
      ensures Follow() && history == [] && order == old(order) + [p] && fresh(procs[p])
      ensures forall q :: q in old(procs) ==> q in procs && procs[q] == old(procs)[q]
    {
      hide StandingAt, SpawnedRows, NetFollows, Follows, NoRepeat, Apart, EveryoneFollows, Valid;
      hide P.NewClocks, P.InOrder;
      OneMore(order, p);
      SameStart(clockType, order, p, net);
      var process := SpawnOne(p, clockType, order + [p]);
      JoinOne(procs, process, p, clockType, order);
      procs := procs[p := process];
      order := order + [p];
    }

    method InternalEvent(p: Pid)
      requires Follow() && p in procs
      modifies this, procs.Values
      ensures Follow() && history == old(history) + [Internal(p)] && procs == old(procs) && order == old(order)
    {
      hide StandingAt, NetFollows, ClocksOf, MessageOf, SpawnedRows, Follows, Then, P.InOrder, NoRepeat;
      ghost var pids, rows, e := Members(order), SpawnedRows(order), Internal(p);
      Steps(clockType, pids, rows, history, e);
      NetStays(net, clockType, pids, rows, history, e);
      assert OthersFollow(procs, e.at, clockType, pids, rows, history);
      assert Follows(procs[e.at], clockType, e.at, StandingAt(clockType, pids, rows, history, e.at));
      hide EveryoneFollows, OthersFollow;
      TickIn(procs[p], clockType, p, StandingAt(clockType, pids, rows, history, p));
      FollowOn(procs, clockType, pids, rows, history, e);
      history := history + [Internal(p)];
    }

    method SendMessage(p: Pid, to: Pid)
      requires Follow() && p in procs
      modifies this, procs.Values
      ensures Follow() && history == old(history) + [SendTo(p, to)] && procs == old(procs) && order == old(order)
    {
      hide StandingAt, NetFollows, ClocksOf, MessageOf, SpawnedRows, Follows, Then, P.InOrder, NoRepeat;
      ghost var pids, rows, e := Members(order), SpawnedRows(order), SendTo(p, to);
      Steps(clockType, pids, rows, history, e);
      UnusedOf(clockType, pids, rows, history + [e], |history|);
      assert OthersFollow(procs, e.at, clockType, pids, rows, history);
      assert Follows(procs[e.at], clockType, e.at, StandingAt(clockType, pids, rows, history, e.at));
      hide EveryoneFollows, OthersFollow;
      var packet := SendFrom(procs[p], to, clockType, p, StandingAt(clockType, pids, rows, history, p));
      FollowOn(procs, clockType, pids, rows, history, e);
      NetGrows(net, clockType, pids, rows, history, e, packet);
      net := net[|history| := packet];
      history := history + [SendTo(p, to)];
    }

    method Deliver(src: nat)
      requires Follow() && src < |history| && history[src].SendTo? && history[src].to in procs
      modifies this, procs.Values, set p | p in procs :: procs[p].queue
      ensures Follow() && history == old(history) + [Receive(old(history)[src].to, src)]
      ensures procs == old(procs) && order == old(order)
    {
      hide StandingAt, NetFollows, ClocksOf, MessageOf, SpawnedRows, Follows, Then, P.InOrder, NoRepeat;
      var p := history[src].to;
      ghost var pids, rows, e := Members(order), SpawnedRows(order), Receive(p, src);
      InNet(net, clockType, pids, rows, history, src);
      Steps(clockType, pids, rows, history, e);
      NetStays(net, clockType, pids, rows, history, e);
      assert OthersFollow(procs, e.at, clockType, pids, rows, history);
      assert Follows(procs[e.at], clockType, e.at, StandingAt(clockType, pids, rows, history, e.at));
      hide EveryoneFollows, OthersFollow;
      HandTo(procs[p], net[src], clockType, p, StandingAt(clockType, pids, rows, history, p));
      FollowOn(procs, clockType, pids, rows, history, e);
      history := history + [Receive(p, src)];
    }

    /** What the objects have published for an event, whatever their clock type: the vector clock of the event in the
        run, its matrix, or the length of the longest happened-before chain that ends in it. */
    lemma EventsCarry(i: nat)
      requires Follow() && i < |history|
      ensures history[i].at in procs && Index(history, i) < |procs[history[i].at].events|
      ensures var event := procs[history[i].at].events[Index(history, i)];
              && event.kind == KindOf(history[i]) && event.localSeq == Index(history, i) + 1
              && event.messageId == MessageOf(Members(order), history, i)
              && (clockType.VectorTime? ==> Same(event.clocks.vector, Stamp(Members(order), history, i)))
              && (clockType.MatrixTime? ==>
                    event.clocks.matrix == MatrixStamp(Members(order), SpawnedRows(order), history, i))
              && (clockType.LamportTime? ==>
                    && (exists c :: Chain(history, c) && c[|c| - 1] == i && |c| == event.clocks.lamport)
                    && (forall c :: Chain(history, c) && c[|c| - 1] == i ==> |c| <= event.clocks.lamport))
    {
      hide Stamp, MatrixStamp, MessageOf, KindOf, SpawnedRows, ClocksOf, P.StampOf, NetFollows, Chain, Same;
      var pids, rows, p := Members(order), SpawnedRows(order), history[i].at;
      assert ValidEvent(pids, history[..i], history[i]);
      LogEntry(clockType, pids, rows, history, |history|, p, i);
      assert procs[p].events == LogAt(clockType, pids, rows, history, |history|, p);
      match clockType
      case VectorTime => VectorOf(pids, rows, history, i);
      case MatrixTime => MatrixTimeOf(pids, rows, history, i);
      case LamportTime => LamportOf(pids, rows, history, i);
      case OtherTime =>
    }

    /** The strong clock condition for the objects: comparing the clocks that two processes have published with
        their events decides how the events are related, and each event is numbered with its own entry and one. */
    lemma EventsDecide(a: nat, b: nat)
      requires Follow() && clockType.VectorTime? && a < |history| && b < |history|
      ensures history[a].at in procs && history[b].at in procs
      ensures var mine, other := procs[history[a].at].events, procs[history[b].at].events;
              && Index(history, a) < |mine| && Index(history, b) < |other|
              && mine[Index(history, a)].kind == KindOf(history[a])
              && mine[Index(history, a)].localSeq == Index(history, a) + 1
              && var order := OrderOf(mine[Index(history, a)].clocks.vector, other[Index(history, b)].clocks.vector);
                 && (order == HappenedBefore <==> HB(history, a, b))
                 && (order == HappenedAfter <==> HB(history, b, a))
                 && (order == Identical <==> a == b)
                 && (order == Concurrent <==> a != b && !HB(history, a, b) && !HB(history, b, a))
    {
      var pids := Members(order);
      assert ValidEvent(pids, history[..a], history[a]) && ValidEvent(pids, history[..b], history[b]);
      LogEntry(clockType, pids, SpawnedRows(order), history, |history|, history[a].at, a);
      PublishedClocksDecide(pids, SpawnedRows(order), history, a, b);
    }
  }

  lemma SpawnedRowsMore(order: seq<Pid>, p: Pid)
    requires p !in order
    ensures RowsOf(SpawnedRows(order + [p]), p) == Members(order + [p])
    ensures forall q :: q in order ==> RowsOf(SpawnedRows(order + [p]), q) == RowsOf(SpawnedRows(order), q)
  {
    assert (order + [p])[..|order|] == order;
  }
}
