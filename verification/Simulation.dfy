/** The simulation: processes, transport and snapshot coordinator wired together, updated in place.

    Each operation is one step of a run: what it leaves is `Do` of what it found. So everything proved of
    whole runs holds of a simulation driven through these methods.
 */
module Simulations {
  import opened VectorClock
  import opened Snapshots
  import opened FifoRuns
  import opened SnapshotRuns

  const MAX_PROCESSES := 100
  const MAX_ID_LENGTH := 64

  function Opened(ch: map<ChannelKey, seq<Item>>, key: ChannelKey): map<ChannelKey, seq<Item>> {
    if key in ch then ch else ch[key := []]
  }

  /** Channels both ways between a new process and those before it. */
  function Linked(ch: map<ChannelKey, seq<Item>>, p: Pid, others: seq<Pid>): map<ChannelKey, seq<Item>> {
    if others == [] then ch
    else
      var last := others[|others| - 1];
      Opened(Opened(Linked(ch, p, others[..|others| - 1]), ChannelKey(p, last)), ChannelKey(last, p))
  }

  /** The fault-free transport: one unbounded queue per directed channel. */
  class SimTransport {
    var channels: map<ChannelKey, seq<Item>>

    constructor ()
      ensures channels == map[]
    {
      channels := map[];
    }

    method RegisterChannel(from: Pid, to: Pid)
      modifies this
      ensures channels == Opened(old(channels), ChannelKey(from, to))
      ensures channels.Keys == old(channels).Keys + {ChannelKey(from, to)}
      ensures forall key :: key in channels ==> channels[key] == if key in old(channels) then old(channels)[key] else []
    {
      if ChannelKey(from, to) !in channels {
        channels := channels[ChannelKey(from, to) := []];
      }
    }

    method Send(from: Pid, to: Pid, item: Item) returns (ok: bool)
      modifies this
      ensures ok == (ChannelKey(from, to) in old(channels))
      ensures channels == if ok then old(channels)[ChannelKey(from, to) := old(channels)[ChannelKey(from, to)] + [item]]
                          else old(channels)
    {
      var key := ChannelKey(from, to);
      ok := key in channels;
      if ok {
        channels := channels[key := channels[key] + [item]];
      }
    }

    method Forward(key: ChannelKey) returns (item: Item)
      requires key in channels && channels[key] != []
      modifies this
      ensures item == old(channels)[key][0]
      ensures channels == old(channels)[key := old(channels)[key][1..]]
    {
      item := channels[key][0];
      channels := channels[key := channels[key][1..]];
    }
  }

  /** A process whose send found no channel. */
  function Unsent(l: Local, self: Pid): Local {
    LocalTick(l, self).(messageSeq := l.messageSeq + 1)
  }

  /** Without a channel the process is left as by a send, its clock ticked and the message number used up, and
      nothing is logged as sent. */
  lemma UnsentIsSendUnlogged(l: Local, self: Pid, to: Pid)
    ensures Unsent(l, self) == LocalSend(l, self, to).(sent := l.sent)
    ensures Unsent(l, self) == LocalTick(l, self).(messageSeq := NextMessage(l, self, to).id)
  {}

  /** The state a new process joins. */
  function Joined(s: Sys, p: Pid, others: seq<Pid>): Sys {
    Sys(s.locals[p := Local(Zero(Members(others + [p])), 0, map[], map[])], Linked(s.channels, p, others),
        Registered(s.coord, p, others), s.markers)
  }

  class Simulation {
    const transport: SimTransport
    const snapshots: SnapshotCoordinator
    var processes: map<Pid, Local>
    /** The processes in the order they were spawned. */
    var order: seq<Pid>

    constructor ()
      ensures View() == Start([]) && order == [] && Wired() && fresh(transport) && fresh(snapshots)
    {
      transport := new SimTransport();
      snapshots := new SnapshotCoordinator();
      processes, order := map[], [];
    }

    ghost function View(): Sys
      reads this, transport, snapshots
    {
      Sys(processes, transport.channels, snapshots.View(), snapshots.markers)
    }

    /** The coordinator knows exactly the processes there are. */
    predicate Wired()
      reads this, snapshots
    {
      processes.Keys == snapshots.procs.Keys == Members(order) && NoRepeat(order)
    }

    method SpawnProcess(p: Pid) returns (ok: bool)
      requires Wired()
      modifies this, transport, snapshots
      ensures Wired()
      ensures ok == (p.name != "" && |p.name| <= MAX_ID_LENGTH && p !in old(processes)
                     && |old(processes)| < MAX_PROCESSES)
      ensures if ok then View() == Joined(old(View()), p, old(order)) && order == old(order) + [p]
              else View() == old(View()) && order == old(order)
    {
      if p.name == "" || |p.name| > MAX_ID_LENGTH || p in processes || |processes| >= MAX_PROCESSES {
        return false;
      }
      Join(p, order);
      order := order + [p];
      MembersOfOneMore(old(order), p);
      NoRepeatOneMore(old(order), p);
      ok := true;
    }

    method Join(p: Pid, others: seq<Pid>)
      requires p !in others
      modifies this`processes, transport, snapshots
      ensures View() == Joined(old(View()), p, others)
      ensures processes.Keys == old(processes).Keys + {p}
      ensures snapshots.procs.Keys == old(snapshots.procs).Keys + {p}
    {
      var clock := New(others + [p]);
      processes := processes[p := Local(clock, 0, map[], map[])];
      Link(p, others);
      snapshots.RegisterProcess(p, others);
      assert snapshots.procs == Registered(old(snapshots.View()), p, others).procs;
    }

    method Link(p: Pid, others: seq<Pid>)
      modifies transport
      ensures transport.channels == Linked(old(transport.channels), p, others)
    {
      for i := 0 to |others|
        invariant transport.channels == Linked(old(transport.channels), p, others[..i])
      {
        transport.RegisterChannel(p, others[i]);
        transport.RegisterChannel(others[i], p);
        assert others[..i + 1][..i] == others[..i];
      }
      assert others[..|others|] == others;
    }

    method InternalEvent(p: Pid) returns (ok: bool)
      modifies this`processes
      ensures ok == (p in old(processes)) && View() == Do(old(View()), Compute(p))
    {
      if p !in processes {
        return false;
      }
      var clock := VectorClock.Tick(processes[p].clock, p);
      processes := processes[p := processes[p].(clock := clock)];
      ok := true;
    }

    /** The process ticks before the transport is asked: without a channel the event stays and the message
        is gone. */
    method SendMessage(from: Pid, to: Pid) returns (ok: bool)
      modifies this`processes, transport
      ensures ok == (from in old(processes) && ChannelKey(from, to) in old(transport.channels))
      ensures ok || from !in old(processes) ==> View() == Do(old(View()), SysStep.SendMessage(from, to))
      ensures !ok && from in old(processes) ==>
                View() == old(View()).(locals := old(processes)[from := Unsent(old(processes)[from], from)])
    {
      if from !in processes {
        return false;
      }
      var l := processes[from];
      var local, stamp := VectorClock.Send(l.clock, from);
      var m := App(l.messageSeq + 1, from, to, stamp);
      ok := transport.Send(from, to, Message(m));
      l := l.(clock := local, messageSeq := l.messageSeq + 1);
      if ok {
        l := l.(sent := l.sent[to := SentTo(l, to) + [m]]);
      }
      processes := processes[from := l];
    }

    /** The marker callback: the markers the coordinator has just issued go out on their channels. */
    method PutMarkers(p: Pid, peers: seq<Pid>, sid: Sid)
      modifies transport
      ensures transport.channels == Broadcast(old(transport.channels), p, peers, sid)
    {
      for i := 0 to |peers|
        invariant Broadcast(transport.channels, p, peers[i..], sid) == Broadcast(old(transport.channels), p, peers, sid)
      {
        var _ := transport.Send(p, peers[i], Marker(sid));
      }
    }

    method TriggerSnapshot(p: Pid, sid: Sid) returns (ok: bool)
      requires Wired() && sid !in snapshots.snapshots
      modifies transport, snapshots
      ensures Wired() && ok == (p in processes)
      ensures View() == Do(old(View()), Initiate(p, sid))
    {
      if p !in processes {
        return false;
      }
      var peers := snapshots.procs[p].peers;
      ok := snapshots.Initiate(p, sid, processes[p]);
      PutMarkers(p, peers, sid);
    }

    /** A channel hands over its head: a message is recorded and then delivered, a marker goes to the
        coordinator with the state of that moment. */
    method Forward(from: Pid, p: Pid)
      requires Wired() && p in processes
      requires ChannelKey(from, p) in transport.channels && transport.channels[ChannelKey(from, p)] != []
      modifies this`processes, transport, snapshots
      ensures Wired()
      ensures View() == Do(old(View()), Arrive(from, p))
    {
      hide MarkerHandled, MessageSeen, LocalReceive, MarkersTo, Broadcast, MarkerForwards;
      var item := transport.Forward(ChannelKey(from, p));
      match item
      case Message(m) => DeliverMessage(from, p, m);
      case Marker(sid) => HandleMarker(from, p, sid);
    }

    method DeliverMessage(from: Pid, p: Pid, m: App)
      requires p in processes
      modifies this`processes, snapshots
      ensures processes == old(processes)[p := LocalReceive(old(processes)[p], p, from, m)]
      ensures snapshots.procs.Keys == old(snapshots.procs).Keys
      ensures snapshots.View() == MessageSeen(old(snapshots.View()), p, from, m)
      ensures snapshots.markers == old(snapshots.markers)
    {
      snapshots.RecordForActive(p, from, m);
      var l := processes[p];
      var clock := VectorClock.Receive(l.clock, m.stamp, p);
      processes := processes[p := l.(clock := clock, received := l.received[from := ReceivedFrom(l, from) + [m]])];
    }

    method HandleMarker(from: Pid, p: Pid, sid: Sid)
      requires p in processes && p in snapshots.procs
      modifies transport, snapshots
      ensures snapshots.View() == MarkerHandled(old(snapshots.View()), p, from, sid, processes[p])
      ensures snapshots.procs.Keys == old(snapshots.procs).Keys
      ensures var forwards := MarkerForwards(old(snapshots.View()), p, sid);
              && snapshots.markers == old(snapshots.markers) + MarkersTo(p, forwards, sid)
              && transport.channels == Broadcast(old(transport.channels), p, forwards, sid)
    {
      var ps := snapshots.procs[p];
      var forwards := if sid !in ps.parts || ps.parts[sid].role == NotParticipating then ps.peers else [];
      snapshots.OnMarkerReceived(p, from, sid, processes[p]);
      PutMarkers(p, forwards, sid);
    }
  }

  // ---- Spawning ends in the starting state of a run ----

  lemma {:induction false} LinkedAt(ch: map<ChannelKey, seq<Item>>, p: Pid, others: seq<Pid>, key: ChannelKey)
    ensures key in Linked(ch, p, others) <==>
              key in ch || (key.from == p && key.to in others) || (key.to == p && key.from in others)
    ensures key in Linked(ch, p, others) ==> Linked(ch, p, others)[key] == if key in ch then ch[key] else []
  {
    if others != [] {
      LinkedAt(ch, p, others[..|others| - 1], key);
      assert others == others[..|others| - 1] + [others[|others| - 1]];
    }
  }

  lemma MembersOfOneMore(pids: seq<Pid>, p: Pid)
    ensures Members(pids + [p]) == Members(pids) + {p}
    ensures (pids + [p])[..|pids|] == pids
  {}

  lemma NoRepeatOneMore(pids: seq<Pid>, p: Pid)
    requires NoRepeat(pids) && p !in pids
    ensures NoRepeat(pids + [p])
  {}

  lemma LinkedStart(pids: seq<Pid>, p: Pid)
    requires p !in pids
    ensures Linked(EmptyChannels(Members(pids)), p, pids) == EmptyChannels(Members(pids + [p]))
  {
    var a, b := Linked(EmptyChannels(Members(pids)), p, pids), EmptyChannels(Members(pids + [p]));
    MembersOfOneMore(pids, p);
    forall key ensures key in a <==> key in b { LinkedAt(EmptyChannels(Members(pids)), p, pids, key); }
    forall key | key in a ensures a[key] == b[key] { LinkedAt(EmptyChannels(Members(pids)), p, pids, key); }
  }

  /** Spawning one more process before the first step is starting with one more. */
  lemma SpawnedOneMore(pids: seq<Pid>, p: Pid)
    requires p !in pids
    ensures Joined(Start(pids), p, pids) == Start(pids + [p])
  {
    MembersOfOneMore(pids, p);
    LinkedStart(pids, p);
  }
}
