/** A process: its clock, its event log and its hold-back queue, updated in place. */
module Processes {
  import VectorClock
  import MatrixClock
  import opened HoldBack

  type Pid = VectorClock.Pid
  type Clock = VectorClock.Clock
  type Matrix = MatrixClock.Matrix

  /** A process whose clock type is none of the three keeps no clock. */
  datatype ClockType = LamportTime | VectorTime | MatrixTime | OtherTime

  datatype DeliveryMode = ImmediateDelivery | CausalDelivery | TotalOrderDelivery | OtherDelivery

  datatype EventKind = SpawnedEvent | SendEvent | ReceiveEvent | InternalEvent | HeldEvent | DeliveredEvent |
                       MarkerReceivedEvent

  /** The clocks of a process, or the stamps of a message: the ones its clock type does not use are empty. */
  datatype Clocks = Clocks(lamport: nat, vector: Clock, matrix: Matrix)

  /** A published event: the clocks are those of the moment of publication. */
  datatype Emitted = Emitted(kind: EventKind, localSeq: nat, clocks: Clocks, messageId: nat)

  datatype Packet =
    | Application(message: Message, sentLC: nat, sentMatrix: Matrix)
    | SnapshotMarker(id: nat, from: Pid, snapshot: nat)

  /** The state handed to the marker callback. */
  datatype Captured = Captured(clocks: Clocks, eventCount: nat, heldMessages: nat)

  datatype MarkerCall = MarkerCall(from: Pid, snapshot: nat, state: Captured)

  const NO_CLOCKS := Clocks(0, map[], map[])

  function NewClocks(t: ClockType, pids: set<Pid>): Clocks {
    match t
    case VectorTime => NO_CLOCKS.(vector := VectorClock.Zero(pids))
    case MatrixTime => NO_CLOCKS.(matrix := MatrixClock.ZeroMatrix(pids))
    case _ => NO_CLOCKS
  }

  function TickedClocks(t: ClockType, c: Clocks, self: Pid): Clocks {
    match t
    case LamportTime => c.(lamport := c.lamport + 1)
    case VectorTime => c.(vector := VectorClock.Ticked(c.vector, self))
    case MatrixTime => c.(matrix := MatrixClock.TickedMatrix(c.matrix, self))
    case OtherTime => c
  }

  /** What a message carries of its sender's clocks. */
  function StampOf(t: ClockType, c: Clocks): Clocks {
    match t
    case LamportTime => NO_CLOCKS.(lamport := c.lamport)
    case VectorTime => NO_CLOCKS.(vector := c.vector)
    case MatrixTime => NO_CLOCKS.(matrix := c.matrix)
    case OtherTime => NO_CLOCKS
  }

  function ReceivedClocks(t: ClockType, c: Clocks, stamp: Clocks, self: Pid, from: Pid): Clocks {
    match t
    case LamportTime => c.(lamport := VectorClock.Max(c.lamport, stamp.lamport) + 1)
    case VectorTime => c.(vector := VectorClock.Received(c.vector, stamp.vector, self))
    case MatrixTime => c.(matrix := MatrixClock.ReceivedMatrix(c.matrix, stamp.matrix, self, from))
    case OtherTime => c
  }

  function CarriedBy(packet: Packet): Clocks
    requires packet.Application?
  {
    Clocks(packet.sentLC, packet.message.sentVC, packet.sentMatrix)
  }

  /** The events published for a drained list: all carry the clock left by the whole drain. */
  function DeliveredEvents(hs: seq<Held>, localSeq: nat, clocks: Clocks): seq<Emitted> {
    if hs == [] then []
    else [Emitted(DeliveredEvent, localSeq + 1, clocks, hs[0].msg.id)] + DeliveredEvents(hs[1..], localSeq + 1, clocks)
  }

  /** The event log after an arrival: the receive event carries the clock of that one receive. */
  function CausalEvents(log: seq<Emitted>, clocks: Clocks, held: seq<Held>, m: Message, self: Pid, localSeq: nat)
    : seq<Emitted>
  {
    var o := Arrive(clocks.vector, held, m, self);
    if !o.accepted then log + [Emitted(HeldEvent, localSeq + 1, clocks, m.id)]
    else
      var received := clocks.(vector := VectorClock.Received(clocks.vector, m.sentVC, self));
      (log + [Emitted(ReceiveEvent, localSeq + 1, received, m.id)])
      + DeliveredEvents(o.released, localSeq + 1, clocks.(vector := o.clock))
  }

  lemma PublishNext(log: seq<Emitted>, hs: seq<Held>, localSeq: nat, clocks: Clocks)
    requires hs != []
    ensures log + DeliveredEvents(hs, localSeq, clocks)
            == (log + [Emitted(DeliveredEvent, localSeq + 1, clocks, hs[0].msg.id)])
               + DeliveredEvents(hs[1..], localSeq + 1, clocks)
  {}

  /** The numbers of a log: one after the other from 1. */
  predicate InOrder(log: seq<Emitted>, localSeq: nat) {
    localSeq == |log| && forall k :: 0 <= k < |log| ==> log[k].localSeq == k + 1
  }

  lemma {:induction false} DeliveredInOrder(log: seq<Emitted>, hs: seq<Held>, localSeq: nat, clocks: Clocks)
    requires InOrder(log, localSeq)
    ensures InOrder(log + DeliveredEvents(hs, localSeq, clocks), localSeq + |hs|)
    decreases |hs|
  {
    if hs != [] {
      PublishNext(log, hs, localSeq, clocks);
      DeliveredInOrder(log + [Emitted(DeliveredEvent, localSeq + 1, clocks, hs[0].msg.id)], hs[1..], localSeq + 1,
                       clocks);
    } else {
      assert log + DeliveredEvents(hs, localSeq, clocks) == log;
    }
  }

  lemma CausalInOrder(log: seq<Emitted>, clocks: Clocks, held: seq<Held>, m: Message, self: Pid, localSeq: nat)
    ensures var o := Arrive(clocks.vector, held, m, self);
            InOrder(log, localSeq) ==>
              InOrder(CausalEvents(log, clocks, held, m, self, localSeq), localSeq + 1 + |o.released|)
  {
    var o := Arrive(clocks.vector, held, m, self);
    if InOrder(log, localSeq) && o.accepted {
      var received := clocks.(vector := VectorClock.Received(clocks.vector, m.sentVC, self));
      DeliveredInOrder(log + [Emitted(ReceiveEvent, localSeq + 1, received, m.id)], o.released, localSeq + 1,
                       clocks.(vector := o.clock));
    }
  }

  /** `outbox` logs the messages handed to the transport, `markerCalls` the calls of the marker callback. */
  class Process {
    const id: Pid
    const clockType: ClockType
    const queue: HoldBackQueue
    var mode: DeliveryMode
    var clocks: Clocks
    var messageSeq: nat
    var localSeq: nat
    var events: seq<Emitted>
    var onMarkerSet: bool
    var outbox: seq<Packet>
    var markerCalls: seq<MarkerCall>

    constructor (id: Pid, clockType: ClockType, mode: DeliveryMode, pids: seq<Pid>)
      ensures this.id == id && this.clockType == clockType && this.mode == mode && fresh(queue)
      ensures clocks == NewClocks(clockType, set p | p in pids)
      ensures clocks.lamport == 0
      ensures clocks.vector == if clockType.VectorTime? then map p | p in pids :: 0 else map[]
      ensures clocks.matrix == if clockType.MatrixTime? then MatrixClock.ZeroMatrix(set p | p in pids) else map[]
      ensures queue.pending == [] && messageSeq == localSeq == 0 && events == []
      ensures outbox == [] && markerCalls == [] && !onMarkerSet
    {
      this.id, this.clockType, this.mode := id, clockType, mode;
      clocks := NewClocks(clockType, set p | p in pids);
      messageSeq, localSeq, events := 0, 0, [];
      outbox, markerCalls, onMarkerSet := [], [], false;
      queue := new HoldBackQueue();
    }

    method Emit(kind: EventKind, messageId: nat)
      modifies this`localSeq, this`events
      ensures localSeq == old(localSeq) + 1
      ensures events == old(events) + [Emitted(kind, localSeq, clocks, messageId)]
    {
      localSeq := localSeq + 1;
      events := events + [Emitted(kind, localSeq, clocks, messageId)];
    }

    /** The spawn event takes the first number; no clock has ticked yet. */
    method Start()
      modifies this`localSeq, this`events
      ensures localSeq == old(localSeq) + 1
      ensures events == old(events) + [Emitted(SpawnedEvent, localSeq, clocks, 0)]
    {
      Emit(SpawnedEvent, 0);
    }

    method TickClock()
      modifies this`clocks
      ensures clocks == TickedClocks(clockType, old(clocks), id)
    {
      match clockType
      case LamportTime => clocks := clocks.(lamport := clocks.lamport + 1);
      case VectorTime =>
        var vector := VectorClock.Tick(clocks.vector, id);
        clocks := clocks.(vector := vector);
      case MatrixTime =>
        var matrix := MatrixClock.Tick(clocks.matrix, id);
        clocks := clocks.(matrix := matrix);
      case OtherTime =>
    }

    method Internal()
      modifies this`clocks, this`localSeq, this`events
      ensures clocks == TickedClocks(clockType, old(clocks), id)
      ensures localSeq == old(localSeq) + 1
      ensures events == old(events) + [Emitted(InternalEvent, localSeq, clocks, 0)]
    {
      TickClock();
      Emit(InternalEvent, 0);
    }

    method SendClock() returns (stamp: Clocks)
      modifies this`clocks
      ensures clocks == TickedClocks(clockType, old(clocks), id)
      ensures stamp == StampOf(clockType, clocks)
    {
      stamp := NO_CLOCKS;
      match clockType
      case LamportTime =>
        clocks := clocks.(lamport := clocks.lamport + 1);
        stamp := stamp.(lamport := clocks.lamport);
      case VectorTime =>
        var vector, sent := VectorClock.Send(clocks.vector, id);
        clocks, stamp := clocks.(vector := vector), stamp.(vector := sent);
      case MatrixTime =>
        var matrix, sent := MatrixClock.Send(clocks.matrix, id);
        clocks, stamp := clocks.(matrix := matrix), stamp.(matrix := sent);
      case OtherTime =>
    }

    /** The stamp is the clock after the tick: the send is its own event. */
    method Send(to: Pid)
      modifies this`clocks, this`localSeq, this`events, this`messageSeq, this`outbox
      ensures messageSeq == old(messageSeq) + 1
      ensures clocks == TickedClocks(clockType, old(clocks), id)
      ensures var stamp := StampOf(clockType, clocks);
              outbox == old(outbox)
                        + [Application(Message(messageSeq, id, to, stamp.vector), stamp.lamport, stamp.matrix)]
      ensures localSeq == old(localSeq) + 1
      ensures events == old(events) + [Emitted(SendEvent, localSeq, clocks, messageSeq)]
    {
      messageSeq := messageSeq + 1;
      var stamp := SendClock();
      var packet := Application(Message(messageSeq, id, to, stamp.vector), stamp.lamport, stamp.matrix);
      Emit(SendEvent, messageSeq);
      outbox := outbox + [packet];
    }

    method ReceiveClock(packet: Packet)
      requires packet.Application?
      modifies this`clocks
      ensures clocks == ReceivedClocks(clockType, old(clocks), CarriedBy(packet), id, packet.message.from)
    {
      match clockType
      case LamportTime =>
        if packet.sentLC > clocks.lamport {
          clocks := clocks.(lamport := packet.sentLC);
        }
        clocks := clocks.(lamport := clocks.lamport + 1);
      case VectorTime =>
        var vector := VectorClock.Receive(clocks.vector, packet.message.sentVC, id);
        clocks := clocks.(vector := vector);
      case MatrixTime =>
        var matrix := MatrixClock.Receive(clocks.matrix, packet.sentMatrix, id, packet.message.from);
        clocks := clocks.(matrix := matrix);
      case OtherTime =>
    }

    method DeliverImmediate(packet: Packet)
      requires packet.Application?
      modifies this`clocks, this`localSeq, this`events
      ensures clocks == ReceivedClocks(clockType, old(clocks), CarriedBy(packet), id, packet.message.from)
      ensures localSeq == old(localSeq) + 1
      ensures events == old(events) + [Emitted(ReceiveEvent, localSeq, clocks, packet.message.id)]
    {
      ReceiveClock(packet);
      Emit(ReceiveEvent, packet.message.id);
    }

    /** Delivers the message and whatever it releases, or holds it. The vector clock is used whatever the
        clock type. */
    method DeliverCausal(m: Message)
      modifies this`clocks, this`localSeq, this`events, queue
      ensures var o := Arrive(old(clocks).vector, old(queue.pending), m, id);
              clocks == old(clocks).(vector := o.clock) && queue.pending == o.queue
      ensures events == CausalEvents(old(events), old(clocks), old(queue.pending), m, id, old(localSeq))
      ensures localSeq == old(localSeq) + 1 + |Arrive(old(clocks).vector, old(queue.pending), m, id).released|
    {
      var ok := CheckDeliverable(m.sentVC, m.from, clocks.vector);
      if ok {
        DeliverNow(m);
      } else {
        queue.Enqueue(m, m.sentVC);
        Emit(HeldEvent, m.id);
      }
    }

    method DeliverNow(m: Message)
      requires CanDeliver(m.sentVC, m.from, clocks.vector)
      modifies this`clocks, this`localSeq, this`events, queue
      ensures var o := Arrive(old(clocks).vector, old(queue.pending), m, id);
              clocks == old(clocks).(vector := o.clock) && queue.pending == o.queue
      ensures events == CausalEvents(old(events), old(clocks), old(queue.pending), m, id, old(localSeq))
      ensures localSeq == old(localSeq) + 1 + |Arrive(old(clocks).vector, old(queue.pending), m, id).released|
    {
      var vector := VectorClock.Receive(clocks.vector, m.sentVC, id);
      clocks := clocks.(vector := vector);
      Emit(ReceiveEvent, m.id);
      ghost var d := Drain(queue.pending, vector, id);
      var delivered;
      delivered, vector := queue.TryDeliver(clocks.vector, id);
      clocks := clocks.(vector := vector);
      PublishDelivered(delivered, d.delivered);
    }

    method PublishDelivered(delivered: seq<Message>, ghost hs: seq<Held>)
      requires AreMessages(delivered, hs)
      modifies this`localSeq, this`events
      ensures localSeq == old(localSeq) + |hs|
      ensures events == old(events) + DeliveredEvents(hs, old(localSeq), clocks)
    {
      var i := 0;
      while i < |delivered|
        invariant i <= |delivered| && localSeq == old(localSeq) + i
        invariant events + DeliveredEvents(hs[i..], localSeq, clocks)
                  == old(events) + DeliveredEvents(hs, old(localSeq), clocks)
      {
        PublishNext(events, hs[i..], localSeq, clocks);
        assert hs[i..][1..] == hs[i + 1..];
        Emit(DeliveredEvent, delivered[i].id);
        i := i + 1;
      }
    }

    /** The callback gets the state of the moment the marker is taken up, before its event is numbered. */
    method HandleMarker(packet: Packet)
      requires packet.SnapshotMarker?
      modifies this`localSeq, this`events, this`markerCalls
      ensures markerCalls == old(markerCalls)
                + if onMarkerSet
                  then [MarkerCall(packet.from, packet.snapshot, Captured(clocks, old(localSeq), |queue.pending|))]
                  else []
      ensures localSeq == old(localSeq) + 1
      ensures events == old(events) + [Emitted(MarkerReceivedEvent, localSeq, clocks, packet.id)]
    {
      if onMarkerSet {
        var state := Captured(clocks, localSeq, |queue.pending|);
        markerCalls := markerCalls + [MarkerCall(packet.from, packet.snapshot, state)];
      }
      Emit(MarkerReceivedEvent, packet.id);
    }

    /** A marker is handled in any mode. Total-order delivery falls back to causal delivery, an unknown mode to
        immediate delivery. */
    method HandleMessage(packet: Packet)
      modifies this`clocks, this`localSeq, this`events, this`markerCalls, queue
      ensures packet.SnapshotMarker? ==>
                && clocks == old(clocks) && queue.pending == old(queue.pending)
                && markerCalls == old(markerCalls)
                     + (if onMarkerSet
                        then [MarkerCall(packet.from, packet.snapshot,
                                         Captured(clocks, old(localSeq), |queue.pending|))]
                        else [])
                && events == old(events) + [Emitted(MarkerReceivedEvent, old(localSeq) + 1, clocks, packet.id)]
      ensures packet.Application? ==> markerCalls == old(markerCalls)
      ensures packet.Application? && (mode.ImmediateDelivery? || mode.OtherDelivery?) ==>
                && clocks == ReceivedClocks(clockType, old(clocks), CarriedBy(packet), id, packet.message.from)
                && queue.pending == old(queue.pending)
                && events == old(events) + [Emitted(ReceiveEvent, old(localSeq) + 1, clocks, packet.message.id)]
      ensures packet.Application? && (mode.CausalDelivery? || mode.TotalOrderDelivery?) ==>
                var o := Arrive(old(clocks).vector, old(queue.pending), packet.message, id);
                && clocks == old(clocks).(vector := o.clock) && queue.pending == o.queue
                && events == CausalEvents(old(events), old(clocks), old(queue.pending), packet.message, id,
                                          old(localSeq))
      ensures old(InOrder(events, localSeq)) ==> InOrder(events, localSeq)
    {
      if packet.SnapshotMarker? {
        HandleMarker(packet);
        return;
      }
      CausalInOrder(events, clocks, queue.pending, packet.message, id, localSeq);
      match mode
      case ImmediateDelivery => DeliverImmediate(packet);
      case CausalDelivery => DeliverCausal(packet.message);
      case TotalOrderDelivery => DeliverCausal(packet.message);
      case OtherDelivery => DeliverImmediate(packet);
    }
  }
}
