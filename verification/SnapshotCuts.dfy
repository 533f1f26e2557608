/** What a snapshot records is a reachable state.

    `CutState` is the global state a snapshot is about: each process at its recorded state, or where it is
    now if it has not recorded yet; each channel with what has been recorded plus what is still ahead of
    the marker. Every step of the real run is either a step of the cut state, taken by a process that has
    not recorded yet, or leaves it alone. So the cut state is always the outcome of a legal execution of
    the pre-cut steps; and since steps of different processes commute, the post-cut steps lead from it to
    the state actually reached. When the snapshot is complete, the cut state is what it recorded.
 */
module SnapshotCuts {
  import opened VectorClock
  import opened Snapshots
  import opened FifoRuns
  import opened SnapshotRuns

  // ---- The observed state and the cut state ----

  function AppsOf(q: seq<Item>): seq<App> {
    if q == [] then [] else (if q[0].Message? then [q[0].app] else []) + AppsOf(q[1..])
  }

  /** The messages ahead of the snapshot's marker; all of them if the marker is not there. */
  function Ahead(q: seq<Item>, sid: Sid): seq<App> {
    if q == [] || q[0] == Marker(sid) then []
    else (if q[0].Message? then [q[0].app] else []) + Ahead(q[1..], sid)
  }

  function RecordedOn(pj: MaybePart, i: Pid): seq<App> {
    if pj.HasPart? && i in pj.part.channels then pj.part.channels[i].messages else []
  }

  function CutLocal(pi: MaybePart, now: Local): Local {
    if pi.HasPart? then pi.part.local else now
  }

  function CutQueue(pj: MaybePart, i: Pid, q: seq<Item>, sid: Sid): seq<App> {
    RecordedOn(pj, i) + if Closed(pj, i) then [] else Ahead(q, sid)
  }

  function CutState(s: Sys, sid: Sid): Base {
    Base(map p | p in s.locals :: CutLocal(PartOf(s.coord, p, sid), s.locals[p]),
         map key | key in s.channels :: CutQueue(PartOf(s.coord, key.to, sid), key.from, s.channels[key], sid))
  }

  function Observed(s: Sys): Base {
    Base(s.locals, map key | key in s.channels :: AppsOf(s.channels[key]))
  }

  /** The step of the computation a system step performs, if any: markers are invisible to it. */
  function Visible(s: Sys, e: SysStep): seq<BaseStep> {
    if !Possible(s, e) then []
    else
      match e
      case Compute(p) => [Tick(p)]
      case SendMessage(p, to) => [Send(p, to)]
      case Initiate(_, _) => []
      case Arrive(from, p) => if s.channels[ChannelKey(from, p)][0].Message? then [Receive(from, p)] else []
  }

  predicate PreCut(s: Sys, e: SysStep, sid: Sid) {
    PartOf(s.coord, e.p, sid) == NoPart
  }

  lemma {:induction false} AppsAppend(q: seq<Item>, x: Item)
    ensures AppsOf(q + [x]) == AppsOf(q) + if x.Message? then [x.app] else []
  {
    if q == [] {
      assert q + [x] == [x] && [x][1..] == [];
    } else {
      AppsAppend(q[1..], x);
      assert (q + [x])[1..] == q[1..] + [x];
    }
  }

  lemma {:induction false} AheadAppend(q: seq<Item>, x: Item, sid: Sid)
    ensures Ahead(q + [x], sid) ==
            Ahead(q, sid) + if MarkerCount(q, sid) == 0 && x.Message? then [x.app] else []
  {
    if q == [] {
      assert q + [x] == [x] && [x][1..] == [];
    } else {
      assert (q + [x])[1..] == q[1..] + [x];
      if q[0] != Marker(sid) {
        AheadAppend(q[1..], x, sid);
      }
    }
  }

  lemma AppsBroadcast(key: ChannelKey, q: seq<Item>, p: Pid, peers: seq<Pid>, t: Sid)
    ensures AppsOf(q + MarkerTo(key, p, peers, t)) == AppsOf(q)
    ensures forall sid :: Ahead(q + MarkerTo(key, p, peers, t), sid) == Ahead(q, sid)
  {
    if key.from == p && key.to in peers {
      AppsAppend(q, Marker(t));
      forall sid ensures Ahead(q + MarkerTo(key, p, peers, t), sid) == Ahead(q, sid) {
        AheadAppend(q, Marker(t), sid);
      }
    } else {
      assert q + MarkerTo(key, p, peers, t) == q;
    }
  }

  lemma BroadcastApps(ch: map<ChannelKey, seq<Item>>, p: Pid, peers: seq<Pid>, t: Sid)
    requires NoRepeat(peers)
    ensures var ch' := Broadcast(ch, p, peers, t);
            && ch'.Keys == ch.Keys
            && (forall key :: key in ch ==> AppsOf(ch'[key]) == AppsOf(ch[key]))
            && (forall key, sid :: key in ch ==> Ahead(ch'[key], sid) == Ahead(ch[key], sid))
  {
    BroadcastAt(ch, p, peers, t);
    forall key | key in ch
      ensures AppsOf(Broadcast(ch, p, peers, t)[key]) == AppsOf(ch[key])
      ensures forall sid :: Ahead(Broadcast(ch, p, peers, t)[key], sid) == Ahead(ch[key], sid)
    {
      AppsBroadcast(key, ch[key], p, peers, t);
    }
  }

  // ---- Markers are invisible to the computation ----

  lemma ObservedSend(s: Sys, p: Pid, to: Pid)
    requires Possible(s, SendMessage(p, to))
    ensures Enabled(Observed(s), Send(p, to))
    ensures Observed(Do(s, SendMessage(p, to))) == Apply(Observed(s), Send(p, to))
  {
    var key := ChannelKey(p, to);
    var m := NextMessage(s.locals[p], p, to);
    AppsAppend(s.channels[key], Message(m));
    assert Observed(Do(s, SendMessage(p, to))).queues == Observed(s).queues[key := AppsOf(s.channels[key]) + [m]];
  }

  lemma ObservedDelivery(s: Sys, from: Pid, p: Pid, m: App)
    requires Possible(s, Arrive(from, p)) && s.channels[ChannelKey(from, p)][0] == Message(m)
    ensures Enabled(Observed(s), Receive(from, p))
    ensures Observed(DoDeliver(s, from, p, m)) == Apply(Observed(s), Receive(from, p))
  {}

  lemma ObservedBroadcast(s: Sys, s': Sys, p: Pid, peers: seq<Pid>, t: Sid, ch: map<ChannelKey, seq<Item>>)
    requires NoRepeat(peers) && s'.locals == s.locals && s'.channels == Broadcast(ch, p, peers, t)
    requires ch.Keys == s.channels.Keys
    requires forall key :: key in ch ==> AppsOf(ch[key]) == AppsOf(s.channels[key])
    ensures Observed(s') == Observed(s)
  {
    BroadcastApps(ch, p, peers, t);
    assert Observed(s').queues == Observed(s).queues;
  }

  lemma ExecOne(b: Base, e: BaseStep)
    ensures Exec(b, [e]) == Apply(b, e) && (Legal(b, [e]) <==> Enabled(b, e))
  {}

  /** The observed state follows the visible step. */
  lemma ObservedStep(pids: set<Pid>, s: Sys, e: SysStep)
    requires SysMesh(pids, s)
    ensures Legal(Observed(s), Visible(s, e))
    ensures Observed(Do(s, e)) == Exec(Observed(s), Visible(s, e))
  {
    if Visible(s, e) != [] { ExecOne(Observed(s), Visible(s, e)[0]); }
    if Possible(s, e) {
      match e
      case Compute(p) => ObservedTick(s, p);
      case SendMessage(p, to) => ObservedSend(s, p, to);
      case Initiate(p, sid) =>
        ObservedBroadcast(s, DoInitiate(s, p, sid), p, s.coord.procs[p].peers, sid, s.channels);
      case Arrive(from, p) =>
        match s.channels[ChannelKey(from, p)][0]
        case Message(m) => ObservedDelivery(s, from, p, m);
        case Marker(sid) => ObservedMarker(s, from, p, sid);
    }
  }

  lemma ObservedTick(s: Sys, p: Pid)
    requires p in s.locals
    ensures Observed(Do(s, Compute(p))) == Apply(Observed(s), Tick(p))
  {
    assert Observed(Do(s, Compute(p))).queues == Observed(s).queues;
  }

  lemma ObservedMarker(s: Sys, from: Pid, p: Pid, sid: Sid)
    requires Possible(s, Arrive(from, p)) && s.channels[ChannelKey(from, p)][0] == Marker(sid)
    requires NoRepeat(s.coord.procs[p].peers)
    ensures Observed(DoMarker(s, from, p, sid)) == Observed(s)
  {
    var key := ChannelKey(from, p);
    var popped := s.channels[key := s.channels[key][1..]];
    ObservedBroadcast(s, DoMarker(s, from, p, sid), p, MarkerForwards(s.coord, p, sid), sid, popped);
  }

  // ---- The cut state follows the pre-cut steps and nothing else ----

  /** A message sent on a channel joins the cut state exactly if its sender has not recorded. */
  lemma SentQueue(pi: MaybePart, pj: MaybePart, i: Pid, q: seq<Item>, m: App, sid: Sid)
    requires ChannelOk(sid, i, pi, pj, q)
    ensures pi == NoPart ==> CutQueue(pj, i, q + [Message(m)], sid) == CutQueue(pj, i, q, sid) + [m]
    ensures pi.HasPart? ==> CutQueue(pj, i, q + [Message(m)], sid) == CutQueue(pj, i, q, sid)
  {
    AheadAppend(q, Message(m), sid);
    if pi.HasPart? {
      assert Ahead(q, sid) + [] == Ahead(q, sid);
    } else {
      assert RecordedOn(pj, i) + (Ahead(q, sid) + [m]) == (RecordedOn(pj, i) + Ahead(q, sid)) + [m];
    }
  }

  lemma CutSendQueues(s: Sys, p: Pid, to: Pid, sid: Sid)
    requires Possible(s, SendMessage(p, to))
    requires var key := ChannelKey(p, to);
             ChannelOk(sid, p, PartOf(s.coord, p, sid), PartOf(s.coord, to, sid), s.channels[key])
    ensures var c, c' := CutState(s, sid), CutState(Do(s, SendMessage(p, to)), sid);
            var key, m := ChannelKey(p, to), NextMessage(s.locals[p], p, to);
            && c'.queues.Keys == c.queues.Keys
            && (forall k :: k in c.queues && k != key ==> c'.queues[k] == c.queues[k])
            && c'.queues[key] == if PartOf(s.coord, p, sid) == NoPart then c.queues[key] + [m] else c.queues[key]
  {
    SentQueue(PartOf(s.coord, p, sid), PartOf(s.coord, to, sid), p, s.channels[ChannelKey(p, to)],
              NextMessage(s.locals[p], p, to), sid);
  }

  lemma CutSendLocals(s: Sys, p: Pid, to: Pid, sid: Sid)
    requires Possible(s, SendMessage(p, to))
    ensures var c, c' := CutState(s, sid), CutState(Do(s, SendMessage(p, to)), sid);
            && c'.locals == (if PartOf(s.coord, p, sid) == NoPart then c.locals[p := LocalSend(c.locals[p], p, to)]
                             else c.locals)
            && (PartOf(s.coord, p, sid) == NoPart ==> c.locals[p] == s.locals[p])
  {}

  lemma CutSend(s: Sys, p: Pid, to: Pid, sid: Sid)
    requires Possible(s, SendMessage(p, to))
    requires var key := ChannelKey(p, to);
             ChannelOk(sid, p, PartOf(s.coord, p, sid), PartOf(s.coord, to, sid), s.channels[key])
    ensures var c, c' := CutState(s, sid), CutState(Do(s, SendMessage(p, to)), sid);
            if PartOf(s.coord, p, sid) == NoPart then Enabled(c, Send(p, to)) && c' == Apply(c, Send(p, to))
            else c' == c
  {
    var c, c' := CutState(s, sid), CutState(Do(s, SendMessage(p, to)), sid);
    CutSendQueues(s, p, to, sid);
    CutSendLocals(s, p, to, sid);
    SendOf(c, c', p, to, PartOf(s.coord, p, sid) == NoPart);
  }

  lemma SendOf(c: Base, c': Base, p: Pid, to: Pid, taken: bool)
    requires p in c.locals && ChannelKey(p, to) in c.queues && c'.queues.Keys == c.queues.Keys
    requires forall k :: k in c.queues && k != ChannelKey(p, to) ==> c'.queues[k] == c.queues[k]
    requires var key := ChannelKey(p, to);
             c'.queues[key] == if taken then c.queues[key] + [NextMessage(c.locals[p], p, to)] else c.queues[key]
    requires c'.locals == if taken then c.locals[p := LocalSend(c.locals[p], p, to)] else c.locals
    ensures if taken then Enabled(c, Send(p, to)) && c' == Apply(c, Send(p, to)) else c' == c
  {}

  lemma CutTick(s: Sys, p: Pid, sid: Sid)
    requires p in s.locals
    ensures var c, c' := CutState(s, sid), CutState(Do(s, Compute(p)), sid);
            if PartOf(s.coord, p, sid) == NoPart then Enabled(c, Tick(p)) && c' == Apply(c, Tick(p)) else c' == c
  {}

  /** The part of a process whose channel is open is active, so it records. */
  lemma OpenIsActive(peers: seq<Pid>, pj: MaybePart, i: Pid)
    requires PartOk(peers, pj) && i in peers && pj.HasPart? && !Closed(pj, i)
    ensures Active(pj.part) && i in pj.part.channels
  {}

  /** A message taken off a channel: part of the computation before the cut, recorded after it. */
  lemma TakenQueue(peers: seq<Pid>, pj: MaybePart, i: Pid, q: seq<Item>, m: App, sid: Sid)
    requires PartOk(peers, pj) && i in peers && q != [] && q[0] == Message(m)
    ensures pj == NoPart ==> CutQueue(pj, i, q, sid) == [m] + CutQueue(SeenPart(pj, i, m), i, q[1..], sid)
    ensures pj.HasPart? ==> CutQueue(pj, i, q, sid) == CutQueue(SeenPart(pj, i, m), i, q[1..], sid)
  {
    if pj.HasPart? && !Closed(pj, i) {
      OpenIsActive(peers, pj, i);
      var r := pj.part.channels[i].messages;
      assert r + ([m] + Ahead(q[1..], sid)) == (r + [m]) + Ahead(q[1..], sid);
    }
  }

  lemma OtherQueue(pj: MaybePart, i: Pid, from: Pid, m: App, q: seq<Item>, sid: Sid)
    requires i != from
    ensures CutQueue(SeenPart(pj, from, m), i, q, sid) == CutQueue(pj, i, q, sid)
  {}

  lemma DeliveredQueues(s: Sys, from: Pid, p: Pid, m: App, sid: Sid, key: ChannelKey)
    requires Possible(s, Arrive(from, p)) && s.channels[ChannelKey(from, p)][0] == Message(m)
    requires key in s.channels && key != ChannelKey(from, p)
    ensures var s' := DoDeliver(s, from, p, m);
            CutQueue(PartOf(s'.coord, key.to, sid), key.from, s'.channels[key], sid)
            == CutQueue(PartOf(s.coord, key.to, sid), key.from, s.channels[key], sid)
  {
    MessageView(s.coord, p, from, m);
    if key.to == p {
      OtherQueue(PartOf(s.coord, p, sid), key.from, from, m, s.channels[key], sid);
    }
  }

  /** The cut state after a delivery, channel by channel. */
  lemma CutDeliveryQueues(s: Sys, from: Pid, p: Pid, m: App, sid: Sid)
    requires Possible(s, Arrive(from, p)) && s.channels[ChannelKey(from, p)][0] == Message(m)
    requires PartOk(s.coord.procs[p].peers, PartOf(s.coord, p, sid)) && from in s.coord.procs[p].peers
    ensures var key, c, c' := ChannelKey(from, p), CutState(s, sid), CutState(DoDeliver(s, from, p, m), sid);
            && c'.queues.Keys == c.queues.Keys
            && (forall k :: k in c.queues && k != key ==> c'.queues[k] == c.queues[k])
            && c.queues[key] == (if PartOf(s.coord, p, sid) == NoPart then [m] + c'.queues[key] else c'.queues[key])
  {
    var key, s' := ChannelKey(from, p), DoDeliver(s, from, p, m);
    MessageView(s.coord, p, from, m);
    TakenQueue(s.coord.procs[p].peers, PartOf(s.coord, p, sid), from, s.channels[key], m, sid);
    forall k | k in s.channels && k != key
      ensures CutState(s', sid).queues[k] == CutState(s, sid).queues[k]
    {
      DeliveredQueues(s, from, p, m, sid, k);
    }
  }

  lemma CutDeliveryLocals(s: Sys, from: Pid, p: Pid, m: App, sid: Sid)
    requires Possible(s, Arrive(from, p))
    ensures var c, c' := CutState(s, sid), CutState(DoDeliver(s, from, p, m), sid);
            c'.locals == if PartOf(s.coord, p, sid) == NoPart
                         then c.locals[p := LocalReceive(c.locals[p], p, from, m)] else c.locals
  {}

  lemma CutDelivery(s: Sys, from: Pid, p: Pid, m: App, sid: Sid)
    requires Possible(s, Arrive(from, p)) && s.channels[ChannelKey(from, p)][0] == Message(m)
    requires PartOk(s.coord.procs[p].peers, PartOf(s.coord, p, sid)) && from in s.coord.procs[p].peers
    ensures var c, c' := CutState(s, sid), CutState(DoDeliver(s, from, p, m), sid);
            if PartOf(s.coord, p, sid) == NoPart then Enabled(c, Receive(from, p)) && c' == Apply(c, Receive(from, p))
            else c' == c
  {
    var key, c, c' := ChannelKey(from, p), CutState(s, sid), CutState(DoDeliver(s, from, p, m), sid);
    CutDeliveryQueues(s, from, p, m, sid);
    CutDeliveryLocals(s, from, p, m, sid);
    ReceiveOf(c, c', from, p, m, PartOf(s.coord, p, sid) == NoPart);
  }

  lemma ReceiveOf(c: Base, c': Base, from: Pid, p: Pid, m: App, taken: bool)
    requires p in c.locals && ChannelKey(from, p) in c.queues && c'.queues.Keys == c.queues.Keys
    requires forall k :: k in c.queues && k != ChannelKey(from, p) ==> c'.queues[k] == c.queues[k]
    requires var key := ChannelKey(from, p);
             c.queues[key] == if taken then [m] + c'.queues[key] else c'.queues[key]
    requires c'.locals == if taken then c.locals[p := LocalReceive(c.locals[p], p, from, m)] else c.locals
    ensures if taken then Enabled(c, Receive(from, p)) && c' == Apply(c, Receive(from, p)) else c' == c
  {}

  /** Two states with the same cut, process by process and channel by channel. */
  lemma SameCut(s: Sys, s': Sys, sid: Sid)
    requires s'.locals == s.locals && s'.channels.Keys == s.channels.Keys
    requires forall p :: p in s.locals ==>
               CutLocal(PartOf(s'.coord, p, sid), s.locals[p]) == CutLocal(PartOf(s.coord, p, sid), s.locals[p])
    requires forall key :: key in s.channels ==>
               CutQueue(PartOf(s'.coord, key.to, sid), key.from, s'.channels[key], sid)
               == CutQueue(PartOf(s.coord, key.to, sid), key.from, s.channels[key], sid)
    ensures CutState(s', sid) == CutState(s, sid)
  {}

  /** Initiating a snapshot, this one or another, leaves the cut state as it is. */
  lemma CutInitiate(s: Sys, p: Pid, t: Sid, sid: Sid)
    requires Possible(s, Initiate(p, t)) && NoRepeat(s.coord.procs[p].peers)
    requires t == sid ==> forall q :: PartOf(s.coord, q, sid) == NoPart
    ensures CutState(DoInitiate(s, p, t), sid) == CutState(s, sid)
  {
    var s' := DoInitiate(s, p, t);
    InitiateView(s.coord, p, t, s.locals[p]);
    BroadcastApps(s.channels, p, s.coord.procs[p].peers, t);
    SameCut(s, s', sid);
  }

  /** A marker changes what a process has recorded on no channel, and fixes its local state as it is. */
  lemma MarkedPartCut(prior: MaybePart, peers: seq<Pid>, from: Pid, captured: Local)
    requires !IsDone(prior) && PartOk(peers, prior)
    ensures var x := HasPart(MarkedPart(prior, peers, from, captured));
            && CutLocal(x, captured) == CutLocal(prior, captured)
            && forall i :: RecordedOn(x, i) == RecordedOn(prior, i)
  {
    hide AllFinal;
    var x := MarkedPart(prior, peers, from, captured);
    if prior.HasPart? {
      assert x.channels == LaterMarker(prior.part, from).channels;
    } else {
      var first := FirstMarker(Part(NotParticipating, captured, map[]), peers, from, captured);
      assert x.channels == first.channels;
    }
  }

  /** The marker's own channel: nothing was ahead of it, and nothing counts any more behind it. */
  lemma MarkerQueue(prior: MaybePart, x: MaybePart, from: Pid, q: seq<Item>, sid: Sid)
    requires q != [] && q[0] == Marker(sid) && RecordedOn(x, from) == RecordedOn(prior, from)
    requires Closed(x, from) && !Closed(prior, from)
    ensures CutQueue(x, from, q[1..], sid) == CutQueue(prior, from, q, sid)
  {}

  /** What lies ahead of this snapshot's marker, once a marker of `t` has been taken and forwarded. */
  lemma MarkerChannels(ch: map<ChannelKey, seq<Item>>, key: ChannelKey, p: Pid, forwards: seq<Pid>, t: Sid, sid: Sid)
    requires key in ch && ch[key] != [] && ch[key][0] == Marker(t) && NoRepeat(forwards)
    ensures var ch' := Broadcast(ch[key := ch[key][1..]], p, forwards, t);
            && ch'.Keys == ch.Keys
            && (forall k :: k in ch && k != key ==> Ahead(ch'[k], sid) == Ahead(ch[k], sid))
            && Ahead(ch'[key], sid) == Ahead(ch[key][1..], sid)
            && (t != sid ==> Ahead(ch'[key], sid) == Ahead(ch[key], sid))
  {
    BroadcastApps(ch[key := ch[key][1..]], p, forwards, t);
  }

  lemma OwnMarkerParts(c: Coordinator, from: Pid, p: Pid, sid: Sid, captured: Local)
    requires p in c.procs && PartOk(c.procs[p].peers, PartOf(c, p, sid)) && !IsDone(PartOf(c, p, sid))
    ensures var c', x := MarkerHandled(c, p, from, sid, captured),
                         HasPart(MarkedPart(PartOf(c, p, sid), c.procs[p].peers, from, captured));
            && (forall q :: PartOf(c', q, sid) == if q == p then x else PartOf(c, q, sid))
            && CutLocal(x, captured) == CutLocal(PartOf(c, p, sid), captured)
            && Closed(x, from)
            && forall i :: RecordedOn(x, i) == RecordedOn(PartOf(c, p, sid), i)
                           && (i != from ==> (Closed(x, i) <==> Closed(PartOf(c, p, sid), i)))
  {
    MarkerView(c, p, from, sid, captured);
    MarkedPartOk(PartOf(c, p, sid), c.procs[p].peers, from, captured);
    MarkedPartCut(PartOf(c, p, sid), c.procs[p].peers, from, captured);
  }

  lemma CutOwnMarker(s: Sys, from: Pid, p: Pid, sid: Sid)
    requires Possible(s, Arrive(from, p)) && s.channels[ChannelKey(from, p)][0] == Marker(sid)
    requires NoRepeat(s.coord.procs[p].peers) && PartOk(s.coord.procs[p].peers, PartOf(s.coord, p, sid))
    requires !IsDone(PartOf(s.coord, p, sid)) && !Closed(PartOf(s.coord, p, sid), from)
    ensures CutState(DoMarker(s, from, p, sid), sid) == CutState(s, sid)
  {
    var key, s' := ChannelKey(from, p), DoMarker(s, from, p, sid);
    var prior := PartOf(s.coord, p, sid);
    var x := HasPart(MarkedPart(prior, s.coord.procs[p].peers, from, s.locals[p]));
    OwnMarkerParts(s.coord, from, p, sid, s.locals[p]);
    MarkerChannels(s.channels, key, p, MarkerForwards(s.coord, p, sid), sid, sid);
    MarkerQueue(prior, x, from, s.channels[key], sid);
    forall k | k in s.channels
      ensures CutQueue(PartOf(s'.coord, k.to, sid), k.from, s'.channels[k], sid)
              == CutQueue(PartOf(s.coord, k.to, sid), k.from, s.channels[k], sid)
    {
      if k.to == p && k != key {
        SameCutQueue(prior, x, k.from, s.channels[k], s'.channels[k], sid);
      }
    }
    SameCut(s, s', sid);
  }

  lemma SameCutQueue(pj: MaybePart, pj': MaybePart, i: Pid, q: seq<Item>, q': seq<Item>, sid: Sid)
    requires RecordedOn(pj', i) == RecordedOn(pj, i) && Ahead(q', sid) == Ahead(q, sid)
    requires Closed(pj', i) <==> Closed(pj, i)
    ensures CutQueue(pj', i, q', sid) == CutQueue(pj, i, q, sid)
  {}

  lemma OtherMarkerParts(c: Coordinator, p: Pid, from: Pid, t: Sid, captured: Local, sid: Sid)
    requires p in c.procs && !IsDone(PartOf(c, p, t)) && t != sid
    ensures forall q :: PartOf(MarkerHandled(c, p, from, t, captured), q, sid) == PartOf(c, q, sid)
  {
    MarkerView(c, p, from, t, captured);
  }

  lemma CutOtherMarker(s: Sys, from: Pid, p: Pid, t: Sid, sid: Sid)
    requires Possible(s, Arrive(from, p)) && s.channels[ChannelKey(from, p)][0] == Marker(t) && t != sid
    requires NoRepeat(s.coord.procs[p].peers) && !IsDone(PartOf(s.coord, p, t))
    ensures CutState(DoMarker(s, from, p, t), sid) == CutState(s, sid)
  {
    OtherMarkerParts(s.coord, p, from, t, s.locals[p], sid);
    MarkerChannels(s.channels, ChannelKey(from, p), p, MarkerForwards(s.coord, p, t), t, sid);
    SameCut(s, DoMarker(s, from, p, t), sid);
  }

  lemma CutInitiation(pids: set<Pid>, s: Sys, p: Pid, t: Sid, sid: Sid)
    requires SysInv(pids, s) && Possible(s, Initiate(p, t))
    ensures CutState(DoInitiate(s, p, t), sid) == CutState(s, sid)
  {
    assert SnapInv(pids, s, sid);
    hide CutState;
    assert t == sid ==> forall q :: PartOf(s.coord, q, sid) == NoPart;
    CutInitiate(s, p, t, sid);
  }

  lemma CutMarker(pids: set<Pid>, s: Sys, from: Pid, p: Pid, t: Sid, sid: Sid)
    requires SysInv(pids, s) && Possible(s, Arrive(from, p)) && s.channels[ChannelKey(from, p)][0] == Marker(t)
    ensures CutState(DoMarker(s, from, p, t), sid) == CutState(s, sid)
  {
    assert SnapInv(pids, s, t);
    hide CutState;
    MarkerArrives(pids, s, from, p, t);
    if t == sid {
      assert PartOk(s.coord.procs[p].peers, PartOf(s.coord, p, sid));
      CutOwnMarker(s, from, p, sid);
    } else {
      CutOtherMarker(s, from, p, t, sid);
    }
  }

  /** The refinement: a step of a process that has not recorded is a step of the cut state; every other
      step leaves the cut state alone. */
  lemma CutStep(pids: set<Pid>, s: Sys, e: SysStep, sid: Sid)
    requires SysInv(pids, s)
    ensures var c, c' := CutState(s, sid), CutState(Do(s, e), sid);
            if PreCut(s, e, sid) then Legal(c, Visible(s, e)) && c' == Exec(c, Visible(s, e)) else c' == c
  {
    hide CutState;
    if Visible(s, e) != [] { ExecOne(CutState(s, sid), Visible(s, e)[0]); }
    if Possible(s, e) {
      match e
      case Compute(p) => CutTick(s, p, sid);
      case SendMessage(p, to) =>
        assert SnapInv(pids, s, sid);
        CutSend(s, p, to, sid);
      case Initiate(p, t) => CutInitiation(pids, s, p, t, sid);
      case Arrive(from, p) =>
        match s.channels[ChannelKey(from, p)][0]
        case Message(m) =>
          assert SnapInv(pids, s, sid) && PartOk(s.coord.procs[p].peers, PartOf(s.coord, p, sid));
          CutDelivery(s, from, p, m, sid);
        case Marker(t) => CutMarker(pids, s, from, p, t, sid);
    }
  }
}
