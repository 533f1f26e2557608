/** Whole runs of the system with snapshots: processes, FIFO channels carrying messages and markers, and
    the coordinator. A step is atomic: a send with its clock tick, an initiation with all its markers, an
    arrival with its recording and handling.

    This file proves the marker discipline of one snapshot, for any snapshot id and however many other
    snapshots run beside it: exactly one marker per channel, in the channel from the moment its sender has
    recorded until its receiver closes the channel; and the reports that make the snapshot complete.
 */
module SnapshotRuns {
  import opened Sizes
  import opened VectorClock
  import opened Snapshots
  import opened FifoRuns

  datatype Item = Message(app: App) | Marker(sid: Sid)

  /** `markers` logs every marker ever put on a channel. */
  datatype Sys = Sys(locals: map<Pid, Local>, channels: map<ChannelKey, seq<Item>>, coord: Coordinator,
                     markers: seq<(Pid, Pid, Sid)>)

  datatype SysStep = Compute(p: Pid) | SendMessage(p: Pid, to: Pid) | Initiate(p: Pid, sid: Sid) |
                     Arrive(from: Pid, p: Pid)

  // ---- Steps ----

  function Broadcast(ch: map<ChannelKey, seq<Item>>, p: Pid, peers: seq<Pid>, sid: Sid): map<ChannelKey, seq<Item>>
    decreases |peers|
  {
    if peers == [] then ch
    else
      var key := ChannelKey(p, peers[0]);
      Broadcast(if key in ch then ch[key := ch[key] + [Marker(sid)]] else ch, p, peers[1..], sid)
  }

  predicate Possible(s: Sys, e: SysStep) {
    e.p in s.locals &&
    match e
    case Compute(_) => true
    case SendMessage(p, to) => ChannelKey(p, to) in s.channels
    case Initiate(p, sid) => p in s.coord.procs && sid !in s.coord.snapshots
    case Arrive(from, p) =>
      p in s.coord.procs && ChannelKey(from, p) in s.channels && s.channels[ChannelKey(from, p)] != []
  }

  function Do(s: Sys, e: SysStep): Sys {
    if !Possible(s, e) then s
    else
      match e
      case Compute(p) => s.(locals := s.locals[p := LocalTick(s.locals[p], p)])
      case SendMessage(p, to) =>
        var key := ChannelKey(p, to);
        s.(locals := s.locals[p := LocalSend(s.locals[p], p, to)],
           channels := s.channels[key := s.channels[key] + [Message(NextMessage(s.locals[p], p, to))]])
      case Initiate(p, sid) => DoInitiate(s, p, sid)
      case Arrive(from, p) =>
        match s.channels[ChannelKey(from, p)][0]
        case Message(m) => DoDeliver(s, from, p, m)
        case Marker(sid) => DoMarker(s, from, p, sid)
  }

  /** Capture, start recording, and put a marker on every outgoing channel. */
  function DoInitiate(s: Sys, p: Pid, sid: Sid): Sys
    requires p in s.locals && p in s.coord.procs
  {
    var peers := s.coord.procs[p].peers;
    s.(coord := Initiated(s.coord, p, sid, s.locals[p]),
       channels := Broadcast(s.channels, p, peers, sid),
       markers := s.markers + MarkersTo(p, peers, sid))
  }

  /** Take the message off the channel, record it for every active snapshot, then hand it over. */
  function DoDeliver(s: Sys, from: Pid, p: Pid, m: App): Sys
    requires p in s.locals && Possible(s, Arrive(from, p))
  {
    var key := ChannelKey(from, p);
    s.(locals := s.locals[p := LocalReceive(s.locals[p], p, from, m)],
       channels := s.channels[key := s.channels[key][1..]],
       coord := MessageSeen(s.coord, p, from, m))
  }

  /** Take the marker off the channel; the state it captures is that of the moment of its arrival. */
  function DoMarker(s: Sys, from: Pid, p: Pid, sid: Sid): Sys
    requires p in s.locals && Possible(s, Arrive(from, p))
  {
    var key := ChannelKey(from, p);
    var forwards := MarkerForwards(s.coord, p, sid);
    s.(channels := Broadcast(s.channels[key := s.channels[key][1..]], p, forwards, sid),
       coord := MarkerHandled(s.coord, p, from, sid, s.locals[p]),
       markers := s.markers + MarkersTo(p, forwards, sid))
  }

  /** Spawning the processes one after the other registers each with those before it. */
  function Spawned(pids: seq<Pid>): Coordinator {
    if pids == [] then Coordinator(map[], map[], [])
    else Registered(Spawned(pids[..|pids| - 1]), pids[|pids| - 1], pids[..|pids| - 1])
  }

  function Start(pids: seq<Pid>): Sys {
    Sys(NewLocals(pids), EmptyChannels(Members(pids)), Spawned(pids), [])
  }

  function After(pids: seq<Pid>, steps: seq<SysStep>): Sys {
    if steps == [] then Start(pids) else Do(After(pids, steps[..|steps| - 1]), steps[|steps| - 1])
  }

  // ---- One snapshot's view ----

  datatype MaybePart = NoPart | HasPart(part: Part)

  function PartOf(c: Coordinator, p: Pid, sid: Sid): MaybePart {
    if p in c.procs && sid in c.procs[p].parts then HasPart(c.procs[p].parts[sid]) else NoPart
  }

  /** `j` has seen `i`'s marker: the channel from `i` is closed. */
  predicate Closed(pj: MaybePart, i: Pid) {
    pj.HasPart? && i in pj.part.channels && pj.part.channels[i].finalized
  }

  predicate IsDone(p: MaybePart) {
    p.HasPart? && p.part.role == Done
  }

  function MarkerCount(q: seq<Item>, sid: Sid): nat {
    if q == [] then 0 else MarkerCount(q[1..], sid) + if q[0] == Marker(sid) then 1 else 0
  }

  lemma {:induction false} MarkerCountAppend(q: seq<Item>, x: Item, sid: Sid)
    ensures MarkerCount(q + [x], sid) == MarkerCount(q, sid) + if x == Marker(sid) then 1 else 0
  {
    if q == [] {
      assert q + [x] == [x];
    } else {
      MarkerCountAppend(q[1..], x, sid);
      assert (q + [x])[1..] == q[1..] + [x];
    }
  }

  // ---- The marker discipline ----

  /** The marker of `i` is on its way to `j` exactly from `i`'s recording until `j` closes the channel. */
  predicate ChannelOk(sid: Sid, i: Pid, pi: MaybePart, pj: MaybePart, q: seq<Item>) {
    && MarkerCount(q, sid) == (if pi.HasPart? && !Closed(pj, i) then 1 else 0)
    && (Closed(pj, i) ==> pi.HasPart?)
  }

  predicate PartOk(peers: seq<Pid>, p: MaybePart) {
    p.HasPart? ==>
      && p.part.role != NotParticipating
      && (forall q :: q in peers ==> q in p.part.channels)
      && (p.part.role == Done <==> AllFinal(peers, p.part.channels))
  }

  ghost predicate PeersOk(pids: set<Pid>, p: Pid, peers: seq<Pid>) {
    NoRepeat(peers) && forall q :: q in peers <==> q in pids && q != p
  }

  ghost predicate SysMesh(pids: set<Pid>, s: Sys) {
    && s.locals.Keys == pids && s.coord.procs.Keys == pids
    && (forall i, j :: ChannelKey(i, j) in s.channels <==> i in pids && j in pids && i != j)
    && (forall p :: p in pids ==> PeersOk(pids, p, s.coord.procs[p].peers))
  }

  /** The global snapshot holds exactly the reports of the finished processes, is complete when all have
      reported, and its completion was announced exactly then. */
  ghost predicate ReportOk(pids: set<Pid>, c: Coordinator, sid: Sid) {
    && (sid !in c.snapshots ==>
          multiset(c.completions)[sid] == 0 && forall p :: p in pids ==> PartOf(c, p, sid) == NoPart)
    && (sid in c.snapshots ==>
          var gs := c.snapshots[sid];
          && gs.initiator in pids && PartOf(c, gs.initiator, sid).HasPart?
          && (forall p :: p in gs.locals <==> p in pids && IsDone(PartOf(c, p, sid)))
          && (forall p :: p in gs.locals ==> ReportsPart(gs.locals[p], p, sid, PartOf(c, p, sid)))
          && (gs.complete <==> AllReported(pids, gs.locals))
          && multiset(c.completions)[sid] == (if gs.complete then 1 else 0))
  }

  predicate ReportsPart(report: LocalSnapshot, p: Pid, sid: Sid, part: MaybePart) {
    part.HasPart? && report == LocalSnapshot(p, part.part.local, part.part.channels, true, sid)
  }

  ghost predicate ChannelsOk(pids: set<Pid>, c: Coordinator, ch: map<ChannelKey, seq<Item>>, sid: Sid) {
    forall i, j :: i in pids && j in pids && i != j ==>
      ChannelKey(i, j) in ch && ChannelOk(sid, i, PartOf(c, i, sid), PartOf(c, j, sid), ch[ChannelKey(i, j)])
  }

  ghost predicate PartsOk(pids: set<Pid>, c: Coordinator, sid: Sid) {
    forall p :: p in pids ==> p in c.procs && PartOk(c.procs[p].peers, PartOf(c, p, sid))
  }

  ghost predicate SnapInv(pids: set<Pid>, s: Sys, sid: Sid) {
    && ChannelsOk(pids, s.coord, s.channels, sid)
    && PartsOk(pids, s.coord, sid)
    && ReportOk(pids, s.coord, sid)
  }

  // ---- What the operations change ----

  /** `c'` differs from `c` only in the part of `p` in `sid` and in what is reported of `sid`. */
  ghost predicate OnlyPart(c: Coordinator, c': Coordinator, p: Pid, sid: Sid, part: MaybePart) {
    && c'.procs.Keys == c.procs.Keys
    && (forall q :: q in c.procs ==> c'.procs[q].peers == c.procs[q].peers)
    && (forall q, t :: PartOf(c', q, t) == if q == p && t == sid then part else PartOf(c, q, t))
    && (forall t :: t != sid ==> SameReport(c, c', t))
  }

  predicate SameReport(c: Coordinator, c': Coordinator, t: Sid) {
    && (t in c.snapshots <==> t in c'.snapshots)
    && (t in c.snapshots ==> c.snapshots[t] == c'.snapshots[t])
    && multiset(c.completions)[t] == multiset(c'.completions)[t]
  }

  lemma WithPartView(c: Coordinator, p: Pid, sid: Sid, part: Part)
    requires p in c.procs
    ensures OnlyPart(c, WithPart(c, p, sid, part), p, sid, HasPart(part))
    ensures SameReport(c, WithPart(c, p, sid, part), sid)
  {}

  lemma ReportedView(c: Coordinator, sid: Sid, p: Pid, part: Part)
    ensures Reported(c, sid, p, part).procs == c.procs
    ensures forall t :: t != sid ==> SameReport(c, Reported(c, sid, p, part), t)
  {
    forall t | t != sid ensures multiset(c.completions + [sid])[t] == multiset(c.completions)[t] {}
  }

  function MarkedPart(prior: MaybePart, peers: seq<Pid>, from: Pid, captured: Local): Part {
    var part := if prior.HasPart? then prior.part else Part(NotParticipating, captured, map[]);
    if part.role == Done then part else Settled(AfterMarker(part, peers, from, captured), peers)
  }

  lemma OnlyPartTwice(c: Coordinator, d: Coordinator, e: Coordinator, p: Pid, sid: Sid, x: MaybePart, y: MaybePart)
    requires OnlyPart(c, d, p, sid, x) && OnlyPart(d, e, p, sid, y)
    ensures OnlyPart(c, e, p, sid, y)
  {
    forall t | t != sid ensures SameReport(c, e, t) { assert SameReport(c, d, t) && SameReport(d, e, t); }
  }

  lemma CheckedView(c: Coordinator, p: Pid, sid: Sid, a: Part)
    requires p in c.procs && PartOf(c, p, sid) == HasPart(a)
    requires a.role == Done ==> AllFinal(c.procs[p].peers, a.channels)
    ensures var x := Settled(a, c.procs[p].peers);
            var c' := CheckedFinal(c, sid, p);
            && OnlyPart(c, c', p, sid, HasPart(x))
            && (if x.role == Done then ReportAdded(c, c', p, sid, x) else SameReport(c, c', sid))
  {
    var x := Settled(a, c.procs[p].peers);
    if x.role == Done {
      var d := WithPart(c, p, sid, x);
      WithPartView(c, p, sid, x);
      ReportedView(d, sid, p, a);
      ReportedAdds(c, d, sid, p, a);
      OnlyPartReport(c, d, Reported(d, sid, p, a), p, sid, x);
    }
  }

  lemma OnlyPartReport(c: Coordinator, d: Coordinator, e: Coordinator, p: Pid, sid: Sid, x: Part)
    requires OnlyPart(c, d, p, sid, HasPart(x)) && e.procs == d.procs
    requires forall t :: t != sid ==> SameReport(d, e, t)
    ensures OnlyPart(c, e, p, sid, HasPart(x))
  {
    forall q, t ensures PartOf(e, q, t) == PartOf(d, q, t) {}
    forall t | t != sid ensures SameReport(c, e, t) { assert SameReport(c, d, t) && SameReport(d, e, t); }
  }

  lemma MarkerView(c: Coordinator, p: Pid, from: Pid, sid: Sid, captured: Local)
    requires p in c.procs && !IsDone(PartOf(c, p, sid))
    ensures var x := MarkedPart(PartOf(c, p, sid), c.procs[p].peers, from, captured);
            var c' := MarkerHandled(c, p, from, sid, captured);
            && OnlyPart(c, c', p, sid, HasPart(x))
            && (if x.role == Done then ReportAdded(c, c', p, sid, x) else SameReport(c, c', sid))
  {
    var a := AfterMarker(PriorPart(c.procs[p], sid, captured), c.procs[p].peers, from, captured);
    var d := WithPart(c, p, sid, a);
    WithPartView(c, p, sid, a);
    CheckedView(d, p, sid, a);
    OnlyPartTwice(c, d, CheckedFinal(d, sid, p), p, sid, HasPart(a), HasPart(Settled(a, c.procs[p].peers)));
  }

  /** The report of `p` has been added, and the completion announced if it was the last. */
  ghost predicate ReportAdded(c: Coordinator, c': Coordinator, p: Pid, sid: Sid, x: Part) {
    && (sid in c.snapshots <==> sid in c'.snapshots)
    && (sid in c.snapshots ==>
          var gs, gs' := c.snapshots[sid], c'.snapshots[sid];
          && gs'.locals == gs.locals[p := LocalSnapshot(p, x.local, x.channels, true, sid)]
          && gs'.initiator == gs.initiator
          && (gs'.complete <==> gs.complete || AllReported(c.procs.Keys, gs'.locals))
          && multiset(c'.completions)[sid] == multiset(c.completions)[sid] +
             (if AllReported(c.procs.Keys, gs'.locals) then 1 else 0))
  }

  lemma ReportedAdds(c: Coordinator, c2: Coordinator, sid: Sid, p: Pid, a: Part)
    requires c2.procs.Keys == c.procs.Keys && c2.snapshots == c.snapshots && c2.completions == c.completions
    ensures ReportAdded(c, Reported(c2, sid, p, a), p, sid, a)
  {}

  lemma MessageView(c: Coordinator, p: Pid, from: Pid, m: App)
    requires p in c.procs
    ensures var c' := MessageSeen(c, p, from, m);
            && c'.procs.Keys == c.procs.Keys
            && (forall q :: q in c.procs ==> c'.procs[q].peers == c.procs[q].peers)
            && (forall q, t ::
                  PartOf(c', q, t) == if q == p then SeenPart(PartOf(c, q, t), from, m) else PartOf(c, q, t))
            && (forall t :: SameReport(c, c', t))
  {}

  function SeenPart(part: MaybePart, from: Pid, m: App): MaybePart {
    if part.HasPart? && Active(part.part) then HasPart(Recorded(part.part, from, m)) else part
  }

  lemma InitiateView(c: Coordinator, p: Pid, sid: Sid, captured: Local)
    requires p in c.procs && sid !in c.snapshots
    ensures var c' := Initiated(c, p, sid, captured);
            && OnlyPart(c, c', p, sid, HasPart(Part(Initiator, captured, OpenAll(c.procs[p].peers))))
            && sid in c'.snapshots && c'.snapshots[sid] == GlobalSnapshot(sid, p, map[], false)
            && c'.completions == c.completions
  {}

  function MarkerTo(key: ChannelKey, p: Pid, peers: seq<Pid>, sid: Sid): seq<Item> {
    if key.from == p && key.to in peers then [Marker(sid)] else []
  }

  lemma {:induction false} BroadcastAt(ch: map<ChannelKey, seq<Item>>, p: Pid, peers: seq<Pid>, sid: Sid)
    requires NoRepeat(peers)
    ensures Broadcast(ch, p, peers, sid).Keys == ch.Keys
    ensures forall key :: key in ch ==>
              Broadcast(ch, p, peers, sid)[key] == ch[key] + MarkerTo(key, p, peers, sid)
    decreases |peers|
  {
    if peers != [] {
      var head := ChannelKey(p, peers[0]);
      var ch' := if head in ch then ch[head := ch[head] + [Marker(sid)]] else ch;
      BroadcastAt(ch', p, peers[1..], sid);
      assert peers == [peers[0]] + peers[1..];
    }
  }

  // ---- Every step keeps the invariant ----

  /** Two parts that differ at most in the messages recorded on open channels. */
  predicate Alike(p: MaybePart, p': MaybePart) {
    && p'.HasPart? == p.HasPart?
    && (IsDone(p) ==> p' == p)
    && (p.HasPart? ==> AlikeParts(p.part, p'.part))
  }

  predicate AlikeParts(a: Part, b: Part) {
    && b.role == a.role && b.channels.Keys == a.channels.Keys
    && forall i :: i in a.channels ==> b.channels[i].finalized == a.channels[i].finalized
  }

  /** A change that touches no marker and no report of this snapshot, and its parts only by recording. */
  ghost predicate Quiet(pids: set<Pid>, s: Sys, s': Sys, sid: Sid) {
    && s'.channels.Keys == s.channels.Keys
    && (forall p :: p in pids ==> QuietPart(s.coord, s'.coord, p, sid))
    && SameReport(s.coord, s'.coord, sid)
    && (forall key :: key in s.channels ==> MarkerCount(s'.channels[key], sid) == MarkerCount(s.channels[key], sid))
  }

  predicate QuietPart(c: Coordinator, c': Coordinator, p: Pid, sid: Sid) {
    && p in c.procs && p in c'.procs && c'.procs[p].peers == c.procs[p].peers
    && Alike(PartOf(c, p, sid), PartOf(c', p, sid))
  }

  lemma QuietReport(pids: set<Pid>, c: Coordinator, c': Coordinator, sid: Sid)
    requires ReportOk(pids, c, sid) && SameReport(c, c', sid)
    requires forall p :: p in pids ==> QuietPart(c, c', p, sid)
    ensures ReportOk(pids, c', sid)
  {}

  lemma AlikeChannel(sid: Sid, i: Pid, pi: MaybePart, pi': MaybePart, pj: MaybePart, pj': MaybePart,
                     q: seq<Item>, q': seq<Item>)
    requires ChannelOk(sid, i, pi, pj, q) && Alike(pi, pi') && Alike(pj, pj')
    requires MarkerCount(q', sid) == MarkerCount(q, sid)
    ensures ChannelOk(sid, i, pi', pj', q')
  {}

  lemma AlikePartOk(peers: seq<Pid>, p: MaybePart, p': MaybePart)
    requires Alike(p, p') && PartOk(peers, p)
    ensures PartOk(peers, p')
  {}

  lemma QuietStep(pids: set<Pid>, s: Sys, s': Sys, sid: Sid)
    requires SnapInv(pids, s, sid) && Quiet(pids, s, s', sid)
    ensures SnapInv(pids, s', sid)
  {
    var c, c' := s.coord, s'.coord;
    QuietReport(pids, c, c', sid);
    forall i, j | i in pids && j in pids && i != j
      ensures ChannelKey(i, j) in s'.channels
      ensures ChannelOk(sid, i, PartOf(c', i, sid), PartOf(c', j, sid), s'.channels[ChannelKey(i, j)])
    {
      assert QuietPart(c, c', i, sid) && QuietPart(c, c', j, sid);
      AlikeChannel(sid, i, PartOf(c, i, sid), PartOf(c', i, sid), PartOf(c, j, sid), PartOf(c', j, sid),
                   s.channels[ChannelKey(i, j)], s'.channels[ChannelKey(i, j)]);
    }
    forall p | p in pids ensures p in c'.procs && PartOk(c'.procs[p].peers, PartOf(c', p, sid)) {
      assert QuietPart(c, c', p, sid);
      AlikePartOk(c.procs[p].peers, PartOf(c, p, sid), PartOf(c', p, sid));
    }
  }

  lemma SeenPartAlike(part: MaybePart, from: Pid, m: App)
    ensures Alike(part, SeenPart(part, from, m))
  {}

  lemma SendIsQuiet(pids: set<Pid>, s: Sys, p: Pid, to: Pid, sid: Sid)
    requires pids == s.coord.procs.Keys && Possible(s, SendMessage(p, to))
    ensures Quiet(pids, s, Do(s, SendMessage(p, to)), sid)
  {
    MarkerCountAppend(s.channels[ChannelKey(p, to)], Message(NextMessage(s.locals[p], p, to)), sid);
  }

  lemma DeliveryIsQuiet(pids: set<Pid>, s: Sys, from: Pid, p: Pid, m: App, sid: Sid)
    requires pids == s.coord.procs.Keys && Possible(s, Arrive(from, p))
    requires s.channels[ChannelKey(from, p)][0] == Message(m)
    ensures Quiet(pids, s, DoDeliver(s, from, p, m), sid)
  {
    MessageView(s.coord, p, from, m);
    SeenPartAlike(PartOf(s.coord, p, sid), from, m);
  }

  // ---- Steps of another snapshot ----

  lemma OtherMarkerCount(q: seq<Item>, key: ChannelKey, p: Pid, peers: seq<Pid>, t: Sid, sid: Sid)
    requires t != sid
    ensures MarkerCount(q + MarkerTo(key, p, peers, t), sid) == MarkerCount(q, sid)
  {
    if key.from == p && key.to in peers {
      MarkerCountAppend(q, Marker(t), sid);
    } else {
      assert q + MarkerTo(key, p, peers, t) == q;
    }
  }

  lemma OtherBroadcast(ch: map<ChannelKey, seq<Item>>, p: Pid, peers: seq<Pid>, t: Sid, sid: Sid)
    requires t != sid && NoRepeat(peers)
    ensures Broadcast(ch, p, peers, t).Keys == ch.Keys
    ensures forall key :: key in ch ==>
              MarkerCount(Broadcast(ch, p, peers, t)[key], sid) == MarkerCount(ch[key], sid)
  {
    BroadcastAt(ch, p, peers, t);
    forall key | key in ch ensures MarkerCount(Broadcast(ch, p, peers, t)[key], sid) == MarkerCount(ch[key], sid) {
      OtherMarkerCount(ch[key], key, p, peers, t, sid);
    }
  }

  /** What a part's change in snapshot `t` means for snapshot `sid`: nothing. */
  lemma OtherPartIsQuiet(pids: set<Pid>, s: Sys, s': Sys, p: Pid, t: Sid, part: MaybePart, sid: Sid)
    requires pids == s.coord.procs.Keys && t != sid && OnlyPart(s.coord, s'.coord, p, t, part)
    requires s'.channels.Keys == s.channels.Keys
    requires forall key :: key in s.channels ==> MarkerCount(s'.channels[key], sid) == MarkerCount(s.channels[key], sid)
    ensures Quiet(pids, s, s', sid)
  {}

  lemma OtherInitiationIsQuiet(pids: set<Pid>, s: Sys, p: Pid, t: Sid, sid: Sid)
    requires pids == s.coord.procs.Keys && Possible(s, Initiate(p, t)) && t != sid
    requires NoRepeat(s.coord.procs[p].peers)
    ensures Quiet(pids, s, DoInitiate(s, p, t), sid)
  {
    InitiateView(s.coord, p, t, s.locals[p]);
    OtherBroadcast(s.channels, p, s.coord.procs[p].peers, t, sid);
    OtherPartIsQuiet(pids, s, DoInitiate(s, p, t), p, t,
                     HasPart(Part(Initiator, s.locals[p], OpenAll(s.coord.procs[p].peers))), sid);
  }

  lemma OtherMarkerIsQuiet(pids: set<Pid>, s: Sys, from: Pid, p: Pid, t: Sid, sid: Sid)
    requires pids == s.coord.procs.Keys && Possible(s, Arrive(from, p)) && t != sid
    requires s.channels[ChannelKey(from, p)][0] == Marker(t)
    requires NoRepeat(s.coord.procs[p].peers) && !IsDone(PartOf(s.coord, p, t))
    ensures Quiet(pids, s, DoMarker(s, from, p, t), sid)
  {
    var key := ChannelKey(from, p);
    var popped := s.channels[key := s.channels[key][1..]];
    MarkerView(s.coord, p, from, t, s.locals[p]);
    OtherBroadcast(popped, p, MarkerForwards(s.coord, p, t), t, sid);
    OtherPartIsQuiet(pids, s, DoMarker(s, from, p, t), p, t,
                     HasPart(MarkedPart(PartOf(s.coord, p, t), s.coord.procs[p].peers, from, s.locals[p])), sid);
  }

  // ---- The snapshot's own steps ----

  lemma FreshMarkerCount(key: ChannelKey, q: seq<Item>, p: Pid, peers: seq<Pid>, sid: Sid)
    ensures MarkerCount(q + MarkerTo(key, p, peers, sid), sid) ==
            MarkerCount(q, sid) + if key.from == p && key.to in peers then 1 else 0
  {
    if key.from == p && key.to in peers {
      MarkerCountAppend(q, Marker(sid), sid);
    } else {
      assert q + MarkerTo(key, p, peers, sid) == q;
    }
  }

  /** The discipline on one channel once `p` has its new part, but with `p` still without a part as a
      sender if it had none. */
  predicate HalfWay(c: Coordinator, sid: Sid, p: Pid, part: MaybePart, i: Pid, j: Pid, q: seq<Item>) {
    ChannelOk(sid, i, PartOf(c, i, sid), if j == p then part else PartOf(c, j, sid), q)
  }

  /** Recording starts at `p`: its markers go out, and the discipline holds again. */
  lemma MarkersGoOut(pids: set<Pid>, c: Coordinator, c': Coordinator, ch: map<ChannelKey, seq<Item>>, p: Pid,
                     peers: seq<Pid>, sid: Sid, part: Part)
    requires OnlyPart(c, c', p, sid, HasPart(part)) && NoRepeat(peers)
    requires PartOf(c, p, sid) == NoPart && forall q :: q in pids && q != p ==> q in peers
    requires forall i, j :: i in pids && j in pids && i != j ==>
               ChannelKey(i, j) in ch && HalfWay(c, sid, p, HasPart(part), i, j, ch[ChannelKey(i, j)])
    ensures ChannelsOk(pids, c', Broadcast(ch, p, peers, sid), sid)
  {
    BroadcastAt(ch, p, peers, sid);
    forall i, j | i in pids && j in pids && i != j
      ensures ChannelOk(sid, i, PartOf(c', i, sid), PartOf(c', j, sid),
                        Broadcast(ch, p, peers, sid)[ChannelKey(i, j)])
    {
      assert HalfWay(c, sid, p, HasPart(part), i, j, ch[ChannelKey(i, j)]);
      FreshMarkerCount(ChannelKey(i, j), ch[ChannelKey(i, j)], p, peers, sid);
    }
  }

  lemma InitiationReport(pids: set<Pid>, c: Coordinator, c': Coordinator, p: Pid, sid: Sid, part: Part)
    requires ReportOk(pids, c, sid) && sid !in c.snapshots && p in pids && part.role == Initiator
    requires OnlyPart(c, c', p, sid, HasPart(part)) && c'.completions == c.completions
    requires sid in c'.snapshots && c'.snapshots[sid] == GlobalSnapshot(sid, p, map[], false)
    ensures ReportOk(pids, c', sid)
  {}

  lemma PartsAfter(pids: set<Pid>, c: Coordinator, c': Coordinator, p: Pid, sid: Sid, part: Part)
    requires PartsOk(pids, c, sid) && OnlyPart(c, c', p, sid, HasPart(part)) && p in c.procs
    requires PartOk(c.procs[p].peers, HasPart(part))
    ensures PartsOk(pids, c', sid)
  {}

  lemma InitiationKeepsSnap(pids: set<Pid>, s: Sys, p: Pid, sid: Sid)
    requires SnapInv(pids, s, sid) && Possible(s, Initiate(p, sid)) && p in pids
    requires PeersOk(pids, p, s.coord.procs[p].peers) && s.coord.procs[p].peers != []
    ensures SnapInv(pids, DoInitiate(s, p, sid), sid)
  {
    var c, c', peers := s.coord, DoInitiate(s, p, sid).coord, s.coord.procs[p].peers;
    var part := Part(Initiator, s.locals[p], OpenAll(peers));
    InitiateView(c, p, sid, s.locals[p]);
    InitiationReport(pids, c, c', p, sid, part);
    assert peers[0] in peers;
    PartsAfter(pids, c, c', p, sid, part);
    forall i, j | i in pids && j in pids && i != j
      ensures ChannelKey(i, j) in s.channels && HalfWay(c, sid, p, HasPart(part), i, j, s.channels[ChannelKey(i, j)])
    {
      assert ChannelOk(sid, i, PartOf(c, i, sid), PartOf(c, j, sid), s.channels[ChannelKey(i, j)]);
    }
    MarkersGoOut(pids, c, c', s.channels, p, peers, sid, part);
  }

  /** A marker that arrives finds its sender recorded, its channel open, and its receiver not finished. */
  lemma MarkerArrives(pids: set<Pid>, s: Sys, from: Pid, p: Pid, sid: Sid)
    requires SnapInv(pids, s, sid) && Possible(s, Arrive(from, p)) && s.channels[ChannelKey(from, p)][0] == Marker(sid)
    requires from in pids && p in pids && from != p && PeersOk(pids, p, s.coord.procs[p].peers)
    ensures PartOf(s.coord, from, sid).HasPart? && !Closed(PartOf(s.coord, p, sid), from)
    ensures !IsDone(PartOf(s.coord, p, sid)) && sid in s.coord.snapshots
    ensures MarkerCount(s.channels[ChannelKey(from, p)][1..], sid) == 0
  {}

  /** The part a marker leaves: its channel closed, the other channels as they were. */
  lemma MarkedPartOk(prior: MaybePart, peers: seq<Pid>, from: Pid, captured: Local)
    requires PartOk(peers, prior) && !IsDone(prior)
    ensures var x := MarkedPart(prior, peers, from, captured);
            && PartOk(peers, HasPart(x)) && Closed(HasPart(x), from)
            && (forall i :: i != from ==> (Closed(HasPart(x), i) <==> Closed(prior, i)))
            && x.local == if prior.HasPart? then prior.part.local else captured
  {}

  lemma UnreportedMarker(pids: set<Pid>, c: Coordinator, c': Coordinator, p: Pid, sid: Sid, x: Part)
    requires ReportOk(pids, c, sid) && sid in c.snapshots && p in pids && x.role != Done
    requires OnlyPart(c, c', p, sid, HasPart(x)) && SameReport(c, c', sid) && !IsDone(PartOf(c, p, sid))
    ensures ReportOk(pids, c', sid)
  {}

  lemma ReportedMarker(pids: set<Pid>, c: Coordinator, c': Coordinator, p: Pid, sid: Sid, x: Part)
    requires ReportOk(pids, c, sid) && sid in c.snapshots && p in pids && pids == c.procs.Keys && x.role == Done
    requires OnlyPart(c, c', p, sid, HasPart(x)) && ReportAdded(c, c', p, sid, x) && !IsDone(PartOf(c, p, sid))
    ensures ReportOk(pids, c', sid)
  {}

  lemma MarkerReport(pids: set<Pid>, c: Coordinator, c': Coordinator, p: Pid, sid: Sid, x: Part)
    requires ReportOk(pids, c, sid) && sid in c.snapshots && p in pids && pids == c.procs.Keys
    requires !IsDone(PartOf(c, p, sid)) && OnlyPart(c, c', p, sid, HasPart(x))
    requires if x.role == Done then ReportAdded(c, c', p, sid, x) else SameReport(c, c', sid)
    ensures ReportOk(pids, c', sid)
  {
    if x.role == Done {
      ReportedMarker(pids, c, c', p, sid, x);
    } else {
      UnreportedMarker(pids, c, c', p, sid, x);
    }
  }

  /** The channels once the marker is off its channel and `p` has its new part. */
  lemma MarkerTaken(pids: set<Pid>, s: Sys, from: Pid, p: Pid, sid: Sid, x: Part)
    requires SnapInv(pids, s, sid) && Possible(s, Arrive(from, p)) && from in pids && p in pids && from != p
    requires PartOf(s.coord, from, sid).HasPart? && MarkerCount(s.channels[ChannelKey(from, p)][1..], sid) == 0
    requires Closed(HasPart(x), from)
    requires forall i :: i != from ==> (Closed(HasPart(x), i) <==> Closed(PartOf(s.coord, p, sid), i))
    ensures var popped := s.channels[ChannelKey(from, p) := s.channels[ChannelKey(from, p)][1..]];
            forall i, j :: i in pids && j in pids && i != j ==>
              ChannelKey(i, j) in popped && HalfWay(s.coord, sid, p, HasPart(x), i, j, popped[ChannelKey(i, j)])
  {
    var popped := s.channels[ChannelKey(from, p) := s.channels[ChannelKey(from, p)][1..]];
    forall i, j | i in pids && j in pids && i != j
      ensures ChannelKey(i, j) in popped && HalfWay(s.coord, sid, p, HasPart(x), i, j, popped[ChannelKey(i, j)])
    {
      assert ChannelOk(sid, i, PartOf(s.coord, i, sid), PartOf(s.coord, j, sid), s.channels[ChannelKey(i, j)]);
    }
  }

  /** Without new markers the half-way discipline is the discipline. */
  lemma NoMarkersGoOut(pids: set<Pid>, c: Coordinator, c': Coordinator, ch: map<ChannelKey, seq<Item>>, p: Pid,
                       sid: Sid, part: Part)
    requires OnlyPart(c, c', p, sid, HasPart(part)) && PartOf(c, p, sid).HasPart?
    requires forall i, j :: i in pids && j in pids && i != j ==>
               ChannelKey(i, j) in ch && HalfWay(c, sid, p, HasPart(part), i, j, ch[ChannelKey(i, j)])
    ensures ChannelsOk(pids, c', ch, sid)
  {}

  lemma MarkerKeepsSnap(pids: set<Pid>, s: Sys, from: Pid, p: Pid, sid: Sid)
    requires SnapInv(pids, s, sid) && Possible(s, Arrive(from, p)) && s.channels[ChannelKey(from, p)][0] == Marker(sid)
    requires pids == s.coord.procs.Keys && from in pids && from != p && PeersOk(pids, p, s.coord.procs[p].peers)
    ensures SnapInv(pids, DoMarker(s, from, p, sid), sid)
  {
    var c, c', peers, key := s.coord, DoMarker(s, from, p, sid).coord, s.coord.procs[p].peers, ChannelKey(from, p);
    var prior := PartOf(c, p, sid);
    var x := MarkedPart(prior, peers, from, s.locals[p]);
    var popped := s.channels[key := s.channels[key][1..]];
    MarkerArrives(pids, s, from, p, sid);
    assert PartOk(peers, prior);
    MarkedPartOk(prior, peers, from, s.locals[p]);
    MarkerView(c, p, from, sid, s.locals[p]);
    MarkerReport(pids, c, c', p, sid, x);
    PartsAfter(pids, c, c', p, sid, x);
    MarkerTaken(pids, s, from, p, sid, x);
    if prior.HasPart? {
      NoMarkersGoOut(pids, c, c', popped, p, sid, x);
    } else {
      MarkersGoOut(pids, c, c', popped, p, peers, sid, x);
    }
  }

  // ---- Every reachable state ----

  ghost predicate SysInv(pids: set<Pid>, s: Sys) {
    SysMesh(pids, s) && forall sid :: SnapInv(pids, s, sid)
  }

  lemma SameMesh(pids: set<Pid>, s: Sys, s': Sys)
    requires SysMesh(pids, s) && s'.locals.Keys == s.locals.Keys && s'.channels.Keys == s.channels.Keys
    requires s'.coord.procs.Keys == s.coord.procs.Keys
    requires forall p :: p in pids ==> s'.coord.procs[p].peers == s.coord.procs[p].peers
    ensures SysMesh(pids, s')
  {}

  lemma InitiateKeepsInv(pids: set<Pid>, s: Sys, p: Pid, t: Sid)
    requires SysInv(pids, s) && Possible(s, Initiate(p, t)) && |pids| >= 2
    ensures SysInv(pids, DoInitiate(s, p, t))
  {
    var s', peers := DoInitiate(s, p, t), s.coord.procs[p].peers;
    OtherMember(pids, p);
    InitiateView(s.coord, p, t, s.locals[p]);
    BroadcastAt(s.channels, p, peers, t);
    SameMesh(pids, s, s');
    forall sid ensures SnapInv(pids, s', sid) {
      assert SnapInv(pids, s, sid);
      if sid == t {
        InitiationKeepsSnap(pids, s, p, t);
      } else {
        OtherInitiationIsQuiet(pids, s, p, t, sid);
        QuietStep(pids, s, s', sid);
      }
    }
  }

  lemma OtherMember(pids: set<Pid>, p: Pid)
    requires |pids| >= 2
    ensures exists q :: q in pids && q != p
  {
    if forall q :: q in pids ==> q == p {
      assert pids <= {p};
      SubsetSize(pids, {p});
    }
  }

  lemma MarkerKeepsInv(pids: set<Pid>, s: Sys, from: Pid, p: Pid, t: Sid)
    requires SysInv(pids, s) && Possible(s, Arrive(from, p)) && s.channels[ChannelKey(from, p)][0] == Marker(t)
    ensures SysInv(pids, DoMarker(s, from, p, t))
  {
    var s', key := DoMarker(s, from, p, t), ChannelKey(from, p);
    assert SnapInv(pids, s, t);
    MarkerArrives(pids, s, from, p, t);
    MarkerView(s.coord, p, from, t, s.locals[p]);
    BroadcastAt(s.channels[key := s.channels[key][1..]], p, MarkerForwards(s.coord, p, t), t);
    SameMesh(pids, s, s');
    forall sid ensures SnapInv(pids, s', sid) {
      assert SnapInv(pids, s, sid);
      if sid == t {
        MarkerKeepsSnap(pids, s, from, p, t);
      } else {
        OtherMarkerIsQuiet(pids, s, from, p, t, sid);
        QuietStep(pids, s, s', sid);
      }
    }
  }

  lemma DeliverKeepsInv(pids: set<Pid>, s: Sys, from: Pid, p: Pid, m: App)
    requires SysInv(pids, s) && Possible(s, Arrive(from, p)) && s.channels[ChannelKey(from, p)][0] == Message(m)
    ensures SysInv(pids, DoDeliver(s, from, p, m))
  {
    var s' := DoDeliver(s, from, p, m);
    MessageView(s.coord, p, from, m);
    SameMesh(pids, s, s');
    forall sid ensures SnapInv(pids, s', sid) {
      assert SnapInv(pids, s, sid);
      DeliveryIsQuiet(pids, s, from, p, m, sid);
      QuietStep(pids, s, s', sid);
    }
  }

  lemma LocalKeepsInv(pids: set<Pid>, s: Sys, e: SysStep)
    requires SysInv(pids, s) && Possible(s, e) && (e.Compute? || e.SendMessage?)
    ensures SysInv(pids, Do(s, e))
  {
    var s' := Do(s, e);
    SameMesh(pids, s, s');
    forall sid ensures SnapInv(pids, s', sid) {
      assert SnapInv(pids, s, sid);
      if e.SendMessage? {
        SendIsQuiet(pids, s, e.p, e.to, sid);
        QuietStep(pids, s, s', sid);
      }
    }
  }

  lemma DoKeepsInv(pids: set<Pid>, s: Sys, e: SysStep)
    requires SysInv(pids, s) && |pids| >= 2
    ensures SysInv(pids, Do(s, e))
  {
    if Possible(s, e) {
      match e
      case Compute(_) => LocalKeepsInv(pids, s, e);
      case SendMessage(_, _) => LocalKeepsInv(pids, s, e);
      case Initiate(p, sid) => InitiateKeepsInv(pids, s, p, sid);
      case Arrive(from, p) =>
        match s.channels[ChannelKey(from, p)][0]
        case Message(m) => DeliverKeepsInv(pids, s, from, p, m);
        case Marker(sid) => MarkerKeepsInv(pids, s, from, p, sid);
    }
  }

  ghost predicate FreshMesh(all: set<Pid>, c: Coordinator) {
    && c.procs.Keys == all && c.snapshots == map[] && c.completions == []
    && forall p :: p in all ==> PeersOk(all, p, c.procs[p].peers) && c.procs[p].parts == map[]
  }

  lemma OnePeerMore(all: set<Pid>, p: Pid, peers: seq<Pid>, last: Pid)
    requires PeersOk(all, p, peers) && last !in all && p in all
    ensures last !in peers && PeersOk(all + {last}, p, peers + [last])
  {}

  lemma LastPeers(init: seq<Pid>, last: Pid)
    requires NoRepeat(init) && last !in init
    ensures PeersOk(Members(init) + {last}, last, init)
  {}

  lemma RegisteredView(c: Coordinator, init: seq<Pid>, last: Pid)
    requires last !in c.procs
    ensures var c' := Registered(c, last, init);
            && c'.procs.Keys == c.procs.Keys + {last} && c'.snapshots == c.snapshots && c'.completions == c.completions
            && c'.procs[last] == ProcessSnapshots(init, map[])
            && forall p :: p in c.procs ==> c'.procs[p] == AddedPeer(c.procs[p], last)
  {}

  lemma RegisteredMesh(c: Coordinator, init: seq<Pid>, last: Pid)
    requires NoRepeat(init) && last !in init && FreshMesh(Members(init), c)
    ensures FreshMesh(Members(init) + {last}, Registered(c, last, init))
  {
    var all := Members(init);
    var c' := Registered(c, last, init);
    RegisteredView(c, init, last);
    forall p | p in all + {last}
      ensures PeersOk(all + {last}, p, c'.procs[p].peers) && c'.procs[p].parts == map[]
    {
      if p == last {
        LastPeers(init, last);
      } else {
        OnePeerMore(all, p, c.procs[p].peers, last);
      }
    }
  }

  /** Registering each process with those spawned before it ends in the full mesh. */
  lemma {:induction false} SpawnedMesh(pids: seq<Pid>)
    requires NoRepeat(pids)
    ensures FreshMesh(Members(pids), Spawned(pids))
  {
    if pids != [] {
      var init, last := pids[..|pids| - 1], pids[|pids| - 1];
      SpawnedMesh(init);
      assert pids == init + [last];
      RegisteredMesh(Spawned(init), init, last);
      assert Members(pids) == Members(init) + {last};
    }
  }

  lemma StartInv(pids: seq<Pid>)
    requires NoRepeat(pids)
    ensures SysInv(Members(pids), Start(pids))
  {
    var s := Start(pids);
    SpawnedMesh(pids);
    assert forall p :: p in Members(pids) ==> PeersOk(Members(pids), p, s.coord.procs[p].peers);
    forall sid ensures SnapInv(Members(pids), s, sid) {
      StartSnap(Members(pids), s, sid);
    }
  }

  lemma StartSnap(all: set<Pid>, s: Sys, sid: Sid)
    requires FreshMesh(all, s.coord)
    requires forall i, j :: i in all && j in all && i != j ==>
               ChannelKey(i, j) in s.channels && s.channels[ChannelKey(i, j)] == []
    ensures SnapInv(all, s, sid)
  {}

  lemma {:induction false} ReachableInv(pids: seq<Pid>, steps: seq<SysStep>)
    requires NoRepeat(pids) && |pids| >= 2
    ensures SysInv(Members(pids), After(pids, steps))
  {
    if steps == [] {
      StartInv(pids);
    } else {
      ReachableInv(pids, steps[..|steps| - 1]);
      TwoMembers(pids);
      DoKeepsInv(Members(pids), After(pids, steps[..|steps| - 1]), steps[|steps| - 1]);
    }
  }

  lemma TwoMembers(pids: seq<Pid>)
    requires NoRepeat(pids) && |pids| >= 2
    ensures |Members(pids)| >= 2
  {
    SubsetSize({pids[0], pids[1]}, Members(pids));
  }
}
