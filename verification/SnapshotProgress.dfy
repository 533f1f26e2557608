/** Markers and completion: how many markers a snapshot sends, what is left to happen, and when it ends. */
module SnapshotProgress {
  import opened Snapshots
  import opened FifoRuns
  import opened SnapshotRuns
  import opened SnapshotTheorems
  import opened VectorClock

  // ---- The marker log ----

  /** One marker on each outgoing channel of every process that has recorded, and no other. */
  ghost predicate LogOk(pids: set<Pid>, s: Sys) {
    forall i, j, sid :: multiset(s.markers)[(i, j, sid)] == LoggedOnce(pids, s, i, j, sid)
  }

  function LoggedOnce(pids: set<Pid>, s: Sys, i: Pid, j: Pid, sid: Sid): nat {
    if i in pids && j in pids && i != j && PartOf(s.coord, i, sid).HasPart? then 1 else 0
  }

  lemma {:induction false} MarkersToCount(p: Pid, peers: seq<Pid>, t: Sid, i: Pid, j: Pid, sid: Sid)
    requires NoRepeat(peers)
    ensures multiset(MarkersTo(p, peers, t))[(i, j, sid)] == if i == p && sid == t && j in peers then 1 else 0
    decreases |peers|
  {
    if peers != [] {
      MarkersToCount(p, peers[1..], t, i, j, sid);
      assert peers == [peers[0]] + peers[1..];
      assert multiset(MarkersTo(p, peers, t)) == multiset{(p, peers[0], t)} + multiset(MarkersTo(p, peers[1..], t));
    }
  }

  /** Markers go out exactly when their sender gets its part. */
  lemma LogGrows(pids: set<Pid>, s: Sys, s': Sys, p: Pid, peers: seq<Pid>, t: Sid, part: Part)
    requires LogOk(pids, s) && p in pids && PeersOk(pids, p, peers) && PartOf(s.coord, p, t) == NoPart
    requires OnlyPart(s.coord, s'.coord, p, t, HasPart(part)) && s'.markers == s.markers + MarkersTo(p, peers, t)
    ensures LogOk(pids, s')
  {
    forall i, j, sid ensures multiset(s'.markers)[(i, j, sid)] == LoggedOnce(pids, s', i, j, sid) {
      MarkersToCount(p, peers, t, i, j, sid);
      assert multiset(s.markers)[(i, j, sid)] == LoggedOnce(pids, s, i, j, sid);
      assert multiset(s'.markers) == multiset(s.markers) + multiset(MarkersTo(p, peers, t));
    }
  }

  lemma LogStays(pids: set<Pid>, s: Sys, s': Sys)
    requires LogOk(pids, s) && s'.markers == s.markers
    requires forall q, sid :: PartOf(s'.coord, q, sid).HasPart? == PartOf(s.coord, q, sid).HasPart?
    ensures LogOk(pids, s')
  {}

  lemma LogStep(pids: set<Pid>, s: Sys, e: SysStep)
    requires SysInv(pids, s) && LogOk(pids, s)
    ensures LogOk(pids, Do(s, e))
  {
    var s' := Do(s, e);
    if Possible(s, e) {
      match e
      case Compute(_) => LogStays(pids, s, s');
      case SendMessage(_, _) => LogStays(pids, s, s');
      case Initiate(p, t) =>
        var peers := s.coord.procs[p].peers;
        assert SnapInv(pids, s, t);
        InitiateView(s.coord, p, t, s.locals[p]);
        LogGrows(pids, s, s', p, peers, t, Part(Initiator, s.locals[p], OpenAll(peers)));
      case Arrive(from, p) =>
        match s.channels[ChannelKey(from, p)][0]
        case Message(m) =>
          MessageView(s.coord, p, from, m);
          LogStays(pids, s, s');
        case Marker(t) => LogMarker(pids, s, from, p, t);
    }
  }

  lemma LogMarker(pids: set<Pid>, s: Sys, from: Pid, p: Pid, t: Sid)
    requires SysInv(pids, s) && LogOk(pids, s) && Possible(s, Arrive(from, p))
    requires s.channels[ChannelKey(from, p)][0] == Marker(t)
    ensures LogOk(pids, DoMarker(s, from, p, t))
  {
    var s', peers := DoMarker(s, from, p, t), s.coord.procs[p].peers;
    assert SnapInv(pids, s, t);
    MarkerArrives(pids, s, from, p, t);
    MarkerView(s.coord, p, from, t, s.locals[p]);
    assert PartOk(peers, PartOf(s.coord, p, t));
    if PartOf(s.coord, p, t) == NoPart {
      LogGrows(pids, s, s', p, peers, t, MarkedPart(NoPart, peers, from, s.locals[p]));
    } else {
      assert s.markers + [] == s.markers;
      LogStays(pids, s, s');
    }
  }

  lemma {:induction false} ReachableLog(pids: seq<Pid>, steps: seq<SysStep>)
    requires NoRepeat(pids) && |pids| >= 2
    ensures LogOk(Members(pids), After(pids, steps))
  {
    if steps == [] {
      SpawnedMesh(pids);
    } else {
      ReachableLog(pids, steps[..|steps| - 1]);
      ReachableInv(pids, steps[..|steps| - 1]);
      LogStep(Members(pids), After(pids, steps[..|steps| - 1]), steps[|steps| - 1]);
    }
  }

  /** A completed snapshot has sent exactly one marker on every directed channel and none elsewhere. */
  lemma OneMarkerPerChannel(pids: seq<Pid>, steps: seq<SysStep>, sid: Sid, i: Pid, j: Pid)
    requires NoRepeat(pids) && |pids| >= 2 && Completed(After(pids, steps), sid)
    ensures multiset(After(pids, steps).markers)[(i, j, sid)] == if i in pids && j in pids && i != j then 1 else 0
  {
    ReachableLog(pids, steps);
    ReachableInv(pids, steps);
    CompletedParts(Members(pids), After(pids, steps), sid);
  }

  // ---- Progress ----

  /** The channels whose marker has not been taken: still to be sent, or under way. */
  function OpenChannels(s: Sys, sid: Sid): set<ChannelKey> {
    set key | key in s.channels && !Closed(PartOf(s.coord, key.to, sid), key.from)
  }

  /** Each arrival of a marker closes the one channel it came through; nothing else opens or closes any. */
  lemma MarkersCloseChannels(pids: set<Pid>, s: Sys, e: SysStep, sid: Sid)
    requires SysInv(pids, s) && Possible(s, e)
    ensures var key := if e.Arrive? then ChannelKey(e.from, e.p) else ChannelKey(e.p, e.p);
            if e.Arrive? && s.channels[key][0] == Marker(sid) then
              key in OpenChannels(s, sid) && OpenChannels(Do(s, e), sid) == OpenChannels(s, sid) - {key}
            else OpenChannels(Do(s, e), sid) == OpenChannels(s, sid)
  {
    assert SnapInv(pids, s, sid);
    match e
    case Compute(_) =>
    case SendMessage(_, _) =>
    case Initiate(p, t) => InitiationOpens(pids, s, p, t, sid);
    case Arrive(from, p) =>
      match s.channels[ChannelKey(from, p)][0]
      case Message(m) => DeliveryOpens(s, from, p, m, sid);
      case Marker(t) => MarkerCloses(pids, s, from, p, t, sid);
  }

  /** The open channels, when the parts of `p` alone may have changed. */
  lemma OpenAfter(s: Sys, s': Sys, p: Pid, sid: Sid, shut: set<Pid>)
    requires s'.channels.Keys == s.channels.Keys
    requires forall q :: q != p ==> PartOf(s'.coord, q, sid) == PartOf(s.coord, q, sid)
    requires forall i :: Closed(PartOf(s'.coord, p, sid), i) <==> Closed(PartOf(s.coord, p, sid), i) || i in shut
    ensures OpenChannels(s', sid) == OpenChannels(s, sid) - set i | i in shut :: ChannelKey(i, p)
  {}

  lemma InitiationOpens(pids: set<Pid>, s: Sys, p: Pid, t: Sid, sid: Sid)
    requires SysInv(pids, s) && Possible(s, Initiate(p, t))
    ensures OpenChannels(DoInitiate(s, p, t), sid) == OpenChannels(s, sid)
  {
    assert SnapInv(pids, s, t);
    InitiateView(s.coord, p, t, s.locals[p]);
    BroadcastAt(s.channels, p, s.coord.procs[p].peers, t);
    OpenAfter(s, DoInitiate(s, p, t), p, sid, {});
  }

  lemma DeliveryOpens(s: Sys, from: Pid, p: Pid, m: App, sid: Sid)
    requires Possible(s, Arrive(from, p)) && s.channels[ChannelKey(from, p)][0] == Message(m)
    ensures OpenChannels(DoDeliver(s, from, p, m), sid) == OpenChannels(s, sid)
  {
    MessageView(s.coord, p, from, m);
    OpenAfter(s, DoDeliver(s, from, p, m), p, sid, {});
  }

  lemma MarkerCloses(pids: set<Pid>, s: Sys, from: Pid, p: Pid, t: Sid, sid: Sid)
    requires SysInv(pids, s) && Possible(s, Arrive(from, p)) && s.channels[ChannelKey(from, p)][0] == Marker(t)
    ensures t == sid ==> ChannelKey(from, p) in OpenChannels(s, sid)
    ensures OpenChannels(DoMarker(s, from, p, t), sid)
            == OpenChannels(s, sid) - if t == sid then {ChannelKey(from, p)} else {}
  {
    assert SnapInv(pids, s, t);
    MarkerArrives(pids, s, from, p, t);
    MarkerClosesOne(s, from, p, t, sid);
  }

  lemma MarkerClosesOne(s: Sys, from: Pid, p: Pid, t: Sid, sid: Sid)
    requires Possible(s, Arrive(from, p)) && s.channels[ChannelKey(from, p)][0] == Marker(t)
    requires PartOk(s.coord.procs[p].peers, PartOf(s.coord, p, t)) && NoRepeat(s.coord.procs[p].peers)
    requires !IsDone(PartOf(s.coord, p, t))
    ensures OpenChannels(DoMarker(s, from, p, t), sid)
            == OpenChannels(s, sid) - if t == sid then {ChannelKey(from, p)} else {}
  {
    var key, s' := ChannelKey(from, p), DoMarker(s, from, p, t);
    BroadcastAt(s.channels[key := s.channels[key][1..]], p, MarkerForwards(s.coord, p, t), t);
    ClosedByMarker(s.coord, from, p, t, s.locals[p], sid);
    OpenAfter(s, s', p, sid, if t == sid then {from} else {});
  }

  /** What a marker closes. */
  lemma ClosedByMarker(c: Coordinator, from: Pid, p: Pid, t: Sid, captured: Local, sid: Sid)
    requires p in c.procs && !IsDone(PartOf(c, p, t)) && PartOk(c.procs[p].peers, PartOf(c, p, t))
    ensures var c' := MarkerHandled(c, p, from, t, captured);
            && (forall q :: q != p ==> PartOf(c', q, sid) == PartOf(c, q, sid))
            && forall i :: Closed(PartOf(c', p, sid), i) <==> Closed(PartOf(c, p, sid), i) || (t == sid && i == from)
  {
    MarkerView(c, p, from, t, captured);
    MarkedPartOk(PartOf(c, p, t), c.procs[p].peers, from, captured);
  }

  /** A snapshot that has started is complete exactly when every channel is closed, which is exactly when
      none of its markers is under way; its completion was then announced once, and before that never. */
  lemma CompleteWhenNoMarkerIsLeft(pids: set<Pid>, s: Sys, sid: Sid)
    requires SysInv(pids, s) && |pids| >= 2 && sid in s.coord.snapshots
    ensures Completed(s, sid) <==> OpenChannels(s, sid) == {}
    ensures Completed(s, sid) <==> forall key :: key in s.channels ==> MarkerCount(s.channels[key], sid) == 0
    ensures multiset(s.coord.completions)[sid] == if Completed(s, sid) then 1 else 0
  {
    assert SnapInv(pids, s, sid);
    if Completed(s, sid) {
      CompletedParts(pids, s, sid);
      forall key | key in s.channels ensures MarkerCount(s.channels[key], sid) == 0 {
        ChannelAt(pids, s, sid, key);
      }
    }
    if OpenChannels(s, sid) == {} {
      forall key | key in s.channels ensures MarkerCount(s.channels[key], sid) == 0 {
        ChannelAt(pids, s, sid, key);
        assert key !in OpenChannels(s, sid);
      }
    }
    if forall key :: key in s.channels ==> MarkerCount(s.channels[key], sid) == 0 {
      NoMarkerAllDone(pids, s, sid);
    }
  }

  lemma ChannelAt(pids: set<Pid>, s: Sys, sid: Sid, key: ChannelKey)
    requires SysInv(pids, s) && key in s.channels
    ensures key.from in pids && key.to in pids && key.from != key.to
    ensures ChannelOk(sid, key.from, PartOf(s.coord, key.from, sid), PartOf(s.coord, key.to, sid), s.channels[key])
  {
    assert SnapInv(pids, s, sid);
    assert key == ChannelKey(key.from, key.to);
  }

  lemma NoMarkerAllRecorded(pids: set<Pid>, s: Sys, sid: Sid, p: Pid)
    requires SysInv(pids, s) && sid in s.coord.snapshots && p in pids
    requires forall key :: key in s.channels ==> MarkerCount(s.channels[key], sid) == 0
    ensures PartOf(s.coord, p, sid).HasPart?
  {
    assert SnapInv(pids, s, sid);
    var a := s.coord.snapshots[sid].initiator;
    if p != a { ChannelAt(pids, s, sid, ChannelKey(a, p)); }
  }

  /** With no marker under way, recording has spread from the initiator to everyone and every channel is
      closed. */
  lemma NoMarkerAllDone(pids: set<Pid>, s: Sys, sid: Sid)
    requires SysInv(pids, s) && |pids| >= 2 && sid in s.coord.snapshots
    requires forall key :: key in s.channels ==> MarkerCount(s.channels[key], sid) == 0
    ensures Completed(s, sid)
  {
    assert SnapInv(pids, s, sid);
    forall p | p in pids ensures IsDone(PartOf(s.coord, p, sid)) {
      NoMarkerDone(pids, s, sid, p);
    }
    ReportsOfDone(pids, s.coord, sid);
  }

  lemma NoMarkerDone(pids: set<Pid>, s: Sys, sid: Sid, p: Pid)
    requires SysInv(pids, s) && sid in s.coord.snapshots && p in pids
    requires forall key :: key in s.channels ==> MarkerCount(s.channels[key], sid) == 0
    ensures IsDone(PartOf(s.coord, p, sid))
  {
    assert SnapInv(pids, s, sid);
    var peers := s.coord.procs[p].peers;
    NoMarkerAllRecorded(pids, s, sid, p);
    assert PartOk(peers, PartOf(s.coord, p, sid));
    assert PeersOk(pids, p, peers);
    forall q | q in peers ensures Closed(PartOf(s.coord, p, sid), q) {
      NoMarkerAllRecorded(pids, s, sid, q);
      ChannelAt(pids, s, sid, ChannelKey(q, p));
    }
  }

  lemma ReportsOfDone(pids: set<Pid>, c: Coordinator, sid: Sid)
    requires ReportOk(pids, c, sid) && sid in c.snapshots
    requires forall p :: p in pids ==> IsDone(PartOf(c, p, sid))
    ensures c.snapshots[sid].complete
  {}

  // ---- The number of channels ----

  function Pairs(pids: set<Pid>): set<ChannelKey> {
    set i, j | i in pids && j in pids && i != j :: ChannelKey(i, j)
  }

  lemma {:induction false} FanSize(p: Pid, others: set<Pid>)
    requires p !in others
    ensures |set q | q in others :: ChannelKey(p, q)| == |others| == |set q | q in others :: ChannelKey(q, p)|
    decreases |others|
  {
    if others != {} {
      var q :| q in others;
      var rest := others - {q};
      FanSize(p, rest);
      assert (set r | r in others :: ChannelKey(p, r)) == (set r | r in rest :: ChannelKey(p, r)) + {ChannelKey(p, q)};
      assert (set r | r in others :: ChannelKey(r, p)) == (set r | r in rest :: ChannelKey(r, p)) + {ChannelKey(q, p)};
    }
  }

  lemma PairsOfOneMore(p: Pid, rest: set<Pid>)
    requires p !in rest
    ensures |Pairs(rest + {p})| == |Pairs(rest)| + 2 * |rest|
  {
    FanSize(p, rest);
    var out, into := set q | q in rest :: ChannelKey(p, q), set q | q in rest :: ChannelKey(q, p);
    assert Pairs(rest + {p}) == Pairs(rest) + out + into;
    assert Pairs(rest) !! out && (Pairs(rest) + out) !! into;
  }

  /** N processes have N(N-1) directed channels, so a snapshot sends that many markers. */
  lemma {:induction false} ChannelTotal(pids: set<Pid>)
    ensures |Pairs(pids)| == |pids| * (|pids| - 1)
    decreases |pids|
  {
    if pids != {} {
      var p :| p in pids;
      var rest := pids - {p};
      ChannelTotal(rest);
      PairsOfOneMore(p, rest);
      assert rest + {p} == pids;
      Grow(|rest|);
    }
  }

  lemma Grow(n: nat)
    ensures n * (n - 1) + 2 * n == (n + 1) * n
  {}

  lemma ChannelsAreAllPairs(pids: set<Pid>, s: Sys)
    requires SysMesh(pids, s)
    ensures s.channels.Keys == Pairs(pids) && |s.channels| == |pids| * (|pids| - 1)
  {
    ChannelTotal(pids);
    forall key ensures key in s.channels <==> key in Pairs(pids) {
      assert key == ChannelKey(key.from, key.to);
    }
    assert |s.channels| == |s.channels.Keys|;
  }

  /** The channels on which markers of the snapshot were logged, in the order of the log. */
  function MarkersOf(markers: seq<(Pid, Pid, Sid)>, sid: Sid): seq<ChannelKey> {
    if markers == [] then []
    else (if markers[0].2 == sid then [ChannelKey(markers[0].0, markers[0].1)] else []) + MarkersOf(markers[1..], sid)
  }

  lemma {:induction false} MarkersOfCount(markers: seq<(Pid, Pid, Sid)>, sid: Sid, key: ChannelKey)
    ensures multiset(MarkersOf(markers, sid))[key] == multiset(markers)[(key.from, key.to, sid)]
  {
    if markers != [] {
      MarkersOfCount(markers[1..], sid, key);
      assert markers == [markers[0]] + markers[1..];
    }
  }

  lemma SameSize(keys: seq<ChannelKey>, pairs: set<ChannelKey>)
    requires multiset(keys) == multiset(pairs)
    ensures |keys| == |pairs|
  {
    assert |multiset(keys)| == |keys| && |multiset(pairs)| == |pairs|;
  }

  /** A completed snapshot of N processes has sent exactly N(N-1) markers. */
  lemma MarkerTotal(pids: seq<Pid>, steps: seq<SysStep>, sid: Sid)
    requires NoRepeat(pids) && |pids| >= 2 && Completed(After(pids, steps), sid)
    ensures |MarkersOf(After(pids, steps).markers, sid)| == |pids| * (|pids| - 1)
  {
    hide After, Completed;
    var markers := After(pids, steps).markers;
    forall key ensures multiset(MarkersOf(markers, sid))[key] == multiset(Pairs(Members(pids)))[key] {
      MarkersOfCount(markers, sid, key);
      OneMarkerPerChannel(pids, steps, sid, key.from, key.to);
      assert key == ChannelKey(key.from, key.to);
    }
    SameSize(MarkersOf(markers, sid), Pairs(Members(pids)));
    ChannelTotal(Members(pids));
    MembersSize(pids);
  }

  lemma {:induction false} MembersSize(pids: seq<Pid>)
    requires NoRepeat(pids)
    ensures |Members(pids)| == |pids|
    decreases |pids|
  {
    if pids != [] {
      var init, last := pids[..|pids| - 1], pids[|pids| - 1];
      MembersSize(init);
      assert pids == init + [last];
      assert Members(pids) == Members(init) + {last} && last !in Members(init);
    }
  }

  // ---- A lone process ----

  /** With one process there is nobody to send a marker back, and completion is only ever checked when a
      marker arrives: its snapshots stay incomplete for ever. */
  lemma {:induction false} LoneSnapshotNeverCompletes(p: Pid, steps: seq<SysStep>)
    ensures var s := After([p], steps);
            && s.channels == map[] && s.coord.completions == []
            && forall sid :: sid in s.coord.snapshots ==> !s.coord.snapshots[sid].complete
  {
    if steps == [] {
      SpawnedMesh([p]);
      assert Start([p]).channels.Keys == {};
    } else {
      var s, e := After([p], steps[..|steps| - 1]), steps[|steps| - 1];
      LoneSnapshotNeverCompletes(p, steps[..|steps| - 1]);
      if Possible(s, e) && e.Initiate? {
        InitiateView(s.coord, e.p, e.sid, s.locals[e.p]);
        LoneBroadcast(e.p, s.coord.procs[e.p].peers, e.sid);
      }
    }
  }

  lemma {:induction false} LoneBroadcast(p: Pid, peers: seq<Pid>, sid: Sid)
    ensures Broadcast(map[], p, peers, sid) == map[]
    decreases |peers|
  {
    if peers != [] { LoneBroadcast(p, peers[1..], sid); }
  }
}
