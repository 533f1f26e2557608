/** The snapshot coordinator (Chandy and Lamport 1985): any number of concurrent snapshots, each a small
    role machine per process.

    The functions give the meaning of each operation on the coordinator as a value; the class below
    performs them in place. Sending a marker is a callback: an operation yields the processes to send
    markers to, and the class logs the calls.
 */
module Snapshots {
  import opened VectorClock

  /** Snapshot ids; they come from a nanosecond clock and are taken to be distinct. */
  datatype Sid = Sid(nanos: nat)

  /** An application message with the sender's clock at the send. */
  datatype App = App(id: nat, from: Pid, to: Pid, stamp: Clock)

  /** The local state of a process. The clock is what the process reports; the message logs are history
      variables that say which messages the state reflects. */
  datatype Local = Local(clock: Clock, messageSeq: nat, sent: map<Pid, seq<App>>, received: map<Pid, seq<App>>)

  datatype Role = NotParticipating | Initiator | Participant | Done

  /** What was recorded on one incoming channel. */
  datatype Channel = Channel(from: Pid, messages: seq<App>, finalized: bool)

  /** One process's part in one snapshot. */
  datatype Part = Part(role: Role, local: Local, channels: map<Pid, Channel>)

  datatype ProcessSnapshots = ProcessSnapshots(peers: seq<Pid>, parts: map<Sid, Part>)

  datatype LocalSnapshot =
    LocalSnapshot(pid: Pid, local: Local, channels: map<Pid, Channel>, finalized: bool, sid: Sid)

  datatype GlobalSnapshot =
    GlobalSnapshot(sid: Sid, initiator: Pid, locals: map<Pid, LocalSnapshot>, complete: bool)

  /** `completions` logs the completion callback. */
  datatype Coordinator =
    Coordinator(snapshots: map<Sid, GlobalSnapshot>, procs: map<Pid, ProcessSnapshots>, completions: seq<Sid>)

  // ---- One process, one snapshot ----

  function OpenAll(peers: seq<Pid>): map<Pid, Channel> {
    map p | p in peers :: Channel(p, [], false)
  }

  /** The first marker: its channel is empty, recording starts on the others. */
  function FirstMarker(prior: Part, peers: seq<Pid>, from: Pid, captured: Local): Part {
    Part(Participant, captured, OpenAll(peers) + prior.channels + map[from := Channel(from, [], true)])
  }

  /** A later marker closes its channel. */
  function LaterMarker(part: Part, from: Pid): Part {
    var channel := if from in part.channels then part.channels[from].(finalized := true) else Channel(from, [], true);
    part.(channels := part.channels[from := channel])
  }

  predicate AllFinal(peers: seq<Pid>, channels: map<Pid, Channel>) {
    forall p :: p in peers ==> p in channels && channels[p].finalized
  }

  function Recorded(part: Part, from: Pid, m: App): Part {
    if from in part.channels && !part.channels[from].finalized then
      var channel := part.channels[from];
      part.(channels := part.channels[from := channel.(messages := channel.messages + [m])])
    else part
  }

  predicate Active(part: Part) {
    part.role != NotParticipating && part.role != Done
  }

  // ---- The coordinator ----

  function WithPart(c: Coordinator, p: Pid, sid: Sid, part: Part): Coordinator
    requires p in c.procs
  {
    c.(procs := c.procs[p := c.procs[p].(parts := c.procs[p].parts[sid := part])])
  }

  predicate AllReported(procs: set<Pid>, locals: map<Pid, LocalSnapshot>) {
    forall p :: p in procs ==> p in locals && locals[p].finalized
  }

  /** The report of a finished process reaches the global snapshot, which completes with the last one. */
  function Reported(c: Coordinator, sid: Sid, p: Pid, part: Part): Coordinator {
    if sid !in c.snapshots then c
    else
      var gs := c.snapshots[sid];
      var locals := gs.locals[p := LocalSnapshot(p, part.local, part.channels, true, sid)];
      if AllReported(c.procs.Keys, locals) then
        c.(snapshots := c.snapshots[sid := gs.(locals := locals, complete := true)],
           completions := c.completions + [sid])
      else c.(snapshots := c.snapshots[sid := gs.(locals := locals)])
  }

  function CheckedFinal(c: Coordinator, sid: Sid, p: Pid): Coordinator {
    if p !in c.procs || sid !in c.procs[p].parts then c
    else
      var part := c.procs[p].parts[sid];
      if part.role != Done && !AllFinal(c.procs[p].peers, part.channels) then c
      else Reported(WithPart(c, p, sid, part.(role := Done)), sid, p, part)
  }

  /** A new snapshot is registered even when its initiator turns out to be unknown. */
  function Initiated(c: Coordinator, p: Pid, sid: Sid, captured: Local): Coordinator {
    var c' := c.(snapshots := c.snapshots[sid := GlobalSnapshot(sid, p, map[], false)]);
    if p !in c.procs then c'
    else WithPart(c', p, sid, Part(Initiator, captured, OpenAll(c.procs[p].peers)))
  }

  function PriorPart(ps: ProcessSnapshots, sid: Sid, captured: Local): Part {
    if sid in ps.parts then ps.parts[sid] else Part(NotParticipating, captured, map[])
  }

  function AfterMarker(part: Part, peers: seq<Pid>, from: Pid, captured: Local): Part {
    match part.role
    case NotParticipating => FirstMarker(part, peers, from, captured)
    case Participant => Settled(LaterMarker(part, from), peers)
    case Initiator => Settled(LaterMarker(part, from), peers)
    case Done => part
  }

  function Settled(part: Part, peers: seq<Pid>): Part {
    if AllFinal(peers, part.channels) then part.(role := Done) else part
  }

  function MarkerHandled(c: Coordinator, p: Pid, from: Pid, sid: Sid, captured: Local): Coordinator {
    if p !in c.procs then c
    else
      var prior := PriorPart(c.procs[p], sid, captured);
      var c' := WithPart(c, p, sid, AfterMarker(prior, c.procs[p].peers, from, captured));
      if prior.role == Done then c' else CheckedFinal(c', sid, p)
  }

  /** A marker is forwarded to every peer exactly when it is the first one of its snapshot. */
  function MarkerForwards(c: Coordinator, p: Pid, sid: Sid): seq<Pid> {
    if p in c.procs && (sid !in c.procs[p].parts || c.procs[p].parts[sid].role == NotParticipating)
    then c.procs[p].peers else []
  }

  function MessageRecorded(c: Coordinator, sid: Sid, p: Pid, from: Pid, m: App): Coordinator {
    if p in c.procs && sid in c.procs[p].parts then WithPart(c, p, sid, Recorded(c.procs[p].parts[sid], from, m))
    else c
  }

  /** A delivered message is recorded for every active snapshot of its receiver. */
  function RecordedInAll(parts: map<Sid, Part>, from: Pid, m: App): map<Sid, Part> {
    map sid | sid in parts :: if Active(parts[sid]) then Recorded(parts[sid], from, m) else parts[sid]
  }

  function MessageSeen(c: Coordinator, p: Pid, from: Pid, m: App): Coordinator {
    if p in c.procs then
      c.(procs := c.procs[p := c.procs[p].(parts := RecordedInAll(c.procs[p].parts, from, m))])
    else c
  }

  // ---- Registration ----

  function AddedPeer(ps: ProcessSnapshots, pid: Pid): ProcessSnapshots {
    if pid in ps.peers then ps else ps.(peers := ps.peers + [pid])
  }

  function Registered(c: Coordinator, pid: Pid, peers: seq<Pid>): Coordinator {
    c.(procs := (map q | q in c.procs && q != pid :: AddedPeer(c.procs[q], pid))
                + map[pid := ProcessSnapshots(peers, map[])])
  }

  /** The registration with the processes in `others` still to be told. */
  ghost predicate RegisteredBut(was: map<Pid, ProcessSnapshots>, pid: Pid, peers: seq<Pid>, others: set<Pid>,
                                procs: map<Pid, ProcessSnapshots>)
  {
    && procs.Keys == was.Keys + {pid}
    && forall q :: q in procs ==>
         procs[q] == (if q == pid then ProcessSnapshots(peers, map[])
                      else if q in others then was[q] else AddedPeer(was[q], pid))
  }

  lemma RegisteredAll(c: Coordinator, pid: Pid, peers: seq<Pid>, procs: map<Pid, ProcessSnapshots>)
    requires RegisteredBut(c.procs, pid, peers, {}, procs)
    ensures procs == Registered(c, pid, peers).procs
  {}

  // ---- What each operation does, by cases ----

  /** Registering replaces the process's own entry, forgets its parts, and adds it once to the peers of others. */
  lemma RegistrationCases(c: Coordinator, pid: Pid, peers: seq<Pid>, q: Pid)
    ensures var c' := Registered(c, pid, peers);
            && c'.snapshots == c.snapshots && c'.completions == c.completions
            && c'.procs.Keys == c.procs.Keys + {pid}
            && c'.procs[pid].peers == peers && c'.procs[pid].parts == map[]
            && (q in c.procs && q != pid ==>
                  && c'.procs[q].parts == c.procs[q].parts
                  && c'.procs[q].peers == c.procs[q].peers + if pid in c.procs[q].peers then [] else [pid])
  {}

  /** Initiating registers an empty snapshot, and opens an empty channel from every peer of a known initiator. */
  lemma InitiationCases(c: Coordinator, p: Pid, sid: Sid, captured: Local, q: Pid, t: Sid)
    ensures var c' := Initiated(c, p, sid, captured);
            && c'.completions == c.completions && c'.procs.Keys == c.procs.Keys
            && c'.snapshots.Keys == c.snapshots.Keys + {sid}
            && c'.snapshots[sid].initiator == p && c'.snapshots[sid].sid == sid
            && c'.snapshots[sid].locals == map[] && !c'.snapshots[sid].complete
            && (t in c.snapshots && t != sid ==> c'.snapshots[t] == c.snapshots[t])
            && (q in c.procs && q != p ==> c'.procs[q] == c.procs[q])
            && (p in c.procs ==>
                  && c'.procs[p].peers == c.procs[p].peers && c'.procs[p].parts.Keys == c.procs[p].parts.Keys + {sid}
                  && (t in c.procs[p].parts && t != sid ==> c'.procs[p].parts[t] == c.procs[p].parts[t])
                  && var part := c'.procs[p].parts[sid];
                     && part.role == Initiator && part.local == captured
                     && (q in part.channels <==> q in c.procs[p].peers)
                     && (q in part.channels ==>
                           part.channels[q].from == q && part.channels[q].messages == []
                           && !part.channels[q].finalized))
  {}

  lemma HandledPart(c: Coordinator, p: Pid, from: Pid, sid: Sid, captured: Local)
    requires p in c.procs && PriorPart(c.procs[p], sid, captured).role != Done
    ensures var c' := MarkerHandled(c, p, from, sid, captured);
            && p in c'.procs && c'.procs[p].peers == c.procs[p].peers && sid in c'.procs[p].parts
            && c'.procs[p].parts[sid] ==
               Settled(AfterMarker(PriorPart(c.procs[p], sid, captured), c.procs[p].peers, from, captured),
                       c.procs[p].peers)
  {}

  /** A part once a marker from `from` has been handled: the first one captures, closes its own channel empty and
      opens the others; a later one closes its channel with what it holds. The part is done when every peer's
      channel is closed. */
  ghost predicate MarkedBy(part: Part, prior: Part, peers: seq<Pid>, from: Pid, captured: Local) {
    var first := prior.role == NotParticipating;
    && part.local == (if first then captured else prior.local)
    && part.role == (if forall r :: r in peers ==> r in part.channels && part.channels[r].finalized then Done
                     else if first then Participant else prior.role)
    && part.channels.Keys == prior.channels.Keys + {from} + (if first then set r | r in peers else {})
    && part.channels[from].finalized
    && part.channels[from].messages == (if !first && from in prior.channels then prior.channels[from].messages else [])
    && (forall q :: q in part.channels && q != from ==>
          part.channels[q] == if q in prior.channels then prior.channels[q] else Channel(q, [], false))
  }

  lemma SettledMarked(prior: Part, peers: seq<Pid>, from: Pid, captured: Local)
    requires prior.role != Done
    ensures MarkedBy(Settled(AfterMarker(prior, peers, from, captured), peers), prior, peers, from, captured)
  {
    var part := Settled(AfterMarker(prior, peers, from, captured), peers);
    if prior.role == NotParticipating {
      assert part.channels == OpenAll(peers) + prior.channels + map[from := Channel(from, [], true)];
    } else {
      assert part.channels == LaterMarker(prior, from).channels;
    }
  }

  /** A marker to an unknown process, or after its end, changes nothing; any other marks the part. */
  lemma MarkerCases(c: Coordinator, p: Pid, from: Pid, sid: Sid, captured: Local)
    ensures var c' := MarkerHandled(c, p, from, sid, captured);
            if p !in c.procs || (sid in c.procs[p].parts && c.procs[p].parts[sid].role == Done) then c' == c
            else
              && p in c'.procs && c'.procs[p].peers == c.procs[p].peers && sid in c'.procs[p].parts
              && MarkedBy(c'.procs[p].parts[sid],
                          if sid in c.procs[p].parts then c.procs[p].parts[sid]
                          else Part(NotParticipating, captured, map[]),
                          c.procs[p].peers, from, captured)
  {
    if p in c.procs {
      if PriorPart(c.procs[p], sid, captured).role == Done {
        assert c.procs[p].parts[sid := c.procs[p].parts[sid]] == c.procs[p].parts;
        assert c.procs[p := c.procs[p].(parts := c.procs[p].parts)] == c.procs;
      } else {
        HandledPart(c, p, from, sid, captured);
        SettledMarked(PriorPart(c.procs[p], sid, captured), c.procs[p].peers, from, captured);
      }
    }
  }

  /** A message is appended to an open channel of a known part, and to nothing else. */
  lemma RecordingCases(c: Coordinator, sid: Sid, p: Pid, from: Pid, m: App, q: Pid)
    ensures var c' := MessageRecorded(c, sid, p, from, m);
            && c'.snapshots == c.snapshots && c'.completions == c.completions
            && if p in c.procs && sid in c.procs[p].parts then
                 && p in c'.procs && sid in c'.procs[p].parts
                 && var part, part' := c.procs[p].parts[sid], c'.procs[p].parts[sid];
                    && part'.role == part.role && part'.local == part.local && part'.channels.Keys == part.channels.Keys
                    && (q in part.channels ==>
                          && part'.channels[q].finalized == part.channels[q].finalized
                          && part'.channels[q].messages == part.channels[q].messages +
                             if q == from && !part.channels[q].finalized then [m] else [])
               else c' == c
  {}

  class SnapshotCoordinator {
    var snapshots: map<Sid, GlobalSnapshot>
    var procs: map<Pid, ProcessSnapshots>
    var completions: seq<Sid>
    /** Calls of the marker callback: sender, receiver, snapshot. */
    var markers: seq<(Pid, Pid, Sid)>

    constructor ()
      ensures View() == Coordinator(map[], map[], []) && markers == []
    {
      snapshots, procs, completions, markers := map[], map[], [], [];
    }

    ghost function View(): Coordinator
      reads this
    {
      Coordinator(snapshots, procs, completions)
    }

    method RegisterProcess(pid: Pid, peers: seq<Pid>)
      modifies this`procs
      ensures View() == Registered(old(View()), pid, peers)
    {
      ghost var was := procs;
      procs := procs[pid := ProcessSnapshots(peers, map[])];
      var others := procs.Keys - {pid};
      while others != {}
        invariant others <= was.Keys - {pid} && RegisteredBut(was, pid, peers, others, procs)
      {
        var q :| q in others;
        others := others - {q};
        if pid !in procs[q].peers {
          procs := procs[q := procs[q].(peers := procs[q].peers + [pid])];
        }
      }
      RegisteredAll(Coordinator(snapshots, was, completions), pid, peers, procs);
    }

    method SendMarkers(from: Pid, peers: seq<Pid>, sid: Sid)
      modifies this`markers
      ensures markers == old(markers) + MarkersTo(from, peers, sid)
    {
      for i := 0 to |peers|
        invariant markers + MarkersTo(from, peers[i..], sid) == old(markers) + MarkersTo(from, peers, sid)
      {
        markers := markers + [(from, peers[i], sid)];
      }
    }

    method Initiate(p: Pid, sid: Sid, captured: Local) returns (known: bool)
      modifies this`snapshots, this`procs, this`markers
      ensures known == (p in old(procs))
      ensures View() == Initiated(old(View()), p, sid, captured)
      ensures markers == old(markers) + if known then MarkersTo(p, old(procs)[p].peers, sid) else []
    {
      snapshots := snapshots[sid := GlobalSnapshot(sid, p, map[], false)];
      if p !in procs {
        return false;
      }
      var peers := procs[p].peers;
      var channels: map<Pid, Channel> := map[];
      for i := 0 to |peers|
        invariant channels == OpenAll(peers[..i])
      {
        channels := channels[peers[i] := Channel(peers[i], [], false)];
      }
      assert peers[..|peers|] == peers;
      procs := procs[p := procs[p].(parts := procs[p].parts[sid := Part(Initiator, captured, channels)])];
      SendMarkers(p, peers, sid);
      known := true;
    }

    method ScanFinal(peers: seq<Pid>, channels: map<Pid, Channel>) returns (done: bool)
      ensures done == AllFinal(peers, channels)
    {
      for i := 0 to |peers|
        invariant AllFinal(peers[..i], channels)
      {
        if peers[i] !in channels || !channels[peers[i]].finalized {
          return false;
        }
      }
      assert peers[..|peers|] == peers;
      done := true;
    }

    method IsComplete(locals: map<Pid, LocalSnapshot>, expected: set<Pid>) returns (complete: bool)
      ensures complete == AllReported(expected, locals)
      ensures complete <==> forall p :: p in expected ==> p in locals && locals[p].finalized
    {
      var todo := expected;
      while todo != {}
        invariant todo <= expected && AllReported(expected - todo, locals)
      {
        var p :| p in todo;
        if p !in locals || !locals[p].finalized {
          return false;
        }
        todo := todo - {p};
      }
      assert expected - todo == expected;
      complete := true;
    }

    method CheckFinalized(sid: Sid, p: Pid)
      modifies this`snapshots, this`procs, this`completions
      ensures View() == CheckedFinal(old(View()), sid, p)
    {
      if p !in procs || sid !in procs[p].parts {
        return;
      }
      var part := procs[p].parts[sid];
      if part.role != Done {
        var done := ScanFinal(procs[p].peers, part.channels);
        if !done {
          return;
        }
      }
      procs := procs[p := procs[p].(parts := procs[p].parts[sid := part.(role := Done)])];
      if sid !in snapshots {
        return;
      }
      var gs := snapshots[sid];
      gs := gs.(locals := gs.locals[p := LocalSnapshot(p, part.local, part.channels, true, sid)]);
      var complete := IsComplete(gs.locals, procs.Keys);
      if complete {
        gs := gs.(complete := true);
        completions := completions + [sid];
      }
      snapshots := snapshots[sid := gs];
    }

    method OnMarkerReceived(p: Pid, from: Pid, sid: Sid, captured: Local)
      modifies this
      ensures View() == MarkerHandled(old(View()), p, from, sid, captured)
      ensures markers == old(markers) + MarkersTo(p, MarkerForwards(old(View()), p, sid), sid)
    {
      if p !in procs {
        return;
      }
      var peers := procs[p].peers;
      var part := if sid in procs[p].parts then procs[p].parts[sid] else Part(NotParticipating, captured, map[]);
      match part.role
      case NotParticipating =>
        part := FirstMarker(part, peers, from, captured);
        procs := procs[p := procs[p].(parts := procs[p].parts[sid := part])];
        SendMarkers(p, peers, sid);
        CheckFinalized(sid, p);
      case Done =>
        procs := procs[p := procs[p].(parts := procs[p].parts[sid := part])];
      case _ =>
        part := LaterMarker(part, from);
        var done := ScanFinal(peers, part.channels);
        if done {
          part := part.(role := Done);
        }
        procs := procs[p := procs[p].(parts := procs[p].parts[sid := part])];
        CheckFinalized(sid, p);
    }

    method RecordMessage(sid: Sid, p: Pid, from: Pid, m: App)
      modifies this`procs
      ensures View() == MessageRecorded(old(View()), sid, p, from, m)
    {
      if p !in procs || sid !in procs[p].parts {
        return;
      }
      var part := procs[p].parts[sid];
      if from in part.channels && !part.channels[from].finalized {
        var channel := part.channels[from];
        part := part.(channels := part.channels[from := channel.(messages := channel.messages + [m])]);
      }
      procs := procs[p := procs[p].(parts := procs[p].parts[sid := part])];
    }

    method GetActiveSnapshotIDs(p: Pid) returns (ids: set<Sid>)
      ensures p in procs ==> forall sid :: sid in ids <==> sid in procs[p].parts && Active(procs[p].parts[sid])
      ensures p !in procs ==> ids == {}
      ensures p in procs ==> forall sid :: sid in ids <==>
                sid in procs[p].parts && procs[p].parts[sid].role in {Initiator, Participant}
    {
      ids := {};
      if p !in procs {
        return;
      }
      var parts := procs[p].parts;
      var todo := parts.Keys;
      while todo != {}
        invariant todo <= parts.Keys
        invariant forall sid :: sid in ids <==> sid in parts && sid !in todo && Active(parts[sid])
      {
        var sid :| sid in todo;
        todo := todo - {sid};
        if Active(parts[sid]) {
          ids := ids + {sid};
        }
      }
    }

    /** The delivery wrapper's loop: record for each active snapshot before the process sees the message. */
    method RecordForActive(p: Pid, from: Pid, m: App)
      modifies this`procs
      ensures View() == MessageSeen(old(View()), p, from, m)
    {
      var ids := GetActiveSnapshotIDs(p);
      ghost var parts := if p in procs then procs[p].parts else map[];
      var todo := ids;
      while todo != {}
        invariant todo <= ids && (ids != {} ==> p in procs)
        invariant p !in procs ==> procs == old(procs)
        invariant p in procs ==> p in old(procs)
        invariant p in procs ==> procs == old(procs)[p := old(procs)[p].(parts := procs[p].parts)]
        invariant p in procs ==> procs[p].parts.Keys == parts.Keys
        invariant forall sid :: p in procs && sid in parts ==>
          procs[p].parts[sid] == if sid in ids && sid !in todo then Recorded(parts[sid], from, m) else parts[sid]
      {
        var sid :| sid in todo;
        todo := todo - {sid};
        RecordMessage(sid, p, from, m);
      }
      assert p in procs ==> procs[p].parts == RecordedInAll(parts, from, m);
    }
  }

  function MarkersTo(from: Pid, peers: seq<Pid>, sid: Sid): seq<(Pid, Pid, Sid)> {
    if peers == [] then [] else [(from, peers[0], sid)] + MarkersTo(from, peers[1..], sid)
  }
}
