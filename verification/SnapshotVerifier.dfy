/** The consistency check on a snapshot's reports, and what its verdict means. */
module SnapshotVerifier {
  import opened VectorClock
  import opened Snapshots
  import opened FifoRuns
  import opened SnapshotRuns
  import opened SnapshotCuts
  import opened SnapshotTheorems
  import R = Runs

  /** The sender's report is there and its clock, if it has one, has reached the message's send. The empty map
      stands for no vector clock. */
  predicate Vouched(locals: map<Pid, LocalSnapshot>, from: Pid, m: App) {
    from in locals && (locals[from].local.clock == map[] || Get(locals[from].local.clock, from) >= Get(m.stamp, from))
  }

  predicate ChannelVouched(locals: map<Pid, LocalSnapshot>, from: Pid, ms: seq<App>) {
    forall k :: 0 <= k < |ms| ==> Vouched(locals, from, ms[k])
  }

  predicate ReportVouched(locals: map<Pid, LocalSnapshot>, report: LocalSnapshot) {
    forall from :: from in report.channels ==> ChannelVouched(locals, from, report.channels[from].messages)
  }

  /** The verdict: an unfinished report is no inconsistency; otherwise every recorded message is vouched for. */
  predicate Consistent(locals: map<Pid, LocalSnapshot>) {
    (exists p :: p in locals && !locals[p].finalized) || forall p :: p in locals ==> ReportVouched(locals, locals[p])
  }

  /** The report has the message in its state of the channel from `from`. */
  predicate HasRecorded(report: LocalSnapshot, from: Pid, m: App) {
    from in report.channels && m in report.channels[from].messages
  }

  lemma ReportVerdictIs(locals: map<Pid, LocalSnapshot>, report: LocalSnapshot)
    ensures ReportVouched(locals, report) <==>
            forall from, m :: HasRecorded(report, from, m) ==> Vouched(locals, from, m)
  {
    if forall from, m :: HasRecorded(report, from, m) ==> Vouched(locals, from, m) {
      forall from | from in report.channels ensures ChannelVouched(locals, from, report.channels[from].messages) {
        forall k | 0 <= k < |report.channels[from].messages|
          ensures Vouched(locals, from, report.channels[from].messages[k])
        {
          assert HasRecorded(report, from, report.channels[from].messages[k]);
        }
      }
    }
  }

  lemma VerdictIs(locals: map<Pid, LocalSnapshot>)
    ensures Consistent(locals) <==>
            (exists p :: p in locals && !locals[p].finalized) ||
            forall p, from, m {:trigger HasRecorded(locals[p], from, m)} ::
              p in locals && HasRecorded(locals[p], from, m) ==> Vouched(locals, from, m)
  {
    forall p | p in locals { ReportVerdictIs(locals, locals[p]); }
  }

  method VerifyReport(locals: map<Pid, LocalSnapshot>, report: LocalSnapshot) returns (ok: bool)
    ensures ok == ReportVouched(locals, report)
    ensures !ok <==> exists from, m :: HasRecorded(report, from, m)
                                       && (from in locals ==>
                                             && locals[from].local.clock != map[]
                                             && Get(locals[from].local.clock, from) < Get(m.stamp, from))
  {
    ReportVerdictIs(locals, report);
    ok := true;
    var todo := report.channels.Keys;
    while todo != {}
      invariant todo <= report.channels.Keys
      invariant ok <==> forall from :: from in report.channels && from !in todo ==>
                          ChannelVouched(locals, from, report.channels[from].messages)
    {
      var from :| from in todo;
      var ms := report.channels[from].messages;
      ghost var before := ok;
      for k := 0 to |ms|
        invariant ok <==> before && forall l :: 0 <= l < k ==> Vouched(locals, from, ms[l])
      {
        if from !in locals {
          assert !Vouched(locals, from, ms[k]);
          ok := false;
          continue;
        }
        var clock := locals[from].local.clock;
        if ms[k].stamp != map[] && clock != map[] && Get(clock, from) < Get(ms[k].stamp, from) {
          assert !Vouched(locals, from, ms[k]);
          ok := false;
        }
      }
      assert ok <==> before && ChannelVouched(locals, from, ms);
      todo := todo - {from};
    }
  }

  method Verify(gs: GlobalSnapshot) returns (consistent: bool)
    ensures consistent == Consistent(gs.locals)
    ensures !consistent <==>
              (forall p :: p in gs.locals ==> gs.locals[p].finalized) &&
              exists p, from, m {:trigger HasRecorded(gs.locals[p], from, m)} ::
                p in gs.locals && HasRecorded(gs.locals[p], from, m)
                && (from in gs.locals ==>
                      && gs.locals[from].local.clock != map[]
                      && Get(gs.locals[from].local.clock, from) < Get(m.stamp, from))
  {
    VerdictIs(gs.locals);
    var todo := gs.locals.Keys;
    while todo != {}
      invariant todo <= gs.locals.Keys
      invariant forall p :: p in gs.locals && p !in todo ==> gs.locals[p].finalized
    {
      var p :| p in todo;
      todo := todo - {p};
      if !gs.locals[p].finalized {
        return true;
      }
    }
    consistent := true;
    todo := gs.locals.Keys;
    while todo != {}
      invariant todo <= gs.locals.Keys
      invariant consistent <==> forall p :: p in gs.locals && p !in todo ==> ReportVouched(gs.locals, gs.locals[p])
    {
      var p :| p in todo;
      var ok := VerifyReport(gs.locals, gs.locals[p]);
      consistent := consistent && ok;
      todo := todo - {p};
    }
  }

  // ---- The verdict on any reports of a run ----

  /** The message was sent by event `b` of `from`. */
  ghost predicate SentBy(pids: set<Pid>, h: R.Run, b: nat, from: Pid, m: App)
    requires R.Valid(pids, h)
  {
    b < |h| && h[b].at == from && m.stamp == R.Stamp(pids, h, b)
  }

  lemma {:induction false} OwnClockIsStored(pids: set<Pid>, h: R.Run, n: nat, p: Pid)
    requires R.Valid(pids, h) && n <= |h| && p in pids
    ensures p in R.ClockAt(pids, h, n, p)
    decreases n
  {
    if n > 0 && h[n - 1].at != p { OwnClockIsStored(pids, h, n - 1, p); }
  }

  /** A message is accepted from a sender who reports its clock after `n` events of the run exactly when it was
      sent by one of these. */
  lemma MessageVerdict(pids: set<Pid>, h: R.Run, n: nat, from: Pid, b: nat, m: App, locals: map<Pid, LocalSnapshot>)
    requires R.Valid(pids, h) && n <= |h| && SentBy(pids, h, b, from, m)
    requires from in locals && locals[from].local.clock == R.ClockAt(pids, h, n, from)
    ensures Vouched(locals, from, m) <==> b < n
  {
    assert R.ValidEvent(pids, h[..b], h[b]);
    OwnClockIsStored(pids, h, n, from);
    R.ClockBound(pids, h, n, from, from);
    R.StampBound(pids, h, b, from);
    if b < n {
      R.CountMonotone(h, b + 1, n, from);
    } else {
      R.CountMonotone(h, n, b + 1, from);
    }
  }

  /** Finished reports that processes of the run give after `cut[p]` events, with messages recorded in whatever
      way. */
  ghost predicate ReportsOfRun(pids: set<Pid>, h: R.Run, cut: map<Pid, nat>, locals: map<Pid, LocalSnapshot>)
    requires R.Valid(pids, h)
  {
    && (forall p :: p in locals ==>
          locals[p].finalized && p in cut && cut[p] <= |h| && locals[p].local.clock == R.ClockAt(pids, h, cut[p], p))
    && (forall p, from, m :: p in locals && HasRecorded(locals[p], from, m) ==> exists b :: SentBy(pids, h, b, from, m))
  }

  /** Such reports are called consistent exactly when every recorded message comes from a process that reports,
      and was sent before that process's cut. */
  lemma VerdictOnReports(pids: set<Pid>, h: R.Run, cut: map<Pid, nat>, locals: map<Pid, LocalSnapshot>)
    requires R.Valid(pids, h) && ReportsOfRun(pids, h, cut, locals)
    ensures Consistent(locals) <==>
            forall p, from, m, b :: p in locals && HasRecorded(locals[p], from, m) && SentBy(pids, h, b, from, m) ==>
              from in locals && b < cut[from]
  {
    VerdictIs(locals);
    forall p, from, m | p in locals && HasRecorded(locals[p], from, m)
      ensures Vouched(locals, from, m) <==> forall b :: SentBy(pids, h, b, from, m) ==> from in locals && b < cut[from]
    {
      RecordedVerdict(pids, h, cut, locals, p, from, m);
    }
  }

  lemma RecordedVerdict(pids: set<Pid>, h: R.Run, cut: map<Pid, nat>, locals: map<Pid, LocalSnapshot>, p: Pid,
                        from: Pid, m: App)
    requires R.Valid(pids, h) && ReportsOfRun(pids, h, cut, locals) && p in locals && HasRecorded(locals[p], from, m)
    ensures Vouched(locals, from, m) <==> forall b :: SentBy(pids, h, b, from, m) ==> from in locals && b < cut[from]
  {
    var b :| SentBy(pids, h, b, from, m);
    forall c | SentBy(pids, h, c, from, m) ensures Vouched(locals, from, m) <==> from in locals && c < cut[from] {
      if from in locals { MessageVerdict(pids, h, cut[from], from, c, m, locals); }
    }
  }

  /** A rejected snapshot whose sender has reported: its clock has not reached the message. */
  lemma PresentSenderRejected(a: Pid, b: Pid, sid: Sid)
    requires a != b
    ensures var early := Local(map[a := 1], 0, map[], map[]);
            var m := App(2, a, b, map[a := 2]);
            var locals := map[a := LocalSnapshot(a, early, map[], true, sid),
                              b := LocalSnapshot(b, Local(map[b := 0], 0, map[], map[]),
                                                 map[a := Channel(a, [m], true)], true, sid)];
            !Consistent(locals)
  {
    var m := App(2, a, b, map[a := 2]);
    var early, other := Local(map[a := 1], 0, map[], map[]), Local(map[b := 0], 0, map[], map[]);
    var locals := map[a := LocalSnapshot(a, early, map[], true, sid),
                      b := LocalSnapshot(b, other, map[a := Channel(a, [m], true)], true, sid)];
    assert locals[b].channels[a].messages[0] == m && HasRecorded(locals[b], a, m);
    assert locals[a].local.clock[a] == 1 && m.stamp[a] == 2;
    VerdictIs(locals);
  }

  /** The receiver's report is never asked: a message that its recorded state has already received is accepted. */
  lemma ReceiverIsNotAsked(a: Pid, b: Pid, sid: Sid)
    requires a != b
    ensures var pids, h, cut := {a, b}, [R.SendTo(a, b), R.Receive(b, 0)], map[a := 1, b := 2];
            && R.Valid(pids, h)
            && var m := App(1, a, b, R.Stamp(pids, h, 0));
               var sender := Local(R.ClockAt(pids, h, 1, a), 1, map[b := [m]], map[]);
               var receiver := Local(R.ClockAt(pids, h, 2, b), 0, map[], map[a := [m]]);
               var locals := map[a := LocalSnapshot(a, sender, map[], true, sid),
                                 b := LocalSnapshot(b, receiver, map[a := Channel(a, [m], true)], true, sid)];
               ReportsOfRun(pids, h, cut, locals) && Get(receiver.clock, a) == Get(m.stamp, a) && Consistent(locals)
  {
    hide Consistent;
    var pids, h, cut := {a, b}, [R.SendTo(a, b), R.Receive(b, 0)], map[a := 1, b := 2];
    assert h[..1] == [R.SendTo(a, b)] && h[..0] == [];
    var m := App(1, a, b, R.Stamp(pids, h, 0));
    var sender := Local(R.ClockAt(pids, h, 1, a), 1, map[b := [m]], map[]);
    var receiver := Local(R.ClockAt(pids, h, 2, b), 0, map[], map[a := [m]]);
    var locals := map[a := LocalSnapshot(a, sender, map[], true, sid),
                      b := LocalSnapshot(b, receiver, map[a := Channel(a, [m], true)], true, sid)];
    assert SentBy(pids, h, 0, a, m);
    VerdictOnReports(pids, h, cut, locals);
  }

  // ---- The verdict on reachable snapshots ----

  /** Parts record only channels from other processes. */
  ghost predicate KnownChannels(pids: set<Pid>, c: Coordinator) {
    forall p, sid :: KnownPart(pids, p, PartOf(c, p, sid))
  }

  ghost predicate KnownPart(pids: set<Pid>, p: Pid, part: MaybePart) {
    part.HasPart? ==> forall q :: q in part.part.channels ==> q in pids && q != p
  }

  lemma MarkedPartKnown(pids: set<Pid>, p: Pid, prior: MaybePart, peers: seq<Pid>, from: Pid, captured: Local)
    requires KnownPart(pids, p, prior) && PeersOk(pids, p, peers) && from in pids && from != p
    ensures KnownPart(pids, p, HasPart(MarkedPart(prior, peers, from, captured)))
  {}

  lemma KnownAfter(pids: set<Pid>, c: Coordinator, c': Coordinator, p: Pid, t: Sid, part: Part)
    requires KnownChannels(pids, c) && OnlyPart(c, c', p, t, HasPart(part)) && KnownPart(pids, p, HasPart(part))
    ensures KnownChannels(pids, c')
  {}

  lemma KnownInitiation(pids: set<Pid>, s: Sys, p: Pid, t: Sid)
    requires SysInv(pids, s) && KnownChannels(pids, s.coord) && Possible(s, Initiate(p, t))
    ensures KnownChannels(pids, DoInitiate(s, p, t).coord)
  {
    assert PeersOk(pids, p, s.coord.procs[p].peers);
    InitiateView(s.coord, p, t, s.locals[p]);
    KnownAfter(pids, s.coord, DoInitiate(s, p, t).coord, p, t,
               Part(Initiator, s.locals[p], OpenAll(s.coord.procs[p].peers)));
  }

  lemma KnownDelivery(pids: set<Pid>, s: Sys, from: Pid, p: Pid, m: App)
    requires KnownChannels(pids, s.coord) && Possible(s, Arrive(from, p))
    ensures KnownChannels(pids, MessageSeen(s.coord, p, from, m))
  {
    var c' := MessageSeen(s.coord, p, from, m);
    MessageView(s.coord, p, from, m);
    forall q, sid ensures KnownPart(pids, q, PartOf(c', q, sid)) {
      assert KnownPart(pids, q, PartOf(s.coord, q, sid));
    }
  }

  lemma KnownMarker(pids: set<Pid>, s: Sys, from: Pid, p: Pid, t: Sid)
    requires SysInv(pids, s) && KnownChannels(pids, s.coord) && Possible(s, Arrive(from, p))
    requires s.channels[ChannelKey(from, p)][0] == Marker(t)
    ensures KnownChannels(pids, DoMarker(s, from, p, t).coord)
  {
    var prior, peers := PartOf(s.coord, p, t), s.coord.procs[p].peers;
    assert SnapInv(pids, s, t);
    MarkerArrives(pids, s, from, p, t);
    MarkerView(s.coord, p, from, t, s.locals[p]);
    MarkedPartKnown(pids, p, prior, peers, from, s.locals[p]);
    KnownAfter(pids, s.coord, DoMarker(s, from, p, t).coord, p, t, MarkedPart(prior, peers, from, s.locals[p]));
  }

  lemma KnownStep(pids: set<Pid>, s: Sys, e: SysStep)
    requires SysInv(pids, s) && KnownChannels(pids, s.coord)
    ensures KnownChannels(pids, Do(s, e).coord)
  {
    if Possible(s, e) {
      match e
      case Compute(_) =>
      case SendMessage(_, _) =>
      case Initiate(p, t) => KnownInitiation(pids, s, p, t);
      case Arrive(from, p) =>
        match s.channels[ChannelKey(from, p)][0]
        case Message(m) => KnownDelivery(pids, s, from, p, m);
        case Marker(t) => KnownMarker(pids, s, from, p, t);
    }
  }

  lemma {:induction false} ReachableKnown(pids: seq<Pid>, steps: seq<SysStep>)
    requires NoRepeat(pids) && |pids| >= 2
    ensures KnownChannels(Members(pids), After(pids, steps).coord)
  {
    if steps == [] {
      SpawnedMesh(pids);
    } else {
      ReachableInv(pids, steps[..|steps| - 1]);
      ReachableKnown(pids, steps[..|steps| - 1]);
      KnownStep(Members(pids), After(pids, steps[..|steps| - 1]), steps[|steps| - 1]);
    }
  }

  /** A finished process's report: what it recorded on a channel is all the cut state has on it. */
  lemma FinishedReport(pids: set<Pid>, s: Sys, sid: Sid, j: Pid)
    requires SysInv(pids, s) && sid in s.coord.snapshots && j in s.coord.snapshots[sid].locals
    ensures j in pids && ReportsPart(s.coord.snapshots[sid].locals[j], j, sid, PartOf(s.coord, j, sid))
    ensures forall i :: i in pids && i != j ==> Closed(PartOf(s.coord, j, sid), i)
  {
    assert SnapInv(pids, s, sid);
    assert PartOk(s.coord.procs[j].peers, PartOf(s.coord, j, sid));
  }

  /** A recorded message is one that its sender had sent at the cut. */
  lemma RecordedIsSent(pids: set<Pid>, s: Sys, sid: Sid, i: Pid, j: Pid, k: nat)
    requires SysInv(pids, s) && BaseInv(pids, CutState(s, sid)) && sid in s.coord.snapshots
    requires var locals := s.coord.snapshots[sid].locals;
             && j in locals && i in pids && i != j
             && i in locals[j].channels && k < |locals[j].channels[i].messages|
    ensures i in CutState(s, sid).locals
    ensures var m := s.coord.snapshots[sid].locals[j].channels[i].messages[k];
            Get(m.stamp, i) <= Get(CutState(s, sid).locals[i].clock, i)
  {
    var locals, c := s.coord.snapshots[sid].locals, CutState(s, sid);
    FinishedReport(pids, s, sid, j);
    ReportIsCut(locals[j], j, sid, PartOf(s.coord, j, sid), s.locals[j], i, s.channels[ChannelKey(i, j)]);
    SentIsGenuine(c, i, j, k);
  }

  lemma SentIsGenuine(c: Base, i: Pid, j: Pid, k: nat)
    requires FifoExact(c, i, j) && SendsGenuine(c, i, j) && k < |c.queues[ChannelKey(i, j)]|
    ensures Get(c.queues[ChannelKey(i, j)][k].stamp, i) <= Get(c.locals[i].clock, i)
  {
    var at := |ReceivedFrom(c.locals[j], i)| + k;
    assert SentTo(c.locals[i], j)[at] == c.queues[ChannelKey(i, j)][k];
    assert Genuine(SentTo(c.locals[i], j)[at], c.locals[i], i, j);
  }

  /** A report bears the local state of the cut. */
  lemma ReportedLocal(pids: set<Pid>, s: Sys, sid: Sid, i: Pid)
    requires SysInv(pids, s) && sid in s.coord.snapshots && i in s.coord.snapshots[sid].locals
    ensures i in CutState(s, sid).locals
    ensures s.coord.snapshots[sid].locals[i].local == CutState(s, sid).locals[i]
  {
    FinishedReport(pids, s, sid, i);
  }

  /** A message recorded by a finished process is vouched for exactly when its sender has finished. */
  lemma RecordedMessage(pids: set<Pid>, s: Sys, sid: Sid, i: Pid, j: Pid, k: nat)
    requires SysInv(pids, s) && BaseInv(pids, CutState(s, sid)) && sid in s.coord.snapshots
    requires var locals := s.coord.snapshots[sid].locals;
             && j in locals && i in pids && i != j
             && i in locals[j].channels && k < |locals[j].channels[i].messages|
    ensures var locals := s.coord.snapshots[sid].locals;
            Vouched(locals, i, locals[j].channels[i].messages[k]) <==> i in locals
  {
    RecordedIsSent(pids, s, sid, i, j, k);
    if i in s.coord.snapshots[sid].locals {
      ReportedLocal(pids, s, sid, i);
    }
  }

  lemma ReportVerdict(pids: set<Pid>, s: Sys, sid: Sid, j: Pid)
    requires SysInv(pids, s) && BaseInv(pids, CutState(s, sid)) && sid in s.coord.snapshots
    requires j in s.coord.snapshots[sid].locals && KnownPart(pids, j, PartOf(s.coord, j, sid))
    ensures var locals := s.coord.snapshots[sid].locals;
            ReportVouched(locals, locals[j]) <==> SendersFinished(locals, locals[j])
  {
    var locals := s.coord.snapshots[sid].locals;
    FinishedReport(pids, s, sid, j);
    forall i | i in locals[j].channels
      ensures ChannelVouched(locals, i, locals[j].channels[i].messages)
              <==> locals[j].channels[i].messages == [] || i in locals
    {
      ChannelVerdict(pids, s, sid, i, j);
    }
  }

  lemma ChannelVerdict(pids: set<Pid>, s: Sys, sid: Sid, i: Pid, j: Pid)
    requires SysInv(pids, s) && BaseInv(pids, CutState(s, sid)) && sid in s.coord.snapshots
    requires var locals := s.coord.snapshots[sid].locals;
             j in locals && i in locals[j].channels && i in pids && i != j
    ensures var locals := s.coord.snapshots[sid].locals;
            ChannelVouched(locals, i, locals[j].channels[i].messages)
            <==> locals[j].channels[i].messages == [] || i in locals
  {
    var locals := s.coord.snapshots[sid].locals;
    var ms := locals[j].channels[i].messages;
    forall k | 0 <= k < |ms| ensures Vouched(locals, i, ms[k]) <==> i in locals {
      RecordedMessage(pids, s, sid, i, j, k);
    }
    if ms != [] {
      assert Vouched(locals, i, ms[0]) <==> i in locals;
    }
  }

  /** Every channel on which the report recorded messages comes from a process that has reported. */
  predicate SendersFinished(locals: map<Pid, LocalSnapshot>, report: LocalSnapshot) {
    forall i :: i in report.channels ==> report.channels[i].messages == [] || i in locals
  }

  /** On every reachable snapshot the verdict is consistent exactly when each process that a finished one
      has recorded messages from has finished too. So a completed snapshot always passes, while one in
      progress may be called inconsistent although nothing is wrong. */
  lemma VerdictMeaning(pids: seq<Pid>, steps: seq<SysStep>, sid: Sid)
    requires NoRepeat(pids) && |pids| >= 2 && sid in After(pids, steps).coord.snapshots
    ensures var locals := After(pids, steps).coord.snapshots[sid].locals;
            Consistent(locals) <==> forall j :: j in locals ==> SendersFinished(locals, locals[j])
    ensures Completed(After(pids, steps), sid) ==> Consistent(After(pids, steps).coord.snapshots[sid].locals)
  {
    var all, s := Members(pids), After(pids, steps);
    var locals := s.coord.snapshots[sid].locals;
    ReachableInv(pids, steps);
    ReachableKnown(pids, steps);
    CutIsReachable(pids, steps, sid);
    ExecKeepsInv(pids, PreTrace(pids, steps, sid));
    forall j | j in locals
      ensures locals[j].finalized && (ReportVouched(locals, locals[j]) <==> SendersFinished(locals, locals[j]))
    {
      FinishedReport(all, s, sid, j);
      ReportVerdict(all, s, sid, j);
    }
    if Completed(s, sid) {
      CompletedParts(all, s, sid);
      forall j | j in locals ensures SendersFinished(locals, locals[j]) {
        FinishedReport(all, s, sid, j);
        assert KnownPart(all, j, PartOf(s.coord, j, sid));
      }
    }
  }

  // ---- A report in progress that is rejected ----

  /** What is on the six channels between three processes, what `a` has recorded from `b`, and which of `b` and
      `c` take part. */
  datatype Scene = Scene(ab: seq<Item>, ac: seq<Item>, ba: seq<Item>, bc: seq<Item>, ca: seq<Item>, cb: seq<Item>,
                         recorded: seq<App>, bTakesPart: bool, cTakesPart: bool)

  predicate Shows(s: Sys, a: Pid, b: Pid, c: Pid, sid: Sid, scene: Scene) {
    && OnChannel(s, a, b, scene.ab) && OnChannel(s, a, c, scene.ac) && OnChannel(s, b, a, scene.ba)
    && OnChannel(s, b, c, scene.bc) && OnChannel(s, c, a, scene.ca) && OnChannel(s, c, b, scene.cb)
    && RecordedOn(PartOf(s.coord, a, sid), b) == scene.recorded
    && PartOf(s.coord, b, sid).HasPart? == scene.bTakesPart && PartOf(s.coord, c, sid).HasPart? == scene.cTakesPart
  }

  predicate OnChannel(s: Sys, from: Pid, to: Pid, q: seq<Item>) {
    ChannelKey(from, to) in s.channels && s.channels[ChannelKey(from, to)] == q
  }

  /** The run: `a` initiates and gets a message that `b` sent before `a`'s marker reached it; then `b` and `c`
      get that marker, and `a` gets theirs. The marker from `c` to `b` is still under way. */
  function RejectedRun(a: Pid, b: Pid, c: Pid, sid: Sid): seq<SysStep> {
    [Initiate(a, sid), SendMessage(b, a), Arrive(b, a), Arrive(a, b), Arrive(a, c), Arrive(b, a), Arrive(c, a)]
  }

  lemma Broadcasts(pids: set<Pid>, s: Sys, p: Pid, ch: map<ChannelKey, seq<Item>>, from: Pid, to: Pid, sid: Sid)
    requires SysMesh(pids, s) && p in pids && from in pids && to in pids && from != to
    requires ch.Keys == s.channels.Keys
    ensures var key := ChannelKey(from, to);
            && key in ch && key in Broadcast(ch, p, s.coord.procs[p].peers, sid)
            && Broadcast(ch, p, s.coord.procs[p].peers, sid)[key] == ch[key] + if from == p then [Marker(sid)] else []
  {
    assert PeersOk(pids, p, s.coord.procs[p].peers);
    BroadcastAt(ch, p, s.coord.procs[p].peers, sid);
  }

  /** What an initiation puts on a channel. */
  lemma InitiationOn(pids: set<Pid>, s: Sys, p: Pid, sid: Sid, from: Pid, to: Pid, q: seq<Item>)
    requires SysInv(pids, s) && Possible(s, Initiate(p, sid)) && from in pids && to in pids && from != to
    requires OnChannel(s, from, to, q)
    ensures OnChannel(Do(s, Initiate(p, sid)), from, to, if from == p then q + [Marker(sid)] else q)
  {
    Broadcasts(pids, s, p, s.channels, from, to, sid);
  }

  lemma PartIsOk(pids: set<Pid>, s: Sys, p: Pid, sid: Sid)
    requires SysInv(pids, s) && p in pids
    ensures p in s.coord.procs && p in s.locals && PartOk(s.coord.procs[p].peers, PartOf(s.coord, p, sid))
    ensures SysMesh(pids, s)
  {
    assert SnapInv(pids, s, sid);
  }

  lemma MarkerTakenOff(s: Sys, sender: Pid, p: Pid, sid: Sid)
    requires p in s.locals && p in s.coord.procs && OnChannel(s, sender, p, [Marker(sid)])
    requires PartOk(s.coord.procs[p].peers, PartOf(s.coord, p, sid))
    ensures Possible(s, Arrive(sender, p))
    ensures Do(s, Arrive(sender, p)).coord == MarkerHandled(s.coord, p, sender, sid, s.locals[p])
    ensures var popped := s.channels[ChannelKey(sender, p) := []];
            Do(s, Arrive(sender, p)).channels ==
            if PartOf(s.coord, p, sid).HasPart? then popped else Broadcast(popped, p, s.coord.procs[p].peers, sid)
  {
    assert [Marker(sid)][1..] == [];
  }

  /** What the arrival of a marker does to a channel: it leaves its own, and the first one is passed on. */
  lemma MarkerOn(pids: set<Pid>, s: Sys, sender: Pid, p: Pid, sid: Sid, from: Pid, to: Pid, q: seq<Item>)
    requires SysInv(pids, s) && OnChannel(s, sender, p, [Marker(sid)]) && sender in pids && p in pids && sender != p
    requires OnChannel(s, from, to, q) && from in pids && to in pids && from != to
    ensures Possible(s, Arrive(sender, p))
    ensures var left := if from == sender && to == p then [] else q;
            OnChannel(Do(s, Arrive(sender, p)), from, to,
                      if from == p && !PartOf(s.coord, p, sid).HasPart? then left + [Marker(sid)] else left)
  {
    PartIsOk(pids, s, p, sid);
    MarkerTakenOff(s, sender, p, sid);
    hide SysInv, Do, PartOk;
    var popped := s.channels[ChannelKey(sender, p) := []];
    if !PartOf(s.coord, p, sid).HasPart? {
      Broadcasts(pids, s, p, popped, from, to, sid);
    }
  }

  /** What the arrival of a marker does to the parts: its receiver takes part, and no recording changes. */
  lemma MarkerParts(pids: set<Pid>, s: Sys, sender: Pid, p: Pid, sid: Sid, a: Pid, b: Pid)
    requires SysInv(pids, s) && OnChannel(s, sender, p, [Marker(sid)]) && sender in pids && p in pids && sender != p
    requires PartOf(s.coord, a, sid).HasPart?
    ensures var c, c' := s.coord, Do(s, Arrive(sender, p)).coord;
            && RecordedOn(PartOf(c', a, sid), b) == RecordedOn(PartOf(c, a, sid), b)
            && forall q :: PartOf(c', q, sid).HasPart? <==> q == p || PartOf(c, q, sid).HasPart?
  {
    PartIsOk(pids, s, p, sid);
    MarkerTakenOff(s, sender, p, sid);
    assert SnapInv(pids, s, sid);
    MarkerArrives(pids, s, sender, p, sid);
    hide SysInv, SnapInv, PartOk, PartOf, MarkerHandled, Do;
    HandledParts(s.coord, sender, p, sid, s.locals[p], a, b);
  }

  lemma HandledParts(c: Coordinator, sender: Pid, p: Pid, sid: Sid, captured: Local, a: Pid, b: Pid)
    requires p in c.procs && PartOk(c.procs[p].peers, PartOf(c, p, sid)) && !IsDone(PartOf(c, p, sid))
    requires PartOf(c, a, sid).HasPart?
    ensures var c' := MarkerHandled(c, p, sender, sid, captured);
            && RecordedOn(PartOf(c', a, sid), b) == RecordedOn(PartOf(c, a, sid), b)
            && forall q :: PartOf(c', q, sid).HasPart? <==> q == p || PartOf(c, q, sid).HasPart?
  {
    hide MarkerHandled, MarkedPart, ReportAdded, SameReport, PartOk;
    MarkerView(c, p, sender, sid, captured);
    MarkedPartCut(PartOf(c, p, sid), c.procs[p].peers, sender, captured);
  }

  /** A later marker, at a process that already takes part, only leaves its channel. */
  lemma LaterMarkerScene(pids: set<Pid>, s: Sys, a: Pid, b: Pid, c: Pid, sid: Sid, from: Pid, scene: Scene)
    requires pids == {a, b, c} && a != b && a != c && b != c && SysInv(pids, s) && Shows(s, a, b, c, sid, scene)
    requires PartOf(s.coord, a, sid).HasPart?
    requires (from == b && scene.ba == [Marker(sid)]) || (from == c && scene.ca == [Marker(sid)])
    ensures Shows(Do(s, Arrive(from, a)), a, b, c, sid, if from == b then scene.(ba := []) else scene.(ca := []))
    ensures PartOf(Do(s, Arrive(from, a)).coord, a, sid).HasPart?
  {
    MarkerOn(pids, s, from, a, sid, a, b, scene.ab);
    MarkerOn(pids, s, from, a, sid, a, c, scene.ac);
    MarkerOn(pids, s, from, a, sid, b, a, scene.ba);
    MarkerOn(pids, s, from, a, sid, b, c, scene.bc);
    MarkerOn(pids, s, from, a, sid, c, a, scene.ca);
    MarkerOn(pids, s, from, a, sid, c, b, scene.cb);
    MarkerParts(pids, s, from, a, sid, a, b);
  }

  /** The first marker at `b` or `c`, which then sends its own. */
  lemma FirstMarkerScene(pids: set<Pid>, s: Sys, a: Pid, b: Pid, c: Pid, sid: Sid, p: Pid, scene: Scene)
    requires pids == {a, b, c} && a != b && a != c && b != c && SysInv(pids, s) && Shows(s, a, b, c, sid, scene)
    requires PartOf(s.coord, a, sid).HasPart?
    requires (p == b && !scene.bTakesPart && scene.ab == [Marker(sid)]) ||
             (p == c && !scene.cTakesPart && scene.ac == [Marker(sid)])
    ensures PartOf(Do(s, Arrive(a, p)).coord, a, sid).HasPart?
    ensures var more := [Marker(sid)];
            Shows(Do(s, Arrive(a, p)), a, b, c, sid,
                  if p == b then scene.(ab := [], ba := scene.ba + more, bc := scene.bc + more, bTakesPart := true)
                  else scene.(ac := [], ca := scene.ca + more, cb := scene.cb + more, cTakesPart := true))
  {
    MarkerOn(pids, s, a, p, sid, a, b, scene.ab);
    MarkerOn(pids, s, a, p, sid, a, c, scene.ac);
    MarkerOn(pids, s, a, p, sid, b, a, scene.ba);
    MarkerOn(pids, s, a, p, sid, b, c, scene.bc);
    MarkerOn(pids, s, a, p, sid, c, a, scene.ca);
    MarkerOn(pids, s, a, p, sid, c, b, scene.cb);
    MarkerParts(pids, s, a, p, sid, a, b);
  }

  lemma InitiationScene(pids: set<Pid>, s: Sys, a: Pid, b: Pid, c: Pid, sid: Sid)
    requires pids == {a, b, c} && a != b && a != c && b != c && SysInv(pids, s) && sid !in s.coord.snapshots
    requires Shows(s, a, b, c, sid, Scene([], [], [], [], [], [], [], false, false))
    ensures Shows(Do(s, Initiate(a, sid)), a, b, c, sid,
                  Scene([Marker(sid)], [Marker(sid)], [], [], [], [], [], false, false))
    ensures var s' := Do(s, Initiate(a, sid));
            && a in s'.locals && b in s'.locals && a in s'.coord.procs
            && PartOf(s'.coord, a, sid) == HasPart(Part(Initiator, s'.locals[a], OpenAll(s'.coord.procs[a].peers)))
  {
    InitiationOn(pids, s, a, sid, a, b, []);
    InitiationOn(pids, s, a, sid, a, c, []);
    InitiationOn(pids, s, a, sid, b, a, []);
    InitiationOn(pids, s, a, sid, b, c, []);
    InitiationOn(pids, s, a, sid, c, a, []);
    InitiationOn(pids, s, a, sid, c, b, []);
    InitiateView(s.coord, a, sid, s.locals[a]);
  }

  /** `b` sends a message, and `a` records it on the open channel. */
  lemma MessageScene(pids: set<Pid>, s: Sys, a: Pid, b: Pid, c: Pid, sid: Sid, scene: Scene)
    requires pids == {a, b, c} && a != b && a != c && b != c && SysInv(pids, s) && Shows(s, a, b, c, sid, scene)
    requires scene.ba == [] && scene.recorded == []
    requires PartOf(s.coord, a, sid) == HasPart(Part(Initiator, s.locals[a], OpenAll(s.coord.procs[a].peers)))
    ensures var m, sent := NextMessage(s.locals[b], b, a), Do(s, SendMessage(b, a));
            && Shows(Do(sent, Arrive(b, a)), a, b, c, sid, scene.(recorded := [m]))
            && PartOf(Do(sent, Arrive(b, a)).coord, a, sid).HasPart?
  {
    var m, sent := NextMessage(s.locals[b], b, a), Do(s, SendMessage(b, a));
    SendingScene(pids, s, a, b, c, sid, scene);
    hide SysInv, Do;
    RecordingOf(sent, a, b, c, sid, scene.(ba := [Message(m)]), m);
  }

  lemma SendingScene(pids: set<Pid>, s: Sys, a: Pid, b: Pid, c: Pid, sid: Sid, scene: Scene)
    requires pids == {a, b, c} && a != b && a != c && b != c && SysInv(pids, s) && Shows(s, a, b, c, sid, scene)
    requires scene.ba == [] && scene.recorded == []
    requires PartOf(s.coord, a, sid) == HasPart(Part(Initiator, s.locals[a], OpenAll(s.coord.procs[a].peers)))
    ensures var m, sent := NextMessage(s.locals[b], b, a), Do(s, SendMessage(b, a));
            && Shows(sent, a, b, c, sid, scene.(ba := [Message(m)])) && sent.coord == s.coord
            && a in sent.coord.procs && a in sent.locals && b in sent.coord.procs[a].peers
  {
    hide SysInv, PartOf, RecordedOn, NextMessage, LocalSend, OpenAll;
    MeshHas(pids, s, a, b);
  }

  lemma MeshHas(pids: set<Pid>, s: Sys, a: Pid, b: Pid)
    requires SysInv(pids, s) && a in pids && b in pids && a != b
    ensures a in s.locals && b in s.locals && a in s.coord.procs && b in s.coord.procs[a].peers
  {
    hide SnapInv;
    assert PeersOk(pids, a, s.coord.procs[a].peers);
  }

  lemma RecordingOf(s: Sys, a: Pid, b: Pid, c: Pid, sid: Sid, scene: Scene, m: App)
    requires a != b && a != c && b != c && Shows(s, a, b, c, sid, scene)
    requires scene.ba == [Message(m)] && scene.recorded == []
    requires a in s.locals && a in s.coord.procs && b in s.coord.procs[a].peers
    requires exists captured ::
               PartOf(s.coord, a, sid) == HasPart(Part(Initiator, captured, OpenAll(s.coord.procs[a].peers)))
    ensures Shows(Do(s, Arrive(b, a)), a, b, c, sid, scene.(ba := [], recorded := [m]))
    ensures PartOf(Do(s, Arrive(b, a)).coord, a, sid).HasPart?
  {
    assert Do(s, Arrive(b, a)) == DoDeliver(s, b, a, m);
    MessageView(s.coord, a, b, m);
  }

  /** Where the run ends, `a` has reported a message from `b`, and `b` has not reported. */
  lemma LastScene(pids: set<Pid>, s: Sys, a: Pid, b: Pid, c: Pid, sid: Sid, scene: Scene)
    requires pids == {a, b, c} && a != b && a != c && b != c && SysInv(pids, s) && Shows(s, a, b, c, sid, scene)
    requires PartOf(s.coord, a, sid).HasPart? && scene.bTakesPart && scene.cTakesPart
    requires scene.ba == [] && scene.ca == [] && scene.cb == [Marker(sid)] && scene.recorded != []
    ensures sid in s.coord.snapshots
    ensures var locals := s.coord.snapshots[sid].locals;
            b !in locals && a in locals && b in locals[a].channels && locals[a].channels[b].messages != []
  {
    var pa, pb, pc := PartOf(s.coord, a, sid), PartOf(s.coord, b, sid), PartOf(s.coord, c, sid);
    assert SnapInv(pids, s, sid);
    assert ChannelOk(sid, b, pb, pa, []) && ChannelOk(sid, c, pc, pa, []) && ChannelOk(sid, c, pc, pb, scene.cb);
    assert PartOk(s.coord.procs[a].peers, pa) && PartOk(s.coord.procs[b].peers, pb);
    assert PeersOk(pids, a, s.coord.procs[a].peers) && PeersOk(pids, b, s.coord.procs[b].peers);
    assert c in s.coord.procs[b].peers;
    assert IsDone(pa) && !IsDone(pb);
  }

  lemma AtPrefix(pids: seq<Pid>, run: seq<SysStep>, k: nat)
    requires NoRepeat(pids) && |pids| >= 2 && k <= |run|
    ensures SysInv(Members(pids), After(pids, run[..k]))
    ensures k > 0 ==> After(pids, run[..k]) == Do(After(pids, run[..k - 1]), run[k - 1])
  {
    ReachableInv(pids, run[..k]);
    if k > 0 { assert run[..k][..k - 1] == run[..k - 1]; }
  }

  lemma StartScene(a: Pid, b: Pid, c: Pid, sid: Sid)
    requires a != b && a != c && b != c
    ensures var s := After([a, b, c], []);
            Shows(s, a, b, c, sid, Scene([], [], [], [], [], [], [], false, false)) && sid !in s.coord.snapshots
  {
    hide Spawned, Start, After;
    var pids := [a, b, c];
    assert Members(pids) == {a, b, c};
    NothingAtStart(pids, sid);
  }

  lemma NothingAtStart(pids: seq<Pid>, sid: Sid)
    requires NoRepeat(pids)
    ensures var s := After(pids, []);
            && (forall p :: p in Members(pids) ==> PartOf(s.coord, p, sid) == NoPart)
            && (forall i, j :: i in Members(pids) && j in Members(pids) && i != j ==> OnChannel(s, i, j, []))
            && sid !in s.coord.snapshots
  {
    SpawnedMesh(pids);
  }

  lemma RecordingScene(a: Pid, b: Pid, c: Pid, sid: Sid) returns (m: App)
    requires a != b && a != c && b != c
    ensures var s := After([a, b, c], RejectedRun(a, b, c, sid)[..3]);
            && Shows(s, a, b, c, sid, Scene([Marker(sid)], [Marker(sid)], [], [], [], [], [m], false, false))
            && PartOf(s.coord, a, sid).HasPart?
  {
    hide SysInv, After, Do, Shows;
    var pids, all, run := [a, b, c], {a, b, c}, RejectedRun(a, b, c, sid);
    assert Members(pids) == all;
    AtPrefix(pids, run, 0);
    AtPrefix(pids, run, 1);
    AtPrefix(pids, run, 2);
    AtPrefix(pids, run, 3);
    StartScene(a, b, c, sid);
    assert run[..0] == [];
    InitiationScene(all, After(pids, run[..0]), a, b, c, sid);
    MessageScene(all, After(pids, run[..1]), a, b, c, sid,
                 Scene([Marker(sid)], [Marker(sid)], [], [], [], [], [], false, false));
    m := NextMessage(After(pids, run[..1]).locals[b], b, a);
  }

  lemma RunsTo(a: Pid, b: Pid, c: Pid, sid: Sid) returns (m: App)
    requires a != b && a != c && b != c
    ensures var s := After([a, b, c], RejectedRun(a, b, c, sid));
            && Shows(s, a, b, c, sid, Scene([], [], [], [Marker(sid)], [], [Marker(sid)], [m], true, true))
            && PartOf(s.coord, a, sid).HasPart?
  {
    hide SysInv, After, Do, Shows;
    var pids, all, run, marker := [a, b, c], {a, b, c}, RejectedRun(a, b, c, sid), [Marker(sid)];
    assert Members(pids) == all && run[..7] == run && [] + marker == marker;
    m := RecordingScene(a, b, c, sid);
    AtPrefix(pids, run, 3);
    AtPrefix(pids, run, 4);
    AtPrefix(pids, run, 5);
    AtPrefix(pids, run, 6);
    AtPrefix(pids, run, 7);
    FirstMarkerScene(all, After(pids, run[..3]), a, b, c, sid, b,
                     Scene(marker, marker, [], [], [], [], [m], false, false));
    FirstMarkerScene(all, After(pids, run[..4]), a, b, c, sid, c,
                     Scene([], marker, marker, marker, [], [], [m], true, false));
    LaterMarkerScene(all, After(pids, run[..5]), a, b, c, sid, b,
                     Scene([], [], marker, marker, marker, marker, [m], true, true));
    LaterMarkerScene(all, After(pids, run[..6]), a, b, c, sid, c,
                     Scene([], [], [], marker, marker, marker, [m], true, true));
  }

  /** A reachable snapshot in progress that the check calls inconsistent. */
  lemma InProgressRejected(a: Pid, b: Pid, c: Pid, sid: Sid)
    requires a != b && a != c && b != c
    ensures var s := After([a, b, c], RejectedRun(a, b, c, sid));
            sid in s.coord.snapshots && !Consistent(s.coord.snapshots[sid].locals)
  {
    var pids, run := [a, b, c], RejectedRun(a, b, c, sid);
    var s := After(pids, run);
    var m := RunsTo(a, b, c, sid);
    ReachableInv(pids, run);
    assert Members(pids) == {a, b, c};
    LastScene(Members(pids), s, a, b, c, sid, Scene([], [], [], [Marker(sid)], [], [Marker(sid)], [m], true, true));
    VerdictMeaning(pids, run, sid);
    var locals := s.coord.snapshots[sid].locals;
    assert !SendersFinished(locals, locals[a]);
  }
}
