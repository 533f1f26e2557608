/** A completed snapshot as a cut of the event log: the frontier of its recorded clocks passes the cut test.

    The two consistency checks of the repository, one on reports and one on frontiers, are so connected: every
    receive a recorded clock includes has its send included by the sender's recorded clock.
 */
module SnapshotFrontier {
  import opened VectorClock
  import opened Snapshots
  import opened FifoRuns
  import opened SnapshotRuns
  import opened SnapshotCuts
  import opened SnapshotTheorems
  import C = Cuts
  import CutRuns
  import G = CausalGraphs

  // ---- Logs of runs ----

  /** The state before step `n`. */
  function Before(pids: seq<Pid>, steps: seq<SysStep>, n: nat): Sys
    requires n <= |steps|
  {
    After(pids, steps[..n])
  }

  function OwnEntry(s: Sys, p: Pid): nat {
    if p in s.locals then Get(s.locals[p].clock, p) else 0
  }

  /** The message a step sends or delivers. */
  function Carried(s: Sys, e: SysStep): App
    requires Visible(s, e) != [] && !e.Compute?
  {
    if e.SendMessage? then NextMessage(s.locals[e.p], e.p, e.to) else s.channels[ChannelKey(e.from, e.p)][0].app
  }

  function KindOf(e: SysStep): G.EventType {
    match e
    case SendMessage(_, _) => G.SendEvent
    case Arrive(_, _) => G.ReceiveEvent
    case _ => G.InternalEvent
  }

  /** A log of some steps of the computation of a run, event `x` of step `at[x]`. Ids are unique, and the send
      and the receive of one message id are of the same message. */
  ghost predicate Records(pids: seq<Pid>, steps: seq<SysStep>, events: seq<G.Event>, at: seq<nat>) {
    && |at| == |events|
    && (forall x :: 0 <= x < |events| ==> RecordsStep(pids, steps, events[x], at[x]))
    && (forall x, y :: 0 <= x < y < |events| ==> events[x].id != events[y].id)
    && (forall x, y :: 0 <= x < |events| && 0 <= y < |events| && C.Matches(events[x], events[y]) ==>
          Carried(Before(pids, steps, at[x]), steps[at[x]]) == Carried(Before(pids, steps, at[y]), steps[at[y]]))
  }

  ghost predicate RecordsStep(pids: seq<Pid>, steps: seq<SysStep>, event: G.Event, n: nat) {
    && n < |steps| && Visible(Before(pids, steps, n), steps[n]) != []
    && event.process == steps[n].p && event.kind == KindOf(steps[n])
  }

  /** The own entry of the clock that step `n` leaves its process with. */
  function EntryAt(pids: seq<Pid>, steps: seq<SysStep>, n: nat): nat
    requires n < |steps|
  {
    OwnEntry(Before(pids, steps, n + 1), steps[n].p)
  }

  lemma OneStep(pids: seq<Pid>, steps: seq<SysStep>, n: nat)
    requires n < |steps|
    ensures Before(pids, steps, n + 1) == Do(Before(pids, steps, n), steps[n])
  {
    assert steps[..n + 1][..n] == steps[..n];
  }

  // ---- Local states only grow ----

  /** The clock has grown, and what had been received still is. */
  ghost predicate Grown(l: Local, l': Local, p: Pid) {
    && Get(l.clock, p) <= Get(l'.clock, p)
    && forall i, m :: m in ReceivedFrom(l, i) ==> m in ReceivedFrom(l', i)
  }

  lemma StepGrows(s: Sys, e: SysStep, p: Pid)
    requires p in s.locals
    ensures p in Do(s, e).locals && Grown(s.locals[p], Do(s, e).locals[p], p)
    ensures Visible(s, e) != [] && e.p == p ==> OwnEntry(s, p) < OwnEntry(Do(s, e), p)
  {
    var l, l' := s.locals[p], Do(s, e).locals[p];
    if Visible(s, e) != [] && e.p == p {
      GetTicked(l.clock, p, p);
      if e.Arrive? {
        var m := Carried(s, e);
        GetReceived(l.clock, m.stamp, p, p);
      }
    }
  }

  lemma {:induction false} RunGrows(pids: seq<Pid>, steps: seq<SysStep>, p: Pid, n: nat, k: nat)
    requires n <= k <= |steps| && p in Before(pids, steps, n).locals
    ensures p in Before(pids, steps, k).locals
    ensures Grown(Before(pids, steps, n).locals[p], Before(pids, steps, k).locals[p], p)
    decreases k
  {
    if n < k {
      RunGrows(pids, steps, p, n, k - 1);
      OneStep(pids, steps, k - 1);
      StepGrows(Before(pids, steps, k - 1), steps[k - 1], p);
    }
  }

  /** A process receives what it takes off the channel, and sends with its new entry in the stamp. */
  lemma CarriedBySteps(s: Sys, e: SysStep)
    requires Visible(s, e) != [] && !e.Compute?
    ensures e.p in s.locals && e.p in Do(s, e).locals
    ensures e.SendMessage? ==>
              Carried(s, e).from == e.p && Get(Carried(s, e).stamp, e.p) == OwnEntry(Do(s, e), e.p)
    ensures e.Arrive? ==> Carried(s, e) in ReceivedFrom(Do(s, e).locals[e.p], e.from)
  {}

  // ---- What a process records is a state it was in ----

  ghost predicate Captured(pids: seq<Pid>, steps: seq<SysStep>, p: Pid, l: Local) {
    exists k: nat :: k <= |steps| && p in Before(pids, steps, k).locals && l == Before(pids, steps, k).locals[p]
  }

  lemma CapturedNow(pids: seq<Pid>, steps: seq<SysStep>, p: Pid)
    requires p in After(pids, steps).locals
    ensures Captured(pids, steps, p, After(pids, steps).locals[p])
  {
    assert steps[..|steps|] == steps;
    assert Before(pids, steps, |steps|) == After(pids, steps);
  }

  lemma CapturedLater(pids: seq<Pid>, init: seq<SysStep>, e: SysStep, p: Pid, l: Local)
    requires Captured(pids, init, p, l)
    ensures Captured(pids, init + [e], p, l)
  {
    var k: nat :| k <= |init| && p in Before(pids, init, k).locals && l == Before(pids, init, k).locals[p];
    assert (init + [e])[..k] == init[..k];
    assert Before(pids, init + [e], k) == Before(pids, init, k);
  }

  /** A step captures the state of its moment or keeps what was captured. */
  lemma PartStep(pids: set<Pid>, s: Sys, e: SysStep, q: Pid, sid: Sid)
    requires SysInv(pids, s) && PartOf(Do(s, e).coord, q, sid).HasPart?
    ensures var part, part' := PartOf(s.coord, q, sid), PartOf(Do(s, e).coord, q, sid);
            if part.HasPart? then part'.part.local == part.part.local
            else q in s.locals && part'.part.local == s.locals[q]
  {
    if Possible(s, e) {
      match e
      case Compute(_) =>
      case SendMessage(_, _) =>
      case Initiate(p, t) => InitiatePartStep(pids, s, p, t, q, sid);
      case Arrive(from, p) =>
        match s.channels[ChannelKey(from, p)][0]
        case Message(m) => MessageView(s.coord, p, from, m);
        case Marker(t) => MarkerPartStep(pids, s, from, p, t, q, sid);
    }
  }

  lemma InitiatePartStep(pids: set<Pid>, s: Sys, p: Pid, t: Sid, q: Pid, sid: Sid)
    requires SysInv(pids, s) && Possible(s, Initiate(p, t)) && PartOf(DoInitiate(s, p, t).coord, q, sid).HasPart?
    ensures var part, part' := PartOf(s.coord, q, sid), PartOf(DoInitiate(s, p, t).coord, q, sid);
            if part.HasPart? then part'.part.local == part.part.local
            else q in s.locals && part'.part.local == s.locals[q]
  {
    assert SnapInv(pids, s, t);
    InitiateView(s.coord, p, t, s.locals[p]);
  }

  lemma MarkerPartStep(pids: set<Pid>, s: Sys, from: Pid, p: Pid, t: Sid, q: Pid, sid: Sid)
    requires SysInv(pids, s) && Possible(s, Arrive(from, p)) && s.channels[ChannelKey(from, p)][0] == Marker(t)
    requires PartOf(DoMarker(s, from, p, t).coord, q, sid).HasPart?
    ensures var part, part' := PartOf(s.coord, q, sid), PartOf(DoMarker(s, from, p, t).coord, q, sid);
            if part.HasPart? then part'.part.local == part.part.local
            else q in s.locals && part'.part.local == s.locals[q]
  {
    assert SnapInv(pids, s, t);
    MarkerArrives(pids, s, from, p, t);
    MarkerView(s.coord, p, from, t, s.locals[p]);
    MarkedPartOk(PartOf(s.coord, p, t), s.coord.procs[p].peers, from, s.locals[p]);
  }

  lemma CapturedStep(pids: seq<Pid>, init: seq<SysStep>, e: SysStep, p: Pid, sid: Sid)
    requires SysInv(Members(pids), After(pids, init)) && PartOf(Do(After(pids, init), e).coord, p, sid).HasPart?
    requires PartOf(After(pids, init).coord, p, sid).HasPart? ==>
               Captured(pids, init, p, PartOf(After(pids, init).coord, p, sid).part.local)
    ensures Captured(pids, init + [e], p, PartOf(Do(After(pids, init), e).coord, p, sid).part.local)
  {
    hide Do, After, SysInv, Captured, PartOf;
    var s := After(pids, init);
    PartStep(Members(pids), s, e, p, sid);
    if !PartOf(s.coord, p, sid).HasPart? { CapturedNow(pids, init, p); }
    CapturedLater(pids, init, e, p, PartOf(Do(s, e).coord, p, sid).part.local);
  }

  lemma NoPartAtStart(pids: seq<Pid>, p: Pid, sid: Sid)
    requires NoRepeat(pids)
    ensures PartOf(After(pids, []).coord, p, sid) == NoPart
  {
    SpawnedMesh(pids);
  }

  /** What a process has recorded is a state it was in, whatever it did while recording. */
  lemma {:induction false} PartIsCaptured(pids: seq<Pid>, steps: seq<SysStep>, p: Pid, sid: Sid)
    requires NoRepeat(pids) && |pids| >= 2 && PartOf(After(pids, steps).coord, p, sid).HasPart?
    ensures Captured(pids, steps, p, PartOf(After(pids, steps).coord, p, sid).part.local)
  {
    hide Do, SysInv, Captured, Start, PartOf, NoRepeat;
    if steps == [] {
      NoPartAtStart(pids, p, sid);
    } else {
      var init, e := steps[..|steps| - 1], steps[|steps| - 1];
      ReachableInv(pids, init);
      if PartOf(After(pids, init).coord, p, sid).HasPart? { PartIsCaptured(pids, init, p, sid); }
      CapturedStep(pids, init, e, p, sid);
      assert steps == init + [e];
    }
  }

  // ---- The frontier ----

  /** A receive that a captured state's clock includes is among what that state has received. */
  lemma IncludedIsReceived(pids: seq<Pid>, steps: seq<SysStep>, n: nat, l: Local)
    requires n < |steps| && steps[n].Arrive? && Visible(Before(pids, steps, n), steps[n]) != []
    requires Captured(pids, steps, steps[n].p, l) && EntryAt(pids, steps, n) <= Get(l.clock, steps[n].p)
    ensures Carried(Before(pids, steps, n), steps[n]) in ReceivedFrom(l, steps[n].from)
  {
    var p := steps[n].p;
    var k: nat :| k <= |steps| && p in Before(pids, steps, k).locals && l == Before(pids, steps, k).locals[p];
    OneStep(pids, steps, n);
    CarriedBySteps(Before(pids, steps, n), steps[n]);
    StepGrows(Before(pids, steps, n), steps[n], p);
    if k <= n {
      RunGrows(pids, steps, p, k, n);
    } else {
      RunGrows(pids, steps, p, n + 1, k);
    }
  }

  /** In a completed snapshot, what a recorded state has received its sender's recorded clock includes. */
  lemma ReceivedIsSent(pids: seq<Pid>, steps: seq<SysStep>, sid: Sid, i: Pid, j: Pid, m: App)
    requires NoRepeat(pids) && |pids| >= 2 && Completed(After(pids, steps), sid)
    requires i in pids && j in pids && i != j
    requires var locals := After(pids, steps).coord.snapshots[sid].locals;
             j in locals && m in ReceivedFrom(locals[j].local, i)
    ensures var locals := After(pids, steps).coord.snapshots[sid].locals;
            i in locals && m.from == i && Get(m.stamp, i) <= Get(locals[i].local.clock, i)
  {
    RecordedInv(pids, steps, sid);
    hide Completed, BaseInv, After, PreTrace;
    DeliveredIsGenuine(Members(pids), RecordedState(After(pids, steps), sid), i, j, m);
  }

  lemma RecordedInv(pids: seq<Pid>, steps: seq<SysStep>, sid: Sid)
    requires NoRepeat(pids) && |pids| >= 2 && Completed(After(pids, steps), sid)
    ensures After(pids, steps).coord.snapshots[sid].locals.Keys == Members(pids)
    ensures BaseInv(Members(pids), RecordedState(After(pids, steps), sid))
  {
    hide SysInv, BaseInv, After, PreTrace, CutState, RecordedState;
    ReachableInv(pids, steps);
    CompletedParts(Members(pids), After(pids, steps), sid);
    CompletedIsCut(After(pids, steps), sid);
    CutIsReachable(pids, steps, sid);
    ExecKeepsInv(pids, PreTrace(pids, steps, sid));
  }

  lemma DeliveredIsGenuine(all: set<Pid>, r: Base, i: Pid, j: Pid, m: App)
    requires BaseInv(all, r) && i in all && j in all && i != j && m in ReceivedFrom(r.locals[j], i)
    ensures m.from == i && Get(m.stamp, i) <= Get(r.locals[i].clock, i)
  {
    assert FifoExact(r, i, j) && SendsGenuine(r, i, j);
    var k :| 0 <= k < |ReceivedFrom(r.locals[j], i)| && ReceivedFrom(r.locals[j], i)[k] == m;
    assert SentTo(r.locals[i], j)[k] == m;
    assert Genuine(m, r.locals[i], i, j);
  }

  /** The recorded clocks cut the log: an event is in the cut exactly when its process's recorded clock has
      reached it. */
  ghost predicate CutsAtClocks(pids: seq<Pid>, steps: seq<SysStep>, sid: Sid, events: seq<G.Event>, at: seq<nat>,
                               f: C.Frontier)
    requires Records(pids, steps, events, at) && sid in After(pids, steps).coord.snapshots
  {
    var locals := After(pids, steps).coord.snapshots[sid].locals;
    forall x :: 0 <= x < |events| ==>
      events[x].process in locals &&
      (C.InCut(f, events[x])
       <==> EntryAt(pids, steps, at[x]) <= Get(locals[events[x].process].local.clock, events[x].process))
  }

  lemma MessageIsRespected(pids: seq<Pid>, steps: seq<SysStep>, sid: Sid, events: seq<G.Event>, at: seq<nat>,
                           f: C.Frontier, x: nat, y: nat)
    requires NoRepeat(pids) && |pids| >= 2 && Completed(After(pids, steps), sid)
    requires Records(pids, steps, events, at) && CutsAtClocks(pids, steps, sid, events, at, f)
    requires x < |events| && y < |events| && C.Matches(events[x], events[y]) && C.InCut(f, events[y])
    ensures C.InCut(f, events[x])
  {
    var locals := After(pids, steps).coord.snapshots[sid].locals;
    var n, k := at[x], at[y];
    var m := Carried(Before(pids, steps, k), steps[k]);
    assert RecordsStep(pids, steps, events[x], n) && RecordsStep(pids, steps, events[y], k);
    hide After, Completed, Visible, C.InCut;
    OneStep(pids, steps, n);
    CarriedBySteps(Before(pids, steps, n), steps[n]);
    IncludedIsVouched(pids, steps, sid, k, m);
  }

  /** A receive that the recorded clocks include: the message's stamp is within its sender's recorded clock. */
  lemma IncludedIsVouched(pids: seq<Pid>, steps: seq<SysStep>, sid: Sid, k: nat, m: App)
    requires NoRepeat(pids) && |pids| >= 2 && Completed(After(pids, steps), sid)
    requires k < |steps| && steps[k].Arrive? && Visible(Before(pids, steps, k), steps[k]) != []
    requires m == Carried(Before(pids, steps, k), steps[k])
    requires var locals, q := After(pids, steps).coord.snapshots[sid].locals, steps[k].p;
             q in locals && EntryAt(pids, steps, k) <= Get(locals[q].local.clock, q)
    ensures var locals := After(pids, steps).coord.snapshots[sid].locals;
            m.from in locals && Get(m.stamp, m.from) <= Get(locals[m.from].local.clock, m.from)
  {
    var locals, q := After(pids, steps).coord.snapshots[sid].locals, steps[k].p;
    ReportIsCaptured(pids, steps, q, sid);
    ArrivesFromOther(pids, steps, k);
    hide After, Completed, Visible;
    IncludedIsReceived(pids, steps, k, locals[q].local);
    ReceivedIsSent(pids, steps, sid, steps[k].from, q, m);
  }

  lemma ArrivesFromOther(pids: seq<Pid>, steps: seq<SysStep>, k: nat)
    requires NoRepeat(pids) && |pids| >= 2 && k < |steps| && steps[k].Arrive?
    requires Visible(Before(pids, steps, k), steps[k]) != []
    ensures steps[k].from in pids && steps[k].p in pids && steps[k].from != steps[k].p
  {
    hide After, SnapInv, NoRepeat;
    ReachableInv(pids, steps[..k]);
  }

  lemma ReportIsCaptured(pids: seq<Pid>, steps: seq<SysStep>, p: Pid, sid: Sid)
    requires NoRepeat(pids) && |pids| >= 2 && Completed(After(pids, steps), sid)
    requires p in After(pids, steps).coord.snapshots[sid].locals
    ensures Captured(pids, steps, p, After(pids, steps).coord.snapshots[sid].locals[p].local)
  {
    hide After, Captured, SysInv;
    ReachableInv(pids, steps);
    CompletedParts(Members(pids), After(pids, steps), sid);
    PartIsCaptured(pids, steps, p, sid);
  }

  /** Every frontier that cuts a log at the recorded clocks of a completed snapshot passes the cut test. */
  lemma RecordedCutIsConsistent(pids: seq<Pid>, steps: seq<SysStep>, sid: Sid, events: seq<G.Event>, at: seq<nat>,
                                messages: seq<C.Message>, f: C.Frontier)
    requires NoRepeat(pids) && |pids| >= 2 && Completed(After(pids, steps), sid)
    requires Records(pids, steps, events, at) && C.ArePairs(events, messages)
    requires CutsAtClocks(pids, steps, sid, events, at, f)
    ensures C.Consistent(f, events, messages)
  {
    hide After, Completed, CutsAtClocks, C.InCut;
    forall m | m in messages ensures C.Respected(f, C.Find(events, m.send), C.Find(events, m.receive)) {
      var s, r :| s in events && r in events && C.Matches(s, r) && m == C.Message(s.message, s.id, r.id);
      var x: nat :| x < |events| && events[x] == s;
      var y: nat :| y < |events| && events[y] == r;
      CutRuns.FindById(events, x);
      CutRuns.FindById(events, y);
      if C.InCut(f, r) { MessageIsRespected(pids, steps, sid, events, at, f, x, y); }
    }
  }

  /** Each process's numbers grow with its steps; they may have gaps. */
  ghost predicate NumbersGrow(events: seq<G.Event>, at: seq<nat>)
    requires |at| == |events|
  {
    forall x, y :: 0 <= x < |events| && 0 <= y < |events| && events[x].process == events[y].process ==>
      (events[x].localSeq <= events[y].localSeq <==> at[x] <= at[y])
  }

  /** Event `x`, whose clock has `entries[x]` for its process `p`, is among what the entry `limit` has reached. */
  predicate Reached(events: seq<G.Event>, entries: seq<nat>, p: Pid, limit: nat, x: nat)
    requires |entries| == |events|
  {
    x < |events| && events[x].process == p && entries[x] <= limit
  }

  /** The highest number among those reached, of the first `n` events. */
  function Highest(events: seq<G.Event>, entries: seq<nat>, p: Pid, limit: nat, n: nat): int
    requires |entries| == |events| && n <= |events|
  {
    if n == 0 then -1
    else
      var before := Highest(events, entries, p, limit, n - 1);
      if Reached(events, entries, p, limit, n - 1) && events[n - 1].localSeq > before then events[n - 1].localSeq
      else before
  }

  lemma {:induction false} HighestIsMax(events: seq<G.Event>, entries: seq<nat>, p: Pid, limit: nat, n: nat)
    requires |entries| == |events| && n <= |events|
    ensures forall x: nat :: x < n && Reached(events, entries, p, limit, x) ==>
              events[x].localSeq <= Highest(events, entries, p, limit, n)
    ensures Highest(events, entries, p, limit, n) >= 0 ==>
              exists x: nat :: Reached(events, entries, p, limit, x)
                               && events[x].localSeq == Highest(events, entries, p, limit, n)
    decreases n
  {
    if n > 0 { HighestIsMax(events, entries, p, limit, n - 1); }
  }

  lemma CutByHighest(events: seq<G.Event>, entries: seq<nat>, p: Pid, limit: nat, x: nat)
    requires |entries| == |events| && x < |events| && events[x].process == p
    requires forall y :: 0 <= y < |events| && events[y].process == p && events[x].localSeq <= events[y].localSeq ==>
               entries[x] <= entries[y]
    ensures events[x].localSeq <= Highest(events, entries, p, limit, |events|)
            <==> Reached(events, entries, p, limit, x)
  {
    HighestIsMax(events, entries, p, limit, |events|);
  }

  /** The own entry of each event's clock. */
  ghost predicate AreEntries(pids: seq<Pid>, steps: seq<SysStep>, at: seq<nat>, entries: seq<nat>) {
    && |entries| == |at|
    && forall x :: 0 <= x < |at| ==> at[x] < |steps| && entries[x] == EntryAt(pids, steps, at[x])
  }

  /** The last event of each process that its recorded clock has reached. */
  function RecordedFrontier(locals: map<Pid, LocalSnapshot>, events: seq<G.Event>, entries: seq<nat>): C.Frontier
    requires |entries| == |events|
  {
    map p | p in locals :: Highest(events, entries, p, Get(locals[p].local.clock, p), |events|)
  }

  lemma EntriesGrow(pids: seq<Pid>, steps: seq<SysStep>, events: seq<G.Event>, at: seq<nat>, x: nat, y: nat)
    requires Records(pids, steps, events, at) && x < |events| && y < |events|
    requires events[x].process == events[y].process && at[x] <= at[y]
    ensures at[y] < |steps| && EntryAt(pids, steps, at[x]) <= EntryAt(pids, steps, at[y])
  {
    assert RecordsStep(pids, steps, events[x], at[x]) && RecordsStep(pids, steps, events[y], at[y]);
    hide Records, Visible, Before, EntryAt;
    StepEntriesGrow(pids, steps, at[x], at[y]);
  }

  lemma StepEntriesGrow(pids: seq<Pid>, steps: seq<SysStep>, n: nat, k: nat)
    requires n <= k < |steps| && steps[n].p == steps[k].p && Visible(Before(pids, steps, n), steps[n]) != []
    ensures EntryAt(pids, steps, n) <= EntryAt(pids, steps, k)
  {
    var p := steps[n].p;
    assert p in Before(pids, steps, n).locals;
    hide Before, Visible, Do;
    OneStep(pids, steps, n);
    StepGrows(Before(pids, steps, n), steps[n], p);
    RunGrows(pids, steps, p, n + 1, k + 1);
  }

  lemma FrontierCuts(pids: seq<Pid>, steps: seq<SysStep>, events: seq<G.Event>, at: seq<nat>, entries: seq<nat>,
                     locals: map<Pid, LocalSnapshot>, x: nat)
    requires Records(pids, steps, events, at) && NumbersGrow(events, at) && AreEntries(pids, steps, at, entries)
    requires x < |events| && events[x].process in locals
    ensures C.InCut(RecordedFrontier(locals, events, entries), events[x])
            <==> EntryAt(pids, steps, at[x]) <= Get(locals[events[x].process].local.clock, events[x].process)
  {
    var p := events[x].process;
    forall y | 0 <= y < |events| && events[y].process == p && events[x].localSeq <= events[y].localSeq
      ensures entries[x] <= entries[y]
    {
      EntriesGrow(pids, steps, events, at, x, y);
    }
    CutByHighest(events, entries, p, Get(locals[p].local.clock, p), x);
  }

  lemma LoggedIsMember(pids: seq<Pid>, steps: seq<SysStep>, events: seq<G.Event>, at: seq<nat>, x: nat)
    requires NoRepeat(pids) && |pids| >= 2 && Records(pids, steps, events, at) && x < |events|
    ensures events[x].process in Members(pids)
  {
    assert RecordsStep(pids, steps, events[x], at[x]);
    ReachableInv(pids, steps[..at[x]]);
  }

  lemma EntriesLength(pids: seq<Pid>, steps: seq<SysStep>, events: seq<G.Event>, at: seq<nat>, entries: seq<nat>)
    requires Records(pids, steps, events, at) && AreEntries(pids, steps, at, entries)
    ensures |entries| == |at| == |events| && forall x :: 0 <= x < |at| ==> at[x] < |steps|
  {}

  /** For any log whose numbers grow, the events a completed snapshot's clocks have reached are a consistent cut. */
  lemma RecordedFrontierIsConsistent(pids: seq<Pid>, steps: seq<SysStep>, sid: Sid, events: seq<G.Event>,
                                     at: seq<nat>, entries: seq<nat>, messages: seq<C.Message>)
    requires NoRepeat(pids) && |pids| >= 2 && Completed(After(pids, steps), sid)
    requires Records(pids, steps, events, at) && C.ArePairs(events, messages)
    requires NumbersGrow(events, at) && AreEntries(pids, steps, at, entries)
    ensures var f := RecordedFrontier(After(pids, steps).coord.snapshots[sid].locals, events, entries);
            C.Consistent(f, events, messages) && CutsAtClocks(pids, steps, sid, events, at, f)
  {
    hide After, Records, C.InCut, RecordedFrontier, NumbersGrow, AreEntries, EntryAt, Visible, Do, C.Consistent;
    EntriesLength(pids, steps, events, at, entries);
    var locals := After(pids, steps).coord.snapshots[sid].locals;
    RecordedInv(pids, steps, sid);
    forall x | 0 <= x < |events|
      ensures events[x].process in locals
      ensures C.InCut(RecordedFrontier(locals, events, entries), events[x])
              <==> EntryAt(pids, steps, at[x]) <= Get(locals[events[x].process].local.clock, events[x].process)
    {
      LoggedIsMember(pids, steps, events, at, x);
      FrontierCuts(pids, steps, events, at, entries, locals, x);
    }
    RecordedCutIsConsistent(pids, steps, sid, events, at, messages, RecordedFrontier(locals, events, entries));
  }

  function EntryFrontier(locals: map<Pid, LocalSnapshot>): C.Frontier {
    map p | p in locals :: Get(locals[p].local.clock, p)
  }

  lemma InEntryFrontier(locals: map<Pid, LocalSnapshot>, e: G.Event)
    requires e.process in locals
    ensures C.InCut(EntryFrontier(locals), e) <==> e.localSeq <= Get(locals[e.process].local.clock, e.process)
  {}

  /** In particular the frontier of the recorded own entries, when the log numbers events by their entries. */
  lemma RecordedClocksAreACut(pids: seq<Pid>, steps: seq<SysStep>, sid: Sid, events: seq<G.Event>, at: seq<nat>,
                              messages: seq<C.Message>)
    requires NoRepeat(pids) && |pids| >= 2 && Completed(After(pids, steps), sid)
    requires Records(pids, steps, events, at) && C.ArePairs(events, messages)
    requires forall x :: 0 <= x < |events| ==> events[x].localSeq == EntryAt(pids, steps, at[x])
    ensures C.Consistent(EntryFrontier(After(pids, steps).coord.snapshots[sid].locals), events, messages)
  {
    hide After, EntryAt, Visible, Do, EntryFrontier, C.InCut;
    var locals := After(pids, steps).coord.snapshots[sid].locals;
    RecordedInv(pids, steps, sid);
    forall x | 0 <= x < |events|
      ensures events[x].process in locals && at[x] < |steps|
      ensures C.InCut(EntryFrontier(locals), events[x])
              <==> EntryAt(pids, steps, at[x]) <= Get(locals[events[x].process].local.clock, events[x].process)
    {
      assert RecordsStep(pids, steps, events[x], at[x]);
      LoggedIsMember(pids, steps, events, at, x);
      InEntryFrontier(locals, events[x]);
    }
    RecordedCutIsConsistent(pids, steps, sid, events, at, messages, EntryFrontier(locals));
  }
}
