/** The main results about snapshots, over every run of the system. */
module SnapshotTheorems {
  import opened VectorClock
  import opened Snapshots
  import opened FifoRuns
  import opened SnapshotRuns
  import opened SnapshotCuts

  // ---- The computation of a run, and its split by a snapshot ----

  function Trace(pids: seq<Pid>, steps: seq<SysStep>): seq<BaseStep> {
    if steps == [] then []
    else
      var init, e := steps[..|steps| - 1], steps[|steps| - 1];
      Trace(pids, init) + Visible(After(pids, init), e)
  }

  /** The steps taken by processes that had not recorded yet. */
  function PreTrace(pids: seq<Pid>, steps: seq<SysStep>, sid: Sid): seq<BaseStep> {
    if steps == [] then []
    else
      var init, e := steps[..|steps| - 1], steps[|steps| - 1];
      PreTrace(pids, init, sid) + if PreCut(After(pids, init), e, sid) then Visible(After(pids, init), e) else []
  }

  /** The steps taken by processes that had recorded. */
  function PostTrace(pids: seq<Pid>, steps: seq<SysStep>, sid: Sid): seq<BaseStep> {
    if steps == [] then []
    else
      var init, e := steps[..|steps| - 1], steps[|steps| - 1];
      PostTrace(pids, init, sid) + if PreCut(After(pids, init), e, sid) then [] else Visible(After(pids, init), e)
  }

  /** The steps of one process, in order. */
  function StepsOf(es: seq<BaseStep>, p: Pid): seq<BaseStep> {
    if es == [] then []
    else StepsOf(es[..|es| - 1], p) + if es[|es| - 1].p == p then [es[|es| - 1]] else []
  }

  lemma ExecMore(b: Base, es: seq<BaseStep>, more: seq<BaseStep>)
    requires |more| <= 1
    ensures Exec(b, es + more) == Exec(Exec(b, es), more)
    ensures Legal(b, es + more) <==> Legal(b, es) && Legal(Exec(b, es), more)
  {
    if more == [] {
      assert es + more == es;
    } else {
      assert more == [more[0]];
      ExecAppend(b, es, more[0]);
      ExecOne(Exec(b, es), more[0]);
    }
  }

  lemma EmptyCut(s: Sys, sid: Sid, queues: map<ChannelKey, seq<App>>)
    requires forall p :: PartOf(s.coord, p, sid) == NoPart
    requires forall key :: key in s.channels ==> s.channels[key] == []
    requires queues.Keys == s.channels.Keys && forall key :: key in queues ==> queues[key] == []
    ensures CutState(s, sid) == Base(s.locals, queues) == Observed(s)
  {}

  lemma StartIsInit(pids: seq<Pid>, sid: Sid)
    requires NoRepeat(pids)
    ensures CutState(Start(pids), sid) == InitBase(pids) == Observed(Start(pids))
  {
    var s := Start(pids);
    SpawnedMesh(pids);
    forall p ensures PartOf(s.coord, p, sid) == NoPart {}
    EmptyCut(s, sid, EmptyChannels(Members(pids)));
  }

  /** At every moment, complete or not, the cut state is what the pre-cut steps alone lead to. */
  lemma {:induction false} CutIsReachable(pids: seq<Pid>, steps: seq<SysStep>, sid: Sid)
    requires NoRepeat(pids) && |pids| >= 2
    ensures var init, pre := InitBase(pids), PreTrace(pids, steps, sid);
            Legal(init, pre) && Exec(init, pre) == CutState(After(pids, steps), sid)
  {
    if steps == [] {
      StartIsInit(pids, sid);
    } else {
      var prefix, e := steps[..|steps| - 1], steps[|steps| - 1];
      var s := After(pids, prefix);
      CutIsReachable(pids, prefix, sid);
      ReachableInv(pids, prefix);
      CutOneStep(Members(pids), InitBase(pids), PreTrace(pids, prefix, sid), s, e, sid);
    }
  }

  lemma CutOneStep(all: set<Pid>, init: Base, pre: seq<BaseStep>, s: Sys, e: SysStep, sid: Sid)
    requires SysInv(all, s) && Legal(init, pre) && Exec(init, pre) == CutState(s, sid)
    ensures var pre' := pre + if PreCut(s, e, sid) then Visible(s, e) else [];
            Legal(init, pre') && Exec(init, pre') == CutState(Do(s, e), sid)
  {
    hide SysInv, Do, CutState;
    CutStep(all, s, e, sid);
    ExecMore(init, pre, if PreCut(s, e, sid) then Visible(s, e) else []);
  }

  // ---- Recording is for good ----

  lemma PartsPersist(pids: set<Pid>, s: Sys, e: SysStep, q: Pid, sid: Sid)
    requires SysInv(pids, s) && PartOf(s.coord, q, sid).HasPart?
    ensures PartOf(Do(s, e).coord, q, sid).HasPart?
  {
    if Possible(s, e) {
      match e
      case Compute(_) =>
      case SendMessage(_, _) =>
      case Initiate(p, t) => InitiateView(s.coord, p, t, s.locals[p]);
      case Arrive(from, p) =>
        match s.channels[ChannelKey(from, p)][0]
        case Message(m) => MessageView(s.coord, p, from, m);
        case Marker(t) =>
          assert SnapInv(pids, s, t);
          MarkerArrives(pids, s, from, p, t);
          MarkerView(s.coord, p, from, t, s.locals[p]);
    }
  }

  ghost predicate AllRecorded(c: Coordinator, es: seq<BaseStep>, sid: Sid) {
    forall f :: f in es ==> PartOf(c, f.p, sid).HasPart?
  }

  /** Only recorded processes have post-cut steps. */
  lemma {:induction false} PostIsRecorded(pids: seq<Pid>, steps: seq<SysStep>, sid: Sid)
    requires NoRepeat(pids) && |pids| >= 2
    ensures AllRecorded(After(pids, steps).coord, PostTrace(pids, steps, sid), sid)
  {
    if steps != [] {
      var prefix, e := steps[..|steps| - 1], steps[|steps| - 1];
      var s := After(pids, prefix);
      PostIsRecorded(pids, prefix, sid);
      ReachableInv(pids, prefix);
      RecordedOneStep(Members(pids), s, e, PostTrace(pids, prefix, sid), sid);
    }
  }

  lemma RecordedOneStep(all: set<Pid>, s: Sys, e: SysStep, post: seq<BaseStep>, sid: Sid)
    requires SysInv(all, s) && AllRecorded(s.coord, post, sid)
    ensures AllRecorded(Do(s, e).coord, post + if PreCut(s, e, sid) then [] else Visible(s, e), sid)
  {
    forall f | f in post + if PreCut(s, e, sid) then [] else Visible(s, e)
      ensures PartOf(Do(s, e).coord, f.p, sid).HasPart?
    {
      assert PartOf(s.coord, f.p, sid).HasPart?;
      PartsPersist(all, s, e, f.p, sid);
    }
  }

  /** The post-cut steps lead from the cut state to the state the system is in. */
  lemma {:induction false} PostLeadsOn(pids: seq<Pid>, steps: seq<SysStep>, sid: Sid)
    requires NoRepeat(pids) && |pids| >= 2
    ensures var cut, post := CutState(After(pids, steps), sid), PostTrace(pids, steps, sid);
            Legal(cut, post) && Exec(cut, post) == Observed(After(pids, steps))
  {
    if steps == [] {
      StartIsInit(pids, sid);
    } else {
      var prefix, e := steps[..|steps| - 1], steps[|steps| - 1];
      var s, post := After(pids, prefix), PostTrace(pids, prefix, sid);
      PostLeadsOn(pids, prefix, sid);
      PostIsRecorded(pids, prefix, sid);
      ReachableInv(pids, prefix);
      CutStep(Members(pids), s, e, sid);
      ObservedStep(Members(pids), s, e);
      OneMoreStep(s, e, sid, post);
      assert PostTrace(pids, steps, sid) == post + if PreCut(s, e, sid) then [] else Visible(s, e);
    }
  }

  lemma OneMoreStep(s: Sys, e: SysStep, sid: Sid, post: seq<BaseStep>)
    requires Legal(CutState(s, sid), post) && Exec(CutState(s, sid), post) == Observed(s)
    requires AllRecorded(s.coord, post, sid)
    requires Legal(Observed(s), Visible(s, e)) && Observed(Do(s, e)) == Exec(Observed(s), Visible(s, e))
    requires var c, c' := CutState(s, sid), CutState(Do(s, e), sid);
             if PreCut(s, e, sid) then Legal(c, Visible(s, e)) && c' == Exec(c, Visible(s, e)) else c' == c
    ensures var post' := post + if PreCut(s, e, sid) then [] else Visible(s, e);
            Legal(CutState(Do(s, e), sid), post') && Exec(CutState(Do(s, e), sid), post') == Observed(Do(s, e))
  {
    if PreCut(s, e, sid) {
      assert post + [] == post;
      if Visible(s, e) != [] {
        var f := Visible(s, e)[0];
        ExecOne(CutState(s, sid), f);
        ExecOne(Observed(s), f);
        CommutePast(CutState(s, sid), f, post);
      }
    } else {
      ExecMore(CutState(s, sid), post, Visible(s, e));
    }
  }

  // ---- The split keeps every process's order ----

  lemma {:induction false} StepsOfConcat(es: seq<BaseStep>, fs: seq<BaseStep>, p: Pid)
    ensures StepsOf(es + fs, p) == StepsOf(es, p) + StepsOf(fs, p)
  {
    if fs == [] {
      assert es + fs == es;
    } else {
      assert (es + fs)[..|es + fs| - 1] == es + fs[..|fs| - 1];
      StepsOfConcat(es, fs[..|fs| - 1], p);
    }
  }

  lemma {:induction false} StepsOfNone(es: seq<BaseStep>, p: Pid)
    requires forall f :: f in es ==> f.p != p
    ensures StepsOf(es, p) == []
  {
    if es != [] { StepsOfNone(es[..|es| - 1], p); }
  }

  lemma Associative(a: seq<BaseStep>, b: seq<BaseStep>, c: seq<BaseStep>)
    ensures a + (b + c) == (a + b) + c
  {}

  lemma SplitPost(pre: seq<BaseStep>, post: seq<BaseStep>, trace: seq<BaseStep>, v: seq<BaseStep>, p: Pid)
    requires StepsOf(pre + post, p) == StepsOf(trace, p)
    ensures StepsOf(pre + (post + v), p) == StepsOf(trace + v, p)
  {
    Associative(pre, post, v);
    StepsOfConcat(pre + post, v, p);
    StepsOfConcat(trace, v, p);
  }

  lemma SplitPre(pre: seq<BaseStep>, post: seq<BaseStep>, trace: seq<BaseStep>, f: BaseStep, p: Pid)
    requires StepsOf(pre + post, p) == StepsOf(trace, p) && forall g :: g in post ==> g.p != f.p
    ensures StepsOf((pre + [f]) + post, p) == StepsOf(trace + [f], p)
  {
    StepsOfConcat(pre, post, p);
    StepsOfConcat(pre, [f], p);
    StepsOfConcat(pre + [f], post, p);
    StepsOfConcat(trace, [f], p);
    if f.p == p {
      StepsOfNone(post, p);
    } else {
      StepsOfNone([f], p);
    }
  }

  /** Pre-cut steps followed by post-cut steps: the run's steps, each process's in the order it took them. */
  lemma {:induction false} SplitKeepsOrder(pids: seq<Pid>, steps: seq<SysStep>, sid: Sid, p: Pid)
    requires NoRepeat(pids) && |pids| >= 2
    ensures StepsOf(PreTrace(pids, steps, sid) + PostTrace(pids, steps, sid), p) == StepsOf(Trace(pids, steps), p)
  {
    if steps != [] {
      var prefix, e := steps[..|steps| - 1], steps[|steps| - 1];
      var s, pre, post := After(pids, prefix), PreTrace(pids, prefix, sid), PostTrace(pids, prefix, sid);
      SplitKeepsOrder(pids, prefix, sid, p);
      PostIsRecorded(pids, prefix, sid);
      assert pre + [] == pre && post + [] == post && Trace(pids, prefix) + [] == Trace(pids, prefix);
      if PreCut(s, e, sid) && Visible(s, e) != [] {
        assert Visible(s, e) == [Visible(s, e)[0]];
        SplitPre(pre, post, Trace(pids, prefix), Visible(s, e)[0], p);
      } else if !PreCut(s, e, sid) {
        SplitPost(pre, post, Trace(pids, prefix), Visible(s, e), p);
      }
    }
  }

  lemma {:induction false} SplitIsPermutation(pids: seq<Pid>, steps: seq<SysStep>, sid: Sid)
    ensures multiset(PreTrace(pids, steps, sid) + PostTrace(pids, steps, sid)) == multiset(Trace(pids, steps))
  {
    if steps != [] {
      SplitIsPermutation(pids, steps[..|steps| - 1], sid);
    }
  }

  // ---- Completed snapshots ----

  predicate Completed(s: Sys, sid: Sid) {
    sid in s.coord.snapshots && s.coord.snapshots[sid].complete
  }

  /** The global state a snapshot's reports describe. */
  function RecordedState(s: Sys, sid: Sid): Base
    requires sid in s.coord.snapshots
  {
    var locals := s.coord.snapshots[sid].locals;
    Base(map p | p in locals :: locals[p].local,
         map key | key in s.channels && key.to in locals && key.from in locals[key.to].channels ::
           locals[key.to].channels[key.from].messages)
  }

  /** In a completed snapshot everyone has finished and reported, and every channel is closed. */
  ghost predicate AllClosed(s: Sys, sid: Sid)
    requires sid in s.coord.snapshots
  {
    var locals := s.coord.snapshots[sid].locals;
    && locals.Keys == s.locals.Keys
    && (forall p :: p in s.locals ==>
          IsDone(PartOf(s.coord, p, sid)) && ReportsPart(locals[p], p, sid, PartOf(s.coord, p, sid)))
    && (forall key :: key in s.channels ==> key.to in s.locals && Closed(PartOf(s.coord, key.to, sid), key.from))
  }

  lemma CompletedParts(pids: set<Pid>, s: Sys, sid: Sid)
    requires SysInv(pids, s) && Completed(s, sid)
    ensures s.locals.Keys == pids && AllClosed(s, sid)
  {
    assert SnapInv(pids, s, sid);
    forall key | key in s.channels ensures key.to in pids && Closed(PartOf(s.coord, key.to, sid), key.from) {
      assert key == ChannelKey(key.from, key.to);
      assert PartOk(s.coord.procs[key.to].peers, PartOf(s.coord, key.to, sid));
      assert PeersOk(pids, key.to, s.coord.procs[key.to].peers);
      assert key.from in s.coord.procs[key.to].peers;
    }
  }

  lemma ReportIsCut(report: LocalSnapshot, p: Pid, sid: Sid, part: MaybePart, now: Local, i: Pid, q: seq<Item>)
    requires ReportsPart(report, p, sid, part)
    ensures report.local == CutLocal(part, now)
    ensures Closed(part, i) ==> i in report.channels && report.channels[i].messages == CutQueue(part, i, q, sid)
  {}

  lemma RecordedLocals(s: Sys, sid: Sid)
    requires sid in s.coord.snapshots && AllClosed(s, sid)
    ensures RecordedState(s, sid).locals == CutState(s, sid).locals
  {
    var locals := s.coord.snapshots[sid].locals;
    forall p | p in s.locals ensures locals[p].local == CutLocal(PartOf(s.coord, p, sid), s.locals[p]) {
      ReportIsCut(locals[p], p, sid, PartOf(s.coord, p, sid), s.locals[p], p, []);
    }
  }

  lemma RecordedQueues(s: Sys, sid: Sid)
    requires sid in s.coord.snapshots && AllClosed(s, sid)
    ensures RecordedState(s, sid).queues == CutState(s, sid).queues
  {
    var locals := s.coord.snapshots[sid].locals;
    forall key | key in s.channels
      ensures key.to in locals && key.from in locals[key.to].channels
      ensures locals[key.to].channels[key.from].messages
              == CutQueue(PartOf(s.coord, key.to, sid), key.from, s.channels[key], sid)
    {
      ReportIsCut(locals[key.to], key.to, sid, PartOf(s.coord, key.to, sid), s.locals[key.to], key.from,
                  s.channels[key]);
    }
  }

  lemma CompletedIsCut(s: Sys, sid: Sid)
    requires sid in s.coord.snapshots && AllClosed(s, sid)
    ensures RecordedState(s, sid) == CutState(s, sid)
  {
    RecordedLocals(s, sid);
    RecordedQueues(s, sid);
  }

  /** Chandy and Lamport's theorem. The recorded state of a completed snapshot is reached from the initial
      state by some of the run's steps, and the rest lead from it to the state the run is in; the
      reordering only exchanges steps of different processes. */
  lemma RecordedStateIsReachable(pids: seq<Pid>, steps: seq<SysStep>, sid: Sid)
    requires NoRepeat(pids) && |pids| >= 2 && Completed(After(pids, steps), sid)
    ensures var s, init := After(pids, steps), InitBase(pids);
            var pre, post := PreTrace(pids, steps, sid), PostTrace(pids, steps, sid);
            && Legal(init, pre) && Exec(init, pre) == RecordedState(s, sid)
            && Legal(RecordedState(s, sid), post) && Exec(RecordedState(s, sid), post) == Observed(s)
            && multiset(pre + post) == multiset(Trace(pids, steps))
            && forall p :: StepsOf(pre + post, p) == StepsOf(Trace(pids, steps), p)
  {
    ReachableInv(pids, steps);
    CompletedParts(Members(pids), After(pids, steps), sid);
    CompletedIsCut(After(pids, steps), sid);
    CutIsReachable(pids, steps, sid);
    PostLeadsOn(pids, steps, sid);
    SplitIsPermutation(pids, steps, sid);
    forall p ensures StepsOf(PreTrace(pids, steps, sid) + PostTrace(pids, steps, sid), p)
                     == StepsOf(Trace(pids, steps), p)
    {
      SplitKeepsOrder(pids, steps, sid, p);
    }
  }

  /** The cut lies within the snapshot: everything before the initiation is pre-cut. */
  lemma {:induction false} BeforeInitiation(pids: seq<Pid>, steps: seq<SysStep>, sid: Sid)
    requires NoRepeat(pids) && |pids| >= 2 && sid !in After(pids, steps).coord.snapshots
    ensures PreTrace(pids, steps, sid) == Trace(pids, steps) && PostTrace(pids, steps, sid) == []
  {
    if steps != [] {
      var prefix, e := steps[..|steps| - 1], steps[|steps| - 1];
      var s := After(pids, prefix);
      ReachableInv(pids, prefix);
      if sid in s.coord.snapshots { SnapshotsPersist(Members(pids), s, e, sid); }
      BeforeInitiation(pids, prefix, sid);
      assert SnapInv(Members(pids), s, sid);
      if Possible(s, e) { assert PartOf(s.coord, e.p, sid) == NoPart; }
    }
  }

  ghost predicate Persists(c: Coordinator, c': Coordinator, sid: Sid)
    requires sid in c.snapshots
  {
    sid in c'.snapshots && (c.snapshots[sid].complete ==> c'.snapshots[sid].complete)
  }

  lemma MarkerPersists(pids: set<Pid>, s: Sys, from: Pid, p: Pid, t: Sid, sid: Sid)
    requires SysInv(pids, s) && sid in s.coord.snapshots
    requires Possible(s, Arrive(from, p)) && s.channels[ChannelKey(from, p)][0] == Marker(t)
    ensures Persists(s.coord, DoMarker(s, from, p, t).coord, sid)
  {
    var c' := DoMarker(s, from, p, t).coord;
    assert SnapInv(pids, s, t);
    MarkerArrives(pids, s, from, p, t);
    MarkerView(s.coord, p, from, t, s.locals[p]);
    assert t != sid ==> SameReport(s.coord, c', sid);
  }

  lemma MessagePersists(c: Coordinator, p: Pid, from: Pid, m: App, sid: Sid)
    requires p in c.procs && sid in c.snapshots
    ensures Persists(c, MessageSeen(c, p, from, m), sid)
  {
    MessageView(c, p, from, m);
  }

  lemma SnapshotsPersist(pids: set<Pid>, s: Sys, e: SysStep, sid: Sid)
    requires SysInv(pids, s) && sid in s.coord.snapshots
    ensures Persists(s.coord, Do(s, e).coord, sid)
  {
    if Possible(s, e) {
      match e
      case Compute(_) =>
      case SendMessage(_, _) =>
      case Initiate(p, t) => InitiateView(s.coord, p, t, s.locals[p]);
      case Arrive(from, p) =>
        match s.channels[ChannelKey(from, p)][0]
        case Message(m) => MessagePersists(s.coord, p, from, m, sid);
        case Marker(t) => MarkerPersists(pids, s, from, p, t, sid);
    }
  }

  /** ... and everything after the completion is post-cut. */
  lemma {:induction false} AfterCompletion(pids: seq<Pid>, steps: seq<SysStep>, e: SysStep, sid: Sid)
    requires NoRepeat(pids) && |pids| >= 2 && Completed(After(pids, steps), sid)
    ensures PreTrace(pids, steps + [e], sid) == PreTrace(pids, steps, sid)
    ensures Completed(After(pids, steps + [e]), sid)
  {
    var s := After(pids, steps);
    ReachableInv(pids, steps);
    CompletedParts(Members(pids), s, sid);
    SnapshotsPersist(Members(pids), s, e, sid);
    assert (steps + [e])[..|steps|] == steps;
    if Possible(s, e) { assert e.p in Members(pids); }
  }

  /** Channel states are exact: what `i` had sent to `j` at `i`'s cut is what `j` had received from `i` at
      `j`'s cut followed by what was recorded on the channel, as sequences. */
  lemma ChannelStatesAreExact(pids: seq<Pid>, steps: seq<SysStep>, sid: Sid, i: Pid, j: Pid)
    requires NoRepeat(pids) && |pids| >= 2 && Completed(After(pids, steps), sid)
    requires i in pids && j in pids && i != j
    ensures var locals := After(pids, steps).coord.snapshots[sid].locals;
            && i in locals && j in locals && i in locals[j].channels
            && SentTo(locals[i].local, j) == ReceivedFrom(locals[j].local, i) + locals[j].channels[i].messages
  {
    var s := After(pids, steps);
    ReachableInv(pids, steps);
    CompletedParts(Members(pids), s, sid);
    CompletedIsCut(s, sid);
    CutIsReachable(pids, steps, sid);
    ExecKeepsInv(pids, PreTrace(pids, steps, sid));
    assert FifoExact(RecordedState(s, sid), i, j);
  }

  /** No recorded clock knows more of a process than that process's own recorded clock does. */
  lemma RecordedClocksAreConsistent(pids: seq<Pid>, steps: seq<SysStep>, sid: Sid, i: Pid, t: Pid)
    requires NoRepeat(pids) && |pids| >= 2 && Completed(After(pids, steps), sid)
    requires i in pids && t in pids
    ensures var locals := After(pids, steps).coord.snapshots[sid].locals;
            && i in locals && t in locals
            && Get(locals[i].local.clock, t) <= Get(locals[t].local.clock, t)
  {
    var s := After(pids, steps);
    ReachableInv(pids, steps);
    CompletedParts(Members(pids), s, sid);
    CompletedIsCut(s, sid);
    CutIsReachable(pids, steps, sid);
    ExecKeepsInv(pids, PreTrace(pids, steps, sid));
    assert Bounded(RecordedState(s, sid), t);
  }
}
