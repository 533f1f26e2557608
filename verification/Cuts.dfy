/** Consistent cuts: the test, the exhaustive enumeration, and the cut before a vector time. */
module Cuts {
  import opened VectorClock
  import opened CausalGraphs

  /** Per process, the last event included; -1 is before the first. */
  type Frontier = map<Pid, int>

  /** A send and a receive of the same message. */
  datatype Message = Message(id: MessageId, send: EventId, receive: EventId)

  datatype MaybeEvent = NotFound | Found(event: Event)

  // ---- The consistency test ----

  /** The first event with this id. */
  function Find(events: seq<Event>, id: EventId): MaybeEvent {
    if events == [] then NotFound else if events[0].id == id then Found(events[0]) else Find(events[1..], id)
  }

  /** A process without a frontier has nothing in the cut. */
  predicate InCut(f: Frontier, e: Event) {
    e.process in f && e.localSeq <= f[e.process]
  }

  /** A message whose two events are known is not received without being sent. */
  predicate Respected(f: Frontier, send: MaybeEvent, receive: MaybeEvent) {
    send.Found? && receive.Found? && InCut(f, receive.event) ==> InCut(f, send.event)
  }

  predicate Consistent(f: Frontier, events: seq<Event>, messages: seq<Message>) {
    forall m :: m in messages ==> Respected(f, Find(events, m.send), Find(events, m.receive))
  }

  /** The event at position `i` is the first one with this id. */
  predicate FirstAt(events: seq<Event>, id: EventId, i: nat) {
    i < |events| && events[i].id == id && forall j :: 0 <= j < i ==> events[j].id != id
  }

  /** Position `i` is the first event with the id, and in the cut: its process has a frontier that reaches it. */
  predicate IncludedAt(f: Frontier, events: seq<Event>, id: EventId, i: nat) {
    FirstAt(events, id, i) && events[i].process in f && events[i].localSeq <= f[events[i].process]
  }

  /** The send of the message is known and not included, and its receive is included. */
  ghost predicate FailsOn(f: Frontier, events: seq<Event>, m: Message) {
    exists i, j ::
      FirstAt(events, m.send, i) && !IncludedAt(f, events, m.send, i) && IncludedAt(f, events, m.receive, j)
  }

  lemma RespectedMeans(f: Frontier, events: seq<Event>, m: Message)
    ensures !Respected(f, Find(events, m.send), Find(events, m.receive)) <==> FailsOn(f, events, m)
  {
    var i := FindsFirst(events, m.send);
    var j := FindsFirst(events, m.receive);
    if a, b :| FirstAt(events, m.send, a) && !IncludedAt(f, events, m.send, a) && IncludedAt(f, events, m.receive, b) {
      assert a == i && b == j;
    }
    if !Respected(f, Find(events, m.send), Find(events, m.receive)) {
      assert FirstAt(events, m.send, i) && !IncludedAt(f, events, m.send, i) && IncludedAt(f, events, m.receive, j);
    }
  }

  /** A cut fails exactly on the messages it receives without their known send. */
  lemma FailsExactly(f: Frontier, events: seq<Event>, messages: seq<Message>)
    ensures !Consistent(f, events, messages) <==> exists m :: m in messages && FailsOn(f, events, m)
  {
    forall m | m in messages
      ensures !Respected(f, Find(events, m.send), Find(events, m.receive)) <==> FailsOn(f, events, m)
    {
      RespectedMeans(f, events, m);
    }
  }

  lemma {:induction false} FindsFirst(events: seq<Event>, id: EventId) returns (i: nat)
    ensures if Find(events, id).Found? then FirstAt(events, id, i) && Find(events, id) == Found(events[i])
            else forall j :: 0 <= j < |events| ==> events[j].id != id
    decreases |events|
  {
    if events == [] || events[0].id == id {
      i := 0;
    } else {
      var k := FindsFirst(events[1..], id);
      i := k + 1;
    }
  }

  method FindEvent(events: seq<Event>, id: EventId) returns (e: MaybeEvent)
    ensures e == Find(events, id)
    ensures e.NotFound? <==> forall i :: 0 <= i < |events| ==> events[i].id != id
    ensures e.Found? ==> exists i :: 0 <= i < |events| && events[i] == e.event && FirstAt(events, id, i)
  {
    for i := 0 to |events|
      invariant Find(events, id) == Find(events[i..], id)
      invariant forall j :: 0 <= j < i ==> events[j].id != id
    {
      if events[i].id == id {
        assert FirstAt(events, id, i);
        return Found(events[i]);
      }
    }
    return NotFound;
  }

  method IsConsistent(f: Frontier, events: seq<Event>, messages: seq<Message>) returns (ok: bool)
    ensures ok == Consistent(f, events, messages)
  {
    for k := 0 to |messages|
      invariant forall l :: 0 <= l < k ==>
        Respected(f, Find(events, messages[l].send), Find(events, messages[l].receive))
    {
      var send := FindEvent(events, messages[k].send);
      var receive := FindEvent(events, messages[k].receive);
      if send == NotFound || receive == NotFound {
        continue;
      }
      if receive.event.process !in f {
        continue;
      }
      var received := receive.event.localSeq <= f[receive.event.process];
      var sent := send.event.process in f && send.event.localSeq <= f[send.event.process];
      if received && !sent {
        assert !Respected(f, Find(events, messages[k].send), Find(events, messages[k].receive));
        return false;
      }
    }
    ok := true;
  }

  // ---- Consistent cuts form a lattice ----

  function Meet(f: Frontier, g: Frontier): (r: Frontier)
    requires f.Keys == g.Keys
    ensures r.Keys == f.Keys
    ensures forall p :: p in f ==> r[p] <= f[p] && r[p] <= g[p] && (r[p] == f[p] || r[p] == g[p])
  {
    map p | p in f :: if f[p] < g[p] then f[p] else g[p]
  }

  function Join(f: Frontier, g: Frontier): (r: Frontier)
    requires f.Keys == g.Keys
    ensures r.Keys == f.Keys
    ensures forall p :: p in f ==> f[p] <= r[p] && g[p] <= r[p] && (r[p] == f[p] || r[p] == g[p])
  {
    map p | p in f :: if f[p] < g[p] then g[p] else f[p]
  }

  /** Consistent cuts are closed under intersection and union. */
  lemma ConsistentLattice(f: Frontier, g: Frontier, events: seq<Event>, messages: seq<Message>)
    requires f.Keys == g.Keys && Consistent(f, events, messages) && Consistent(g, events, messages)
    ensures Consistent(Meet(f, g), events, messages) && Consistent(Join(f, g), events, messages)
  {}

  // ---- Grouping ----

  function OfProcess(events: seq<Event>, p: Pid): seq<Event> {
    if events == [] then []
    else
      var last := events[|events| - 1];
      OfProcess(events[..|events| - 1], p) + if last.process == p then [last] else []
  }

  lemma {:induction false} OfProcessHolds(events: seq<Event>, p: Pid)
    ensures forall e :: e in OfProcess(events, p) <==> e in events && e.process == p
  {
    if events != [] {
      OfProcessHolds(events[..|events| - 1], p);
      assert events == events[..|events| - 1] + [events[|events| - 1]];
    }
  }

  function Processes(events: seq<Event>): set<Pid> {
    set e | e in events :: e.process
  }

  /** Each process's events, in the order they appear. */
  function Grouped(events: seq<Event>): map<Pid, seq<Event>> {
    map p | p in Processes(events) :: OfProcess(events, p)
  }

  lemma ProcessesMore(events: seq<Event>, i: nat)
    requires i < |events|
    ensures events[..i + 1][..i] == events[..i]
    ensures Processes(events[..i + 1]) == Processes(events[..i]) + {events[i].process}
  {}

  method GroupByProcess(events: seq<Event>) returns (groups: map<Pid, seq<Event>>)
    ensures groups == Grouped(events)
  {
    groups := map[];
    for i := 0 to |events|
      invariant groups.Keys == Processes(events[..i])
      invariant forall p :: p in groups ==> groups[p] == OfProcess(events[..i], p)
    {
      var e := events[i];
      ProcessesMore(events, i);
      forall p ensures OfProcess(events[..i + 1], p) == OfProcess(events[..i], p) + if e.process == p then [e] else [] {
        OfProcessMore(events, i, p);
      }
      NoGroupYet(events[..i], e.process);
      groups := groups[e.process := (if e.process in groups then groups[e.process] else []) + [e]];
    }
    assert events[..|events|] == events;
  }

  lemma OfProcessMore(events: seq<Event>, i: nat, p: Pid)
    requires i < |events|
    ensures OfProcess(events[..i + 1], p)
            == OfProcess(events[..i], p) + if events[i].process == p then [events[i]] else []
  {
    assert events[..i + 1][..i] == events[..i];
  }

  lemma {:induction false} NoGroupYet(events: seq<Event>, p: Pid)
    ensures p !in Processes(events) ==> OfProcess(events, p) == []
    decreases |events|
  {
    if events != [] { NoGroupYet(events[..|events| - 1], p); }
  }

  // ---- Enumeration ----

  /** The frontiers a process can have: before its first event, or at one of its events. */
  function Choice(es: seq<Event>, i: nat): int
    requires i <= |es|
  {
    if i == 0 then -1 else es[i - 1].localSeq
  }

  predicate IsChoice(es: seq<Event>, c: int) {
    exists i :: 0 <= i <= |es| && Choice(es, i) == c
  }

  /** Every combination for the processes in `pids`, in the order the recursion visits them. */
  function All(base: Frontier, pids: seq<Pid>, groups: map<Pid, seq<Event>>): seq<Frontier>
    requires forall p :: p in pids ==> p in groups
    decreases |pids|, 1, 0
  {
    if pids == [] then [base] else assert pids[0] in pids; Branches(base, pids, groups, |groups[pids[0]]| + 1)
  }

  /** The first `n` choices for the first process. */
  function Branches(base: Frontier, pids: seq<Pid>, groups: map<Pid, seq<Event>>, n: nat): seq<Frontier>
    requires pids != [] && (forall p :: p in pids ==> p in groups) && n <= |groups[pids[0]]| + 1
    decreases |pids|, 0, n
  {
    if n == 0 then []
    else
      Branches(base, pids, groups, n - 1) + All(base[pids[0] := Choice(groups[pids[0]], n - 1)], pids[1..], groups)
  }

  function Kept(fs: seq<Frontier>, events: seq<Event>, messages: seq<Message>): seq<Frontier> {
    if fs == [] then []
    else
      var last := fs[|fs| - 1];
      Kept(fs[..|fs| - 1], events, messages) + if Consistent(last, events, messages) then [last] else []
  }

  lemma {:induction false} KeptOfSum(fs: seq<Frontier>, gs: seq<Frontier>, events: seq<Event>, messages: seq<Message>)
    ensures Kept(fs + gs, events, messages) == Kept(fs, events, messages) + Kept(gs, events, messages)
    decreases |gs|
  {
    if gs == [] {
      assert fs + gs == fs;
    } else {
      var init, last := gs[..|gs| - 1], gs[|gs| - 1];
      KeptOfSum(fs, init, events, messages);
      assert (fs + gs)[..|fs + gs| - 1] == fs + init;
    }
  }

  /** The two maps agree outside `pids`. */
  ghost predicate AgreeOutside(f: Frontier, g: Frontier, pids: seq<Pid>) {
    forall q :: q !in pids ==> (q in f <==> q in g) && (q in f && q in g ==> f[q] == g[q])
  }

  /** What the shared map holds for processes still to be set does not matter. */
  lemma {:induction false} AllIgnoresRest(f: Frontier, g: Frontier, pids: seq<Pid>, groups: map<Pid, seq<Event>>)
    requires (forall p :: p in pids ==> p in groups) && AgreeOutside(f, g, pids)
    ensures All(f, pids, groups) == All(g, pids, groups)
    decreases |pids|, 1, 0
  {
    if pids == [] {
      assert f == g;
    } else {
      assert pids[0] in pids;
      BranchesIgnoreRest(f, g, pids, groups, |groups[pids[0]]| + 1);
    }
  }

  lemma {:induction false} BranchesIgnoreRest(f: Frontier, g: Frontier, pids: seq<Pid>, groups: map<Pid, seq<Event>>,
                                              n: nat)
    requires pids != [] && (forall p :: p in pids ==> p in groups) && n <= |groups[pids[0]]| + 1
    requires AgreeOutside(f, g, pids)
    ensures Branches(f, pids, groups, n) == Branches(g, pids, groups, n)
    decreases |pids|, 0, n
  {
    if n > 0 {
      var c := Choice(groups[pids[0]], n - 1);
      BranchesIgnoreRest(f, g, pids, groups, n - 1);
      AgreeFurther(f, g, pids, c);
      AllIgnoresRest(f[pids[0] := c], g[pids[0] := c], pids[1..], groups);
    }
  }

  lemma AgreeFurther(f: Frontier, g: Frontier, pids: seq<Pid>, c: int)
    requires pids != [] && AgreeOutside(f, g, pids)
    ensures AgreeOutside(f[pids[0] := c], g[pids[0] := c], pids[1..])
  {}

  /** The branch of the next choice, explored from whatever the earlier branches left in the map. */
  lemma NextBranch(base: Frontier, now: Frontier, pids: seq<Pid>, groups: map<Pid, seq<Event>>, i: nat,
                   events: seq<Event>, messages: seq<Message>)
    requires pids != [] && (forall p :: p in pids ==> p in groups) && i <= |groups[pids[0]]|
    requires AgreeOutside(now, base, pids)
    ensures var chosen := now[pids[0] := Choice(groups[pids[0]], i)];
            Kept(Branches(base, pids, groups, i + 1), events, messages)
            == Kept(Branches(base, pids, groups, i), events, messages)
               + Kept(All(chosen, pids[1..], groups), events, messages)
  {
    var c := Choice(groups[pids[0]], i);
    AgreeFurther(now, base, pids, c);
    AllIgnoresRest(now[pids[0] := c], base[pids[0] := c], pids[1..], groups);
    KeptOfSum(Branches(base, pids, groups, i), All(base[pids[0] := c], pids[1..], groups), events, messages);
  }

  lemma AgreeBack(f: Frontier, g: Frontier, h: Frontier, pids: seq<Pid>, c: int)
    requires pids != [] && AgreeOutside(f, g[pids[0] := c], pids[1..]) && AgreeOutside(g, h, pids)
    ensures AgreeOutside(f, h, pids)
  {}

  /** The search below `base` has tried `i` choices for the first process; `now` is what the map holds. */
  ghost predicate Explored(base: Frontier, start: seq<Frontier>, now: Frontier, found: seq<Frontier>, pids: seq<Pid>,
                           groups: map<Pid, seq<Event>>, i: nat, events: seq<Event>, messages: seq<Message>)
    requires pids != [] && (forall p :: p in pids ==> p in groups) && i <= |groups[pids[0]]| + 1
  {
    && found == start + Kept(Branches(base, pids, groups, i), events, messages)
    && AgreeOutside(now, base, pids)
  }

  lemma ExploreNext(base: Frontier, start: seq<Frontier>, now: Frontier, found: seq<Frontier>, now': Frontier,
                    found': seq<Frontier>, pids: seq<Pid>, groups: map<Pid, seq<Event>>, i: nat, events: seq<Event>,
                    messages: seq<Message>)
    requires pids != [] && (forall p :: p in pids ==> p in groups) && i <= |groups[pids[0]]|
    requires Explored(base, start, now, found, pids, groups, i, events, messages)
    requires var chosen := now[pids[0] := Choice(groups[pids[0]], i)];
             && found' == found + Kept(All(chosen, pids[1..], groups), events, messages)
             && AgreeOutside(now', chosen, pids[1..])
    ensures Explored(base, start, now', found', pids, groups, i + 1, events, messages)
  {
    var chosen := now[pids[0] := Choice(groups[pids[0]], i)];
    NextBranch(base, now, pids, groups, i, events, messages);
    Associate(start, Kept(Branches(base, pids, groups, i), events, messages),
              Kept(All(chosen, pids[1..], groups), events, messages));
    AgreeBack(now', now, base, pids, Choice(groups[pids[0]], i));
  }

  class CutEnumeration {
    /** Shared by all levels of the recursion. */
    var frontier: Frontier
    var result: seq<Frontier>

    constructor ()
      ensures frontier == map[] && result == []
    {
      frontier, result := map[], [];
    }

    method Enumerate(pids: seq<Pid>, idx: nat, groups: map<Pid, seq<Event>>, events: seq<Event>, messages: seq<Message>)
      requires idx <= |pids| && forall p :: p in pids ==> p in groups
      modifies this
      ensures result == old(result) + Kept(All(old(frontier), pids[idx..], groups), events, messages)
      ensures AgreeOutside(frontier, old(frontier), pids[idx..])
      decreases |pids| - idx
    {
      if idx == |pids| {
        var ok := IsConsistent(frontier, events, messages);
        KeptOne(frontier, events, messages);
        if ok {
          result := result + [frontier];
        }
        return;
      }
      var p := pids[idx];
      ghost var left, base, start := pids[idx..], frontier, result;
      assert left[0] == p && left[1..] == pids[idx + 1..];
      assert start + [] == start;
      for i := 0 to |groups[p]| + 1
        invariant Explored(base, start, frontier, result, left, groups, i, events, messages)
      {
        ghost var now, found := frontier, result;
        frontier := frontier[p := if i == 0 then -1 else groups[p][i - 1].localSeq];
        Enumerate(pids, idx + 1, groups, events, messages);
        ExploreNext(base, start, now, found, frontier, result, left, groups, i, events, messages);
      }
    }
  }

  lemma Associate(a: seq<Frontier>, b: seq<Frontier>, c: seq<Frontier>)
    ensures (a + b) + c == a + (b + c)
  {}

  lemma KeptOne(f: Frontier, events: seq<Event>, messages: seq<Message>)
    ensures Kept([f], events, messages) == if Consistent(f, events, messages) then [f] else []
  {}

  // ---- What the enumeration yields ----

  ghost predicate Combination(f: Frontier, base: Frontier, pids: seq<Pid>, groups: map<Pid, seq<Event>>)
    requires forall p :: p in pids ==> p in groups
  {
    AgreeOutside(f, base, pids) && forall p :: p in pids ==> p in f && IsChoice(groups[p], f[p])
  }

  ghost predicate BranchOf(f: Frontier, base: Frontier, pids: seq<Pid>, groups: map<Pid, seq<Event>>, i: nat)
    requires pids != [] && (forall p :: p in pids ==> p in groups) && i <= |groups[pids[0]]|
  {
    Combination(f, base[pids[0] := Choice(groups[pids[0]], i)], pids[1..], groups)
  }

  lemma {:induction false} AllHolds(base: Frontier, pids: seq<Pid>, groups: map<Pid, seq<Event>>, f: Frontier)
    requires NoRepeat(pids) && forall p :: p in pids ==> p in groups
    ensures f in All(base, pids, groups) <==> Combination(f, base, pids, groups)
    decreases |pids|, 1, 0
  {
    if pids == [] {
      assert Combination(f, base, pids, groups) <==> f == base;
    } else {
      BranchesHold(base, pids, groups, |groups[pids[0]]| + 1, f);
      CombinationBranches(f, base, pids, groups);
    }
  }

  lemma {:induction false} BranchesHold(base: Frontier, pids: seq<Pid>, groups: map<Pid, seq<Event>>, n: nat,
                                        f: Frontier)
    requires pids != [] && NoRepeat(pids) && (forall p :: p in pids ==> p in groups) && n <= |groups[pids[0]]| + 1
    ensures f in Branches(base, pids, groups, n) <==> exists i :: 0 <= i < n && BranchOf(f, base, pids, groups, i)
    decreases |pids|, 0, n
  {
    if n > 0 {
      BranchesHold(base, pids, groups, n - 1, f);
      AllHolds(base[pids[0] := Choice(groups[pids[0]], n - 1)], pids[1..], groups, f);
      assert f in All(base[pids[0] := Choice(groups[pids[0]], n - 1)], pids[1..], groups)
             <==> BranchOf(f, base, pids, groups, n - 1);
    }
  }

  lemma CombinationBranches(f: Frontier, base: Frontier, pids: seq<Pid>, groups: map<Pid, seq<Event>>)
    requires pids != [] && NoRepeat(pids) && forall p :: p in pids ==> p in groups
    ensures Combination(f, base, pids, groups)
            <==> exists i :: 0 <= i < |groups[pids[0]]| + 1 && BranchOf(f, base, pids, groups, i)
  {
    var p, rest := pids[0], pids[1..];
    assert pids == [p] + rest && p !in rest;
    if Combination(f, base, pids, groups) {
      assert IsChoice(groups[p], f[p]);
      var i :| 0 <= i <= |groups[p]| && Choice(groups[p], i) == f[p];
      assert BranchOf(f, base, pids, groups, i);
    }
    if i :| 0 <= i < |groups[p]| + 1 && BranchOf(f, base, pids, groups, i) {
      assert f[p] == Choice(groups[p], i);
    }
  }

  // ---- Each cut once ----

  predicate DistinctChoices(es: seq<Event>) {
    forall i, j :: 0 <= i < j <= |es| ==> Choice(es, i) != Choice(es, j)
  }

  predicate EachOnce(fs: seq<Frontier>) {
    forall i, j :: 0 <= i < j < |fs| ==> fs[i] != fs[j]
  }

  lemma EachOnceSum(fs: seq<Frontier>, gs: seq<Frontier>)
    requires EachOnce(fs) && EachOnce(gs) && forall f :: f in fs ==> f !in gs
    ensures EachOnce(fs + gs)
  {
    var hs := fs + gs;
    forall i, j | 0 <= i < j < |hs| ensures hs[i] != hs[j] {
      if i < |fs| <= j {
        assert fs[i] in fs && gs[j - |fs|] in gs;
        assert fs[i] !in gs;
      }
    }
  }

  lemma {:induction false} AllOnce(base: Frontier, pids: seq<Pid>, groups: map<Pid, seq<Event>>)
    requires NoRepeat(pids) && forall p :: p in pids ==> p in groups && DistinctChoices(groups[p])
    ensures EachOnce(All(base, pids, groups))
    decreases |pids|, 1, 0
  {
    if pids != [] {
      assert pids[0] in pids;
      BranchesOnce(base, pids, groups, |groups[pids[0]]| + 1);
    }
  }

  lemma {:induction false} BranchesOnce(base: Frontier, pids: seq<Pid>, groups: map<Pid, seq<Event>>, n: nat)
    requires pids != [] && NoRepeat(pids) && forall p :: p in pids ==> p in groups && DistinctChoices(groups[p])
    requires n <= |groups[pids[0]]| + 1
    ensures EachOnce(Branches(base, pids, groups, n))
    decreases |pids|, 0, n
  {
    if n > 0 {
      var chosen := base[pids[0] := Choice(groups[pids[0]], n - 1)];
      BranchesOnce(base, pids, groups, n - 1);
      AllOnce(chosen, pids[1..], groups);
      forall f | f in Branches(base, pids, groups, n - 1) ensures f !in All(chosen, pids[1..], groups) {
        BranchesHold(base, pids, groups, n - 1, f);
        AllHolds(chosen, pids[1..], groups, f);
        var i :| 0 <= i < n - 1 && BranchOf(f, base, pids, groups, i);
        BranchValue(f, base, pids, groups, i);
        if f in All(chosen, pids[1..], groups) { BranchValue(f, base, pids, groups, n - 1); }
      }
      EachOnceSum(Branches(base, pids, groups, n - 1), All(chosen, pids[1..], groups));
    }
  }

  lemma BranchValue(f: Frontier, base: Frontier, pids: seq<Pid>, groups: map<Pid, seq<Event>>, i: nat)
    requires pids != [] && NoRepeat(pids) && (forall p :: p in pids ==> p in groups) && i <= |groups[pids[0]]|
    requires BranchOf(f, base, pids, groups, i)
    ensures pids[0] in f && f[pids[0]] == Choice(groups[pids[0]], i)
  {}

  lemma {:induction false} KeptHolds(fs: seq<Frontier>, events: seq<Event>, messages: seq<Message>)
    ensures forall f :: f in Kept(fs, events, messages) <==> f in fs && Consistent(f, events, messages)
    ensures EachOnce(fs) ==> EachOnce(Kept(fs, events, messages))
  {
    if fs != [] {
      var init, last := fs[..|fs| - 1], fs[|fs| - 1];
      KeptHolds(init, events, messages);
      assert fs == init + [last];
      if EachOnce(fs) {
        assert last !in init;
        EachOnceSum(Kept(init, events, messages), if Consistent(last, events, messages) then [last] else []);
      }
    }
  }

  predicate DistinctSeqs(events: seq<Event>) {
    forall i, j :: 0 <= i < j < |events| && events[i].process == events[j].process ==>
      events[i].localSeq != events[j].localSeq
  }

  lemma OneChoiceMore(es: seq<Event>, more: seq<Event>)
    requires DistinctChoices(es) && |more| <= 1
    requires forall e, l :: e in es && l in more ==> e.localSeq != l.localSeq
    ensures DistinctChoices(es + more)
  {
    var all := es + more;
    forall i, j | 0 <= i < j <= |all| ensures Choice(all, i) != Choice(all, j) {
      if j <= |es| {
        assert Choice(es, i) != Choice(es, j);
      } else if i > 0 {
        assert es[i - 1] in es && all[j - 1] in more;
      }
    }
  }

  lemma {:induction false} GroupsDistinct(events: seq<Event>, p: Pid)
    requires DistinctSeqs(events)
    ensures DistinctChoices(OfProcess(events, p))
  {
    if events != [] {
      var init, last := events[..|events| - 1], events[|events| - 1];
      GroupsDistinct(init, p);
      OfProcessHolds(init, p);
      forall e | e in OfProcess(init, p) && last.process == p ensures e.localSeq != last.localSeq {
        var k :| 0 <= k < |init| && init[k] == e;
        assert events[k] == e;
      }
      OneChoiceMore(OfProcess(init, p), if last.process == p then [last] else []);
    }
  }

  /** Every process at one of its events or before its first. */
  predicate Candidate(f: Frontier, events: seq<Event>) {
    f.Keys == Processes(events) &&
    forall p :: p in f ==> f[p] == -1 || exists e :: e in events && e.process == p && e.localSeq == f[p]
  }

  lemma ChoicesAreEvents(events: seq<Event>, p: Pid, c: int)
    ensures IsChoice(OfProcess(events, p), c)
            <==> c == -1 || exists e :: e in events && e.process == p && e.localSeq == c
  {
    var es := OfProcess(events, p);
    OfProcessHolds(events, p);
    assert Choice(es, 0) == -1;
    if e :| e in events && e.process == p && e.localSeq == c {
      var k :| 0 <= k < |es| && es[k] == e;
      assert Choice(es, k + 1) == c;
    }
    if i :| 0 <= i <= |es| && Choice(es, i) == c && i > 0 {
      assert es[i - 1] in es;
    }
  }

  method KeysOf(groups: map<Pid, seq<Event>>) returns (pids: seq<Pid>)
    ensures NoRepeat(pids) && forall p :: p in pids <==> p in groups
  {
    pids := [];
    var todo := groups.Keys;
    while todo != {}
      invariant todo <= groups.Keys && NoRepeat(pids)
      invariant forall p :: p in pids <==> p in groups && p !in todo
    {
      var p :| p in todo;
      todo := todo - {p};
      pids := pids + [p];
    }
  }

  /** Exactly the consistent ones among all combinations, each once when no process repeats a number. */
  method FindConsistentCuts(events: seq<Event>, messages: seq<Message>) returns (cuts: seq<Frontier>)
    ensures forall f :: f in cuts <==> Candidate(f, events) && Consistent(f, events, messages)
    ensures DistinctSeqs(events) ==> EachOnce(cuts)
  {
    var groups := GroupByProcess(events);
    var pids := KeysOf(groups);
    var search := new CutEnumeration();
    assert pids[0..] == pids;
    search.Enumerate(pids, 0, groups, events, messages);
    cuts := search.result;
    KeptHolds(All(map[], pids, groups), events, messages);
    forall f ensures f in All(map[], pids, groups) <==> Candidate(f, events) {
      CandidatesAreCombinations(f, pids, events);
    }
    if DistinctSeqs(events) {
      forall p | p in pids ensures DistinctChoices(groups[p]) { GroupsDistinct(events, p); }
      AllOnce(map[], pids, groups);
    }
  }

  lemma CandidatesAreCombinations(f: Frontier, pids: seq<Pid>, events: seq<Event>)
    requires NoRepeat(pids) && forall p :: p in pids <==> p in Processes(events)
    ensures f in All(map[], pids, Grouped(events)) <==> Candidate(f, events)
  {
    AllHolds(map[], pids, Grouped(events), f);
    forall p, c ensures IsChoice(OfProcess(events, p), c)
                        <==> c == -1 || exists e :: e in events && e.process == p && e.localSeq == c
    {
      ChoicesAreEvents(events, p, c);
    }
    if Combination(f, map[], pids, Grouped(events)) {
      assert f.Keys == Processes(events);
    }
  }

  // ---- The cut before a vector time ----

  /** The highest number of `p` that is positive and within the limit, or -1. */
  function Latest(events: seq<Event>, p: Pid, limit: nat): int {
    if events == [] then -1
    else
      var e, before := events[|events| - 1], Latest(events[..|events| - 1], p, limit);
      if e.process == p && 0 < e.localSeq <= limit && before < e.localSeq then e.localSeq else before
  }

  function Before(vc: Clock, events: seq<Event>): Frontier {
    map p | p in Processes(events) :: Latest(events, p, Get(vc, p))
  }

  /** The events within the limit, numbered from 1. */
  predicate Within(e: Event, p: Pid, limit: nat) {
    e.process == p && 0 < e.localSeq <= limit
  }

  lemma {:induction false} LatestIsMax(events: seq<Event>, p: Pid, limit: nat)
    ensures forall e :: e in events && Within(e, p, limit) ==> e.localSeq <= Latest(events, p, limit)
    ensures Latest(events, p, limit) != -1 ==>
              exists e :: e in events && Within(e, p, limit) && e.localSeq == Latest(events, p, limit)
    ensures -1 <= Latest(events, p, limit) && Latest(events, p, limit) != 0
  {
    if events != [] {
      var init, last := events[..|events| - 1], events[|events| - 1];
      LatestIsMax(init, p, limit);
      assert events == init + [last];
      if Latest(init, p, limit) != -1 {
        var e :| e in init && Within(e, p, limit) && e.localSeq == Latest(init, p, limit);
        assert e in events;
      }
      assert last in events;
    }
  }

  /** An event is in the cut before `vc` exactly when `vc` covers it, except that a process none of whose
      covered numbers is positive contributes nothing: an event numbered 0 alone is left out. */
  lemma CutBeforeCovers(vc: Clock, events: seq<Event>, e: Event)
    requires e in events
    ensures InCut(Before(vc, events), e) <==>
              e.localSeq <= Get(vc, e.process) && exists x :: x in events && Within(x, e.process, Get(vc, e.process))
  {
    var limit := Get(vc, e.process);
    LatestIsMax(events, e.process, limit);
    assert e.process in Processes(events);
    if Latest(events, e.process, limit) != -1 {
      var x :| x in events && Within(x, e.process, limit) && x.localSeq == Latest(events, e.process, limit);
      if e.localSeq > 0 && e.localSeq <= limit { assert Within(e, e.process, limit); }
    }
  }

  /** The frontier of a process is its clock entry exactly when one of its events bears that number. */
  lemma FrontierIsEntry(vc: Clock, events: seq<Event>, p: Pid)
    requires p in Processes(events)
    ensures p in Before(vc, events)
    ensures Before(vc, events)[p] == Get(vc, p) <==>
              Get(vc, p) > 0 && exists e :: e in events && e.process == p && e.localSeq == Get(vc, p)
  {
    LatestIsMax(events, p, Get(vc, p));
    if e :| e in events && e.process == p && e.localSeq == Get(vc, p) > 0 {
      assert Within(e, p, Get(vc, p));
    }
  }

  /** An event numbered 0, the only one of its process, is left out although every clock covers it. */
  lemma ZeroIsLeftOut(vc: Clock, e: Event)
    requires e.localSeq == 0
    ensures e.localSeq <= Get(vc, e.process) && !InCut(Before(vc, [e]), e)
  {
    CutBeforeCovers(vc, [e], e);
  }

  lemma LatestMore(events: seq<Event>, i: nat, p: Pid, limit: nat)
    requires i < |events|
    ensures Latest(events[..i + 1], p, limit)
            == var e, before := events[i], Latest(events[..i], p, limit);
               if Within(e, p, limit) && before < e.localSeq then e.localSeq else before
  {
    assert events[..i + 1][..i] == events[..i];
  }

  method CutBefore(vc: Clock, events: seq<Event>) returns (frontier: Frontier)
    ensures frontier == Before(vc, events)
  {
    frontier := map[];
    for i := 0 to |events|
      invariant forall p :: p in frontier <==> Latest(events[..i], p, Get(vc, p)) != -1
      invariant forall p :: p in frontier ==> frontier[p] == Latest(events[..i], p, Get(vc, p)) && frontier[p] > 0
    {
      var e := events[i];
      forall p ensures Latest(events[..i + 1], p, Get(vc, p))
                       == var before := Latest(events[..i], p, Get(vc, p));
                          if Within(e, p, Get(vc, p)) && before < e.localSeq then e.localSeq else before
      {
        LatestMore(events, i, p, Get(vc, p));
      }
      if e.localSeq <= Get(vc, e.process) && e.localSeq > (if e.process in frontier then frontier[e.process] else 0) {
        frontier := frontier[e.process := e.localSeq];
      }
    }
    assert events[..|events|] == events;
    var groups := GroupByProcess(events);
    forall p | p in frontier ensures p in groups {
      LatestIsMax(events, p, Get(vc, p));
    }
    frontier := FillIn(frontier, groups.Keys);
    assert frontier == Before(vc, events);
  }

  method FillIn(frontier: Frontier, pids: set<Pid>) returns (f: Frontier)
    ensures f.Keys == frontier.Keys + pids
    ensures forall p :: p in f ==> f[p] == if p in frontier then frontier[p] else -1
  {
    f := frontier;
    var todo := pids;
    while todo != {}
      invariant todo <= pids
      invariant f.Keys == frontier.Keys + (pids - todo)
      invariant forall p :: p in f ==> f[p] == if p in frontier then frontier[p] else -1
    {
      var p :| p in todo;
      todo := todo - {p};
      if p !in f {
        f := f[p := -1];
      }
    }
  }

  // ---- Pairing sends with receives ----

  predicate Matches(send: Event, receive: Event) {
    && send.kind == SendEvent && send.message != NoMessage
    && receive.kind == ReceiveEvent && receive.message == send.message
  }

  /** The messages are the pairs of a send and a receive that share a message id. */
  ghost predicate ArePairs(events: seq<Event>, messages: seq<Message>) {
    forall m :: m in messages <==>
      exists s, r :: s in events && r in events && Matches(s, r) && m == Message(s.message, s.id, r.id)
  }

  ghost predicate PairOf(m: Message, sends: seq<Event>, receives: seq<Event>) {
    exists s, r :: s in sends && r in receives && Matches(s, r) && m == Message(s.message, s.id, r.id)
  }

  method FindMessages(events: seq<Event>) returns (messages: seq<Message>)
    ensures ArePairs(events, messages)
    ensures forall m :: m in messages <==>
              exists s, r :: s in events && r in events && s.kind == SendEvent && s.message != NoMessage
                             && r.kind == ReceiveEvent && r.message == s.message && m == Message(s.message, s.id, r.id)
  {
    messages := [];
    for i := 0 to |events|
      invariant forall m :: m in messages <==> PairOf(m, events[..i], events)
    {
      var e := events[i];
      assert events[..i + 1] == events[..i] + [e];
      if e.kind == SendEvent && e.message != NoMessage {
        ghost var before := messages;
        for j := 0 to |events|
          invariant forall m :: m in messages <==> m in before || PairOf(m, [e], events[..j])
        {
          var r := events[j];
          assert events[..j + 1] == events[..j] + [r];
          if r.kind == ReceiveEvent && r.message == e.message {
            messages := messages + [Message(e.message, e.id, r.id)];
            assert Matches(e, r);
          }
        }
        assert events[..|events|] == events;
      }
    }
    assert events[..|events|] == events;
  }
}
