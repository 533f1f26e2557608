/** The computation a snapshot observes: processes exchanging messages over FIFO channels. */
module FifoRuns {
  import opened VectorClock
  import opened Snapshots

  datatype ChannelKey = ChannelKey(from: Pid, to: Pid)

  datatype Base = Base(locals: map<Pid, Local>, queues: map<ChannelKey, seq<App>>)

  datatype BaseStep = Tick(p: Pid) | Send(p: Pid, to: Pid) | Receive(from: Pid, p: Pid)

  function SentTo(l: Local, to: Pid): seq<App> {
    if to in l.sent then l.sent[to] else []
  }

  function ReceivedFrom(l: Local, from: Pid): seq<App> {
    if from in l.received then l.received[from] else []
  }

  function LocalTick(l: Local, self: Pid): Local {
    l.(clock := Ticked(l.clock, self))
  }

  function NextMessage(l: Local, self: Pid, to: Pid): App {
    App(l.messageSeq + 1, self, to, Ticked(l.clock, self))
  }

  function LocalSend(l: Local, self: Pid, to: Pid): Local {
    l.(clock := Ticked(l.clock, self), messageSeq := l.messageSeq + 1,
       sent := l.sent[to := SentTo(l, to) + [NextMessage(l, self, to)]])
  }

  function LocalReceive(l: Local, self: Pid, from: Pid, m: App): Local {
    l.(clock := Received(l.clock, m.stamp, self),
       received := l.received[from := ReceivedFrom(l, from) + [m]])
  }

  predicate Enabled(b: Base, e: BaseStep) {
    && e.p in b.locals
    && (e.Tick? || KeyOf(e) in b.queues)
    && (e.Receive? ==> b.queues[KeyOf(e)] != [])
  }

  /** The channel a communication step works on. */
  function KeyOf(e: BaseStep): ChannelKey
    requires !e.Tick?
  {
    if e.Send? then ChannelKey(e.p, e.to) else ChannelKey(e.from, e.p)
  }

  function Put(b: Base, p: Pid, l: Local, key: ChannelKey, q: seq<App>): Base {
    Base(b.locals[p := l], b.queues[key := q])
  }

  function Apply(b: Base, e: BaseStep): Base {
    if !Enabled(b, e) then b
    else
      match e
      case Tick(p) => b.(locals := b.locals[p := LocalTick(b.locals[p], p)])
      case Send(p, to) =>
        var l, q := b.locals[p], b.queues[KeyOf(e)];
        Put(b, p, LocalSend(l, p, to), KeyOf(e), q + [NextMessage(l, p, to)])
      case Receive(from, p) =>
        var q := b.queues[KeyOf(e)];
        Put(b, p, LocalReceive(b.locals[p], p, from, q[0]), KeyOf(e), q[1..])
  }

  function Exec(b: Base, es: seq<BaseStep>): Base {
    if es == [] then b else Apply(Exec(b, es[..|es| - 1]), es[|es| - 1])
  }

  /** Every step of the execution is enabled when its turn comes. */
  predicate Legal(b: Base, es: seq<BaseStep>) {
    es == [] || (Legal(b, es[..|es| - 1]) && Enabled(Exec(b, es[..|es| - 1]), es[|es| - 1]))
  }

  lemma ExecAppend(b: Base, es: seq<BaseStep>, e: BaseStep)
    ensures Exec(b, es + [e]) == Apply(Exec(b, es), e)
    ensures Legal(b, es + [e]) <==> Legal(b, es) && Enabled(Exec(b, es), e)
  {}

  // ---- Steps of different processes commute ----

  lemma Commute(b: Base, e: BaseStep, f: BaseStep)
    requires e.p != f.p && Enabled(b, e) && Enabled(b, f)
    ensures Enabled(Apply(b, e), f) && Enabled(Apply(b, f), e)
    ensures Apply(Apply(b, e), f) == Apply(Apply(b, f), e)
  {
    if e.Tick? {
      CommuteTick(b, e, f);
    } else if f.Tick? {
      CommuteTick(b, f, e);
    } else if KeyOf(e) != KeyOf(f) {
      CommuteApart(b, e, f);
    } else if e.Send? {
      CommuteEnds(b, e, f);
    } else {
      CommuteEnds(b, f, e);
    }
  }

  lemma CommuteTick(b: Base, e: BaseStep, f: BaseStep)
    requires e.Tick? && e.p != f.p && Enabled(b, e) && Enabled(b, f)
    ensures Enabled(Apply(b, e), f) && Enabled(Apply(b, f), e)
    ensures Apply(Apply(b, e), f) == Apply(Apply(b, f), e)
  {}

  lemma PutsCommute(b: Base, p: Pid, l: Local, key: ChannelKey, q: seq<App>, p': Pid, l': Local, key': ChannelKey,
                    q': seq<App>)
    requires p != p' && key != key'
    ensures Put(Put(b, p, l, key, q), p', l', key', q') == Put(Put(b, p', l', key', q'), p, l, key, q)
  {
    assert b.locals[p := l][p' := l'] == b.locals[p' := l'][p := l];
    assert b.queues[key := q][key' := q'] == b.queues[key' := q'][key := q];
  }

  /** What a communication step makes of its process and its channel, wherever it is taken. */
  lemma StepIsPut(b: Base, c: Base, e: BaseStep) returns (l: Local, q: seq<App>)
    requires !e.Tick? && Enabled(b, e) && Enabled(c, e)
    requires b.locals[e.p] == c.locals[e.p] && b.queues[KeyOf(e)] == c.queues[KeyOf(e)]
    ensures Apply(b, e) == Put(b, e.p, l, KeyOf(e), q) && Apply(c, e) == Put(c, e.p, l, KeyOf(e), q)
  {
    l, q := Apply(b, e).locals[e.p], Apply(b, e).queues[KeyOf(e)];
  }

  lemma CommuteApart(b: Base, e: BaseStep, f: BaseStep)
    requires !e.Tick? && !f.Tick? && e.p != f.p && KeyOf(e) != KeyOf(f) && Enabled(b, e) && Enabled(b, f)
    ensures Enabled(Apply(b, e), f) && Enabled(Apply(b, f), e)
    ensures Apply(Apply(b, e), f) == Apply(Apply(b, f), e)
  {
    var l, q := StepIsPut(b, Apply(b, f), e);
    var l', q' := StepIsPut(b, Apply(b, e), f);
    PutsCommute(b, e.p, l, KeyOf(e), q, f.p, l', KeyOf(f), q');
  }

  /** A send and a receive at the two ends of one channel commute because its queue is not empty. */
  lemma CommuteEnds(b: Base, e: BaseStep, f: BaseStep)
    requires e.Send? && f.Receive? && e.p != f.p && KeyOf(e) == KeyOf(f) && Enabled(b, e) && Enabled(b, f)
    ensures Enabled(Apply(b, e), f) && Enabled(Apply(b, f), e)
    ensures Apply(Apply(b, e), f) == Apply(Apply(b, f), e)
  {
    var q, m := b.queues[KeyOf(f)], NextMessage(b.locals[e.p], e.p, e.to);
    assert (q + [m])[0] == q[0] && (q + [m])[1..] == q[1..] + [m];
    var l, l' := LocalSend(b.locals[e.p], e.p, e.to), LocalReceive(b.locals[f.p], f.p, f.from, q[0]);
    assert b.locals[e.p := l][f.p := l'] == b.locals[f.p := l'][e.p := l];
  }

  /** A step enabled before an execution of other processes may be taken first or last. */
  lemma {:induction false} CommutePast(b: Base, e: BaseStep, es: seq<BaseStep>)
    requires Legal(b, es) && Enabled(b, e) && forall f :: f in es ==> f.p != e.p
    ensures Legal(Apply(b, e), es) && Enabled(Exec(b, es), e)
    ensures Exec(Apply(b, e), es) == Apply(Exec(b, es), e)
  {
    if es != [] {
      var init, last := es[..|es| - 1], es[|es| - 1];
      CommutePast(b, e, init);
      Commute(Exec(b, init), e, last);
    }
  }

  // ---- What every reachable state keeps ----

  /** Fully meshed channels between the processes. */
  ghost predicate Meshed(pids: set<Pid>, b: Base) {
    b.locals.Keys == pids &&
    forall i, j :: ChannelKey(i, j) in b.queues <==> i in pids && j in pids && i != j
  }

  /** What `i` sent to `j` is what `j` received from `i` followed by what is under way. */
  predicate FifoExact(b: Base, i: Pid, j: Pid) {
    && i in b.locals && j in b.locals && ChannelKey(i, j) in b.queues
    && SentTo(b.locals[i], j) == ReceivedFrom(b.locals[j], i) + b.queues[ChannelKey(i, j)]
  }

  /** A message bears its sender's name and a counter its sender has reached. */
  predicate Genuine(m: App, sender: Local, i: Pid, j: Pid) {
    m.from == i && m.to == j && Get(m.stamp, i) <= Get(sender.clock, i)
  }

  /** Nobody knows more of `t` than `t` itself: no process, and no message. */
  ghost predicate Bounded(b: Base, t: Pid)
    requires t in b.locals
  {
    var bound := Get(b.locals[t].clock, t);
    && (forall i :: i in b.locals ==> Get(b.locals[i].clock, t) <= bound)
    && (forall key, k :: key in b.queues && 0 <= k < |b.queues[key]| ==> Get(b.queues[key][k].stamp, t) <= bound)
  }

  ghost predicate SendsGenuine(b: Base, i: Pid, j: Pid)
    requires i in b.locals
  {
    forall k :: 0 <= k < |SentTo(b.locals[i], j)| ==> Genuine(SentTo(b.locals[i], j)[k], b.locals[i], i, j)
  }

  ghost predicate BaseInv(pids: set<Pid>, b: Base) {
    && Meshed(pids, b)
    && (forall i, j :: i in pids && j in pids && i != j ==> FifoExact(b, i, j))
    && (forall i, j :: i in pids ==> SendsGenuine(b, i, j))
    && (forall t :: t in pids ==> Bounded(b, t))
  }

  /** A process is spawned with a counter for itself and for everyone spawned before it. */
  function NewLocals(pids: seq<Pid>): (locals: map<Pid, Local>)
    ensures locals.Keys == Members(pids)
    ensures forall p :: p in locals ==> locals[p].sent == locals[p].received == map[]
    ensures forall p, q :: p in locals ==> Get(locals[p].clock, q) == 0
  {
    if pids == [] then map[]
    else
      assert pids == pids[..|pids| - 1] + [pids[|pids| - 1]];
      NewLocals(pids[..|pids| - 1])[pids[|pids| - 1] := Local(Zero(Members(pids)), 0, map[], map[])]
  }

  function InitBase(pids: seq<Pid>): Base {
    Base(NewLocals(pids), EmptyChannels(Members(pids)))
  }

  function EmptyChannels<T>(pids: set<Pid>): (q: map<ChannelKey, seq<T>>)
    ensures forall key :: key in q <==> key.from in pids && key.to in pids && key.from != key.to
    ensures forall key :: key in q ==> q[key] == []
  {
    map i, j | i in pids && j in pids && i != j :: ChannelKey(i, j) := []
  }

  lemma ApplyKeepsFifo(b: Base, e: BaseStep, i: Pid, j: Pid)
    requires FifoExact(b, i, j) && i != j
    ensures FifoExact(Apply(b, e), i, j)
  {
    if Enabled(b, e) && e == Receive(i, j) {
      var q := b.queues[ChannelKey(i, j)];
      assert q == [q[0]] + q[1..];
    }
  }

  lemma ApplyKeepsSends(b: Base, e: BaseStep, i: Pid, j: Pid)
    requires i in b.locals && SendsGenuine(b, i, j)
    ensures i in Apply(b, e).locals && SendsGenuine(Apply(b, e), i, j)
  {
    if Enabled(b, e) && e.p == i {
      var l, l' := b.locals[i], Apply(b, e).locals[i];
      GetTicked(l.clock, i, i);
      if e.Receive? {
        GetReceived(l.clock, b.queues[ChannelKey(e.from, i)][0].stamp, i, i);
      }
      forall k | 0 <= k < |SentTo(l', j)| ensures Genuine(SentTo(l', j)[k], l', i, j) {
        if k < |SentTo(l, j)| {
          assert SentTo(l', j)[k] == SentTo(l, j)[k];
        }
      }
    }
  }

  lemma ApplyKeepsBound(b: Base, e: BaseStep, t: Pid)
    requires t in b.locals && Bounded(b, t)
    ensures t in Apply(b, e).locals && Bounded(Apply(b, e), t)
  {
    if Enabled(b, e) {
      var l := b.locals[e.p];
      GetTicked(l.clock, e.p, t);
      if e.Receive? {
        GetReceived(l.clock, b.queues[ChannelKey(e.from, e.p)][0].stamp, e.p, t);
      }
    }
  }

  lemma ApplyKeepsMesh(pids: set<Pid>, b: Base, e: BaseStep)
    requires Meshed(pids, b)
    ensures Meshed(pids, Apply(b, e))
  {}

  lemma ApplyKeepsInv(pids: set<Pid>, b: Base, e: BaseStep)
    requires BaseInv(pids, b)
    ensures BaseInv(pids, Apply(b, e))
  {
    ApplyKeepsMesh(pids, b, e);
    forall i, j | i in pids && j in pids && i != j ensures FifoExact(Apply(b, e), i, j) { ApplyKeepsFifo(b, e, i, j); }
    forall i, j | i in pids ensures SendsGenuine(Apply(b, e), i, j) { ApplyKeepsSends(b, e, i, j); }
    forall t | t in pids ensures Bounded(Apply(b, e), t) { ApplyKeepsBound(b, e, t); }
  }

  lemma {:induction false} ExecKeepsInv(pids: seq<Pid>, es: seq<BaseStep>)
    ensures BaseInv(Members(pids), Exec(InitBase(pids), es))
  {
    if es != [] {
      ExecKeepsInv(pids, es[..|es| - 1]);
      ApplyKeepsInv(Members(pids), Exec(InitBase(pids), es[..|es| - 1]), es[|es| - 1]);
    }
  }
}
