/** Causal delivery over whole runs.

    The first part is about histories alone: on a run whose receives all met the delivery condition, a
    process knows exactly the foreign events that were delivered to it. Safety, absence of duplicates and
    the exact meaning of the condition follow. The second part is the system: processes with hold-back
    queues over a network that may lose, reorder and repeat messages; every reachable state carries such
    a history, and its queues are always quiescent.
 */
module CausalDelivery {
  import opened VectorClock
  import opened Runs
  import opened HoldBack

  /** Every receive met the delivery condition when it happened, and nobody sends to itself. */
  ghost predicate Causal(pids: set<Pid>, h: Run) {
    && Valid(pids, h)
    && (forall i :: 0 <= i < |h| && h[i].SendTo? ==> h[i].to != h[i].at)
    && (forall d :: 0 <= d < |h| && h[d].Receive? ==> MetCondition(pids, h, d))
  }

  ghost predicate MetCondition(pids: set<Pid>, h: Run, d: nat)
    requires Valid(pids, h) && d < |h| && h[d].Receive?
  {
    assert ValidEvent(pids, h[..d], h[d]);
    CanDeliver(Stamp(pids, h, h[d].src), h[h[d].src].at, ClockAt(pids, h, d, h[d].at))
  }

  /** Send `a` was delivered to `p` among the first `n` events. */
  ghost predicate Delivered(h: Run, n: nat, p: Pid, a: nat)
    requires n <= |h|
  {
    exists d :: 0 <= d < n && h[d] == Receive(p, a)
  }

  /** The entry for another process counts the deliveries from it, whose stamps are 1, 2, ... without a
      gap: every event up to the entry was a message delivered here. */
  lemma {:induction false} EntryCountsDeliveries(pids: set<Pid>, h: Run, n: nat, p: Pid, a: nat)
    requires Causal(pids, h) && n <= |h| && a < |h| && h[a].at != p
    ensures Index(h, a) <= Get(ClockAt(pids, h, n, p), h[a].at) <==> Delivered(h, n, p, a)
    decreases n
  {
    if n == 0 {
    } else {
      var d, k := n - 1, h[a].at;
      EntryCountsDeliveries(pids, h, d, p, a);
      assert Delivered(h, n, p, a) <==> Delivered(h, d, p, a) || h[d] == Receive(p, a);
      if h[d].at == p {
        var before := ClockAt(pids, h, d, p);
        if h[d].Receive? {
          DeliveryRaises(pids, h, d, a);
        } else {
          GetTicked(before, p, k);
        }
      }
    }
  }

  /** A delivery raises one foreign entry, the sender's, by one: to the delivered send. */
  lemma DeliveryRaises(pids: set<Pid>, h: Run, d: nat, a: nat)
    requires Causal(pids, h) && d < |h| && h[d].Receive? && a < |h| && h[a].at != h[d].at
    ensures var k, p := h[a].at, h[d].at;
            Index(h, a) <= Get(Stamp(pids, h, d), k) <==>
            Index(h, a) <= Get(ClockAt(pids, h, d, p), k) || a == h[d].src
  {
    var p, k, src := h[d].at, h[a].at, h[d].src;
    assert ValidEvent(pids, h[..d], h[d]);
    assert MetCondition(pids, h, d);
    var before, stamp := ClockAt(pids, h, d, p), Stamp(pids, h, src);
    GetReceived(before, stamp, p, k);
    StampBound(pids, h, src, k);
    if k == h[src].at {
      IndexOrder(h, a, src);
      IndexOrder(h, src, a);
    } else {
      assert k in stamp ==> stamp[k] <= Get(before, k);
    }
  }

  lemma ConditionBounds(pids: set<Pid>, h: Run, b: nat, local: Clock, k: Pid)
    requires Valid(pids, h) && b < |h| && CanDeliver(Stamp(pids, h, b), h[b].at, local)
    ensures Index(h, b) == Get(local, h[b].at) + 1
    ensures k != h[b].at ==> Get(Stamp(pids, h, b), k) <= Get(local, k)
  {
    StampBound(pids, h, b, k);
  }

  /** Safety: whatever happened elsewhere before a delivered message was itself delivered here earlier.
      In particular, of two causally ordered messages to `p` the later is delivered after the earlier. */
  lemma CausalOrder(pids: set<Pid>, h: Run, p: Pid, a: nat, b: nat, d: nat)
    requires Causal(pids, h) && d < |h| && h[d] == Receive(p, b)
    requires a < |h| && b < |h| && HB(h, a, b) && (h[a].at != p || h[a] == SendTo(p, p))
    ensures Delivered(h, d, p, a)
  {
    assert ValidEvent(pids, h[..d], h[d]);
    assert MetCondition(pids, h, d);
    PastIsEarlier(h, a, b);
    var k := h[a].at;
    ConditionBounds(pids, h, b, ClockAt(pids, h, d, p), k);
    if k == h[b].at {
      Irreflexive(h, b);
      IndexOrder(h, b, a);
    } else {
      StampKnows(pids, h, b, a);
    }
    EntryCountsDeliveries(pids, h, d, p, a);
  }

  /** No message is delivered twice, however often it arrives. */
  lemma NoDuplicates(pids: set<Pid>, h: Run, p: Pid, a: nat, c: nat, d: nat)
    requires Causal(pids, h) && c < |h| && d < |h| && h[c] == h[d] == Receive(p, a)
    ensures c == d
  {
    if c != d {
      var last := if c < d then d else c;
      assert ValidEvent(pids, h[..last], h[last]);
      assert MetCondition(pids, h, last);
      ConditionBounds(pids, h, a, ClockAt(pids, h, last, p), p);
      EntryCountsDeliveries(pids, h, last, p, a);
      assert Delivered(h, last, p, a);
    }
  }

  /** The delivery condition says exactly this: the message has not been delivered, and every event
      elsewhere that happened before it was a message already delivered here. So a message whose sender
      did anything but send here, or heard from someone who did, is held for ever. */
  lemma ConditionMeaning(pids: set<Pid>, h: Run, p: Pid, b: nat)
    requires Causal(pids, h) && b < |h| && h[b] == SendTo(h[b].at, p)
    ensures CanDeliver(Stamp(pids, h, b), h[b].at, ClockAt(pids, h, |h|, p)) <==>
            !Delivered(h, |h|, p, b) &&
            forall a :: 0 <= a < |h| && HB(h, a, b) && h[a].at != p ==> Delivered(h, |h|, p, a)
  {
    var local, stamp := ClockAt(pids, h, |h|, p), Stamp(pids, h, b);
    EntryCountsDeliveries(pids, h, |h|, p, b);
    if CanDeliver(stamp, h[b].at, local) {
      ConditionBounds(pids, h, b, local, p);
      forall a | 0 <= a < |h| && HB(h, a, b) && h[a].at != p ensures Delivered(h, |h|, p, a) {
        ForeignPastDelivered(pids, h, p, a, b);
      }
    }
    if !Delivered(h, |h|, p, b) && PastDelivered(h, p, b) {
      EnoughDelivered(pids, h, p, b);
    }
  }

  ghost predicate PastDelivered(h: Run, p: Pid, b: nat) {
    forall a :: 0 <= a < |h| && HB(h, a, b) && h[a].at != p ==> Delivered(h, |h|, p, a)
  }

  lemma ForeignPastDelivered(pids: set<Pid>, h: Run, p: Pid, a: nat, b: nat)
    requires Causal(pids, h) && a < |h| && b < |h| && HB(h, a, b) && h[a].at != p
    requires CanDeliver(Stamp(pids, h, b), h[b].at, ClockAt(pids, h, |h|, p))
    ensures Delivered(h, |h|, p, a)
  {
    var k := h[a].at;
    PastIsEarlier(h, a, b);
    Irreflexive(h, b);
    ConditionBounds(pids, h, b, ClockAt(pids, h, |h|, p), k);
    if k == h[b].at {
      IndexOrder(h, b, a);
    } else {
      StampKnows(pids, h, b, a);
    }
    EntryCountsDeliveries(pids, h, |h|, p, a);
  }

  lemma EnoughDelivered(pids: set<Pid>, h: Run, p: Pid, b: nat)
    requires Causal(pids, h) && b < |h| && h[b] == SendTo(h[b].at, p)
    requires !Delivered(h, |h|, p, b) && PastDelivered(h, p, b)
    ensures CanDeliver(Stamp(pids, h, b), h[b].at, ClockAt(pids, h, |h|, p))
  {
    var local, stamp, s := ClockAt(pids, h, |h|, p), Stamp(pids, h, b), h[b].at;
    EntryCountsDeliveries(pids, h, |h|, p, b);
    StampBound(pids, h, b, s);
    forall k ensures Get(stamp, k) <= Get(local, k) + if k == s then 1 else 0 {
      var count := Get(stamp, k);
      if k == p {
        StampBound(pids, h, b, p);
        CountMonotone(h, b + 1, |h|, p);
        ClockBound(pids, h, |h|, p, p);
      } else if count > if k == s then 1 else 0 {
        StampBound(pids, h, b, k);
        var a := EventOfIndex(h, b + 1, k, if k == s then count - 1 else count);
        StampKnows(pids, h, b, a);
        EntryCountsDeliveries(pids, h, |h|, p, a);
      }
    }
  }

  lemma DeliveredIsSent(pids: set<Pid>, h: Run, n: nat, p: Pid, a: nat)
    requires Valid(pids, h) && n <= |h| && Delivered(h, n, p, a)
    ensures a < |h| && h[a] == SendTo(h[a].at, p)
  {}

  // ---- Which messages can still be delivered ----

  /** Everything that happened elsewhere before `b` was a message to `p`. */
  ghost predicate PastIsForMe(h: Run, p: Pid, b: nat) {
    forall a :: 0 <= a < |h| && HB(h, a, b) && h[a].at != p ==> h[a] == SendTo(h[a].at, p)
  }

  /** `g` goes on from `h`. */
  predicate Continues(h: Run, g: Run) {
    |h| <= |g| && g[..|h|] == h
  }

  lemma {:induction false} SamePast(h: Run, g: Run, a: nat, b: nat)
    requires Continues(h, g) && b < |h|
    ensures Past(h, a, b) <==> Past(g, a, b)
    decreases b
  {
    assert forall i :: 0 <= i < |h| ==> h[i] == g[i];
    forall c: nat | c < b ensures Edge(h, c, b) && Past(h, a, c) <==> Edge(g, c, b) && Past(g, a, c) {
      SamePast(h, g, a, c);
    }
    assert HB(h, a, b) <==> HB(g, a, b);
  }

  lemma SameHB(h: Run, g: Run, a: nat, b: nat)
    requires Continues(h, g) && b < |h|
    ensures HB(h, a, b) <==> HB(g, a, b)
  {
    Irreflexive(h, a);
    Irreflexive(g, a);
    SamePast(h, g, a, b);
  }

  /** One more delivery, if the message is new and its past has been delivered. */
  lemma DeliverNext(pids: set<Pid>, g: Run, p: Pid, b: nat) returns (f: Run)
    requires Causal(pids, g) && p in pids && b < |g| && g[b] == SendTo(g[b].at, p) && PastDelivered(g, p, b)
    ensures Causal(pids, f) && Continues(g, f) && Delivered(f, |f|, p, b)
  {
    if Delivered(g, |g|, p, b) {
      f := g;
    } else {
      f := g + [Receive(p, b)];
      EnoughDelivered(pids, g, p, b);
      AppendCausal(pids, g, Receive(p, b));
      assert f[|g|] == Receive(p, b);
    }
  }

  /** The foreign past of `b` below `n` delivered, in the order it was sent. */
  lemma {:induction false} DeliverPast(pids: set<Pid>, h: Run, p: Pid, b: nat, n: nat) returns (g: Run)
    requires Causal(pids, h) && p in pids && b < |h| && n <= b && PastIsForMe(h, p, b)
    ensures Causal(pids, g) && Continues(h, g)
    ensures forall a :: 0 <= a < n && HB(h, a, b) && h[a].at != p ==> Delivered(g, |g|, p, a)
    decreases n
  {
    if n == 0 {
      g := h;
    } else {
      var before := DeliverPast(pids, h, p, b, n - 1);
      if HB(h, n - 1, b) && h[n - 1].at != p {
        PastOfPast(h, before, p, b, n - 1);
        g := DeliverNext(pids, before, p, n - 1);
        StillDelivered(before, g, p);
      } else {
        g := before;
      }
    }
  }

  lemma PastOfPast(h: Run, g: Run, p: Pid, b: nat, a: nat)
    requires Continues(h, g) && a < b < |h| && HB(h, a, b)
    requires forall c :: 0 <= c < a && HB(h, c, b) && h[c].at != p ==> Delivered(g, |g|, p, c)
    ensures PastDelivered(g, p, a)
  {
    forall c | 0 <= c < |g| && HB(g, c, a) && g[c].at != p ensures Delivered(g, |g|, p, c) {
      SameHB(h, g, c, a);
      PastIsEarlier(h, c, a);
      Irreflexive(h, a);
      PastTransitive(h, c, a, b);
      Irreflexive(h, b);
    }
  }

  lemma StillDelivered(h: Run, g: Run, p: Pid)
    requires Continues(h, g)
    ensures forall a :: Delivered(h, |h|, p, a) ==> Delivered(g, |g|, p, a)
  {
    forall a | Delivered(h, |h|, p, a) ensures Delivered(g, |g|, p, a) {
      var d :| 0 <= d < |h| && h[d] == Receive(p, a);
      assert g[d] == h[d];
    }
  }

  ghost predicate CanStillBeDelivered(pids: set<Pid>, h: Run, p: Pid, b: nat) {
    exists g :: Continues(h, g) && Causal(pids, g) && Delivered(g, |g|, p, b)
  }

  /** A message can still be delivered, by some continuation of the run, exactly when everything elsewhere in
      its past is a message to the same process. Otherwise it is held for ever. */
  lemma DeliverableMeaning(pids: set<Pid>, h: Run, p: Pid, b: nat)
    requires Causal(pids, h) && p in pids && b < |h| && h[b] == SendTo(h[b].at, p)
    ensures CanStillBeDelivered(pids, h, p, b) <==> PastIsForMe(h, p, b)
  {
    if PastIsForMe(h, p, b) {
      var before := DeliverPast(pids, h, p, b, b);
      AllPastDelivered(h, before, p, b);
      var g := DeliverNext(pids, before, p, b);
      assert Continues(h, g);
    }
    if g :| Continues(h, g) && Causal(pids, g) && Delivered(g, |g|, p, b) {
      DeliveredIsForMe(pids, h, g, p, b);
    }
  }

  lemma AllPastDelivered(h: Run, g: Run, p: Pid, b: nat)
    requires Continues(h, g) && b < |h|
    requires forall a :: 0 <= a < b && HB(h, a, b) && h[a].at != p ==> Delivered(g, |g|, p, a)
    ensures PastDelivered(g, p, b)
  {
    forall a | 0 <= a < |g| && HB(g, a, b) && g[a].at != p ensures Delivered(g, |g|, p, a) {
      SameHB(h, g, a, b);
      PastIsEarlier(h, a, b);
      Irreflexive(h, b);
    }
  }

  lemma DeliveredIsForMe(pids: set<Pid>, h: Run, g: Run, p: Pid, b: nat)
    requires Causal(pids, g) && Continues(h, g) && b < |h| && Delivered(g, |g|, p, b)
    ensures PastIsForMe(h, p, b)
  {
    var d :| 0 <= d < |g| && g[d] == Receive(p, b);
    forall a | 0 <= a < |h| && HB(h, a, b) && h[a].at != p ensures h[a] == SendTo(h[a].at, p) {
      SameHB(h, g, a, b);
      CausalOrder(pids, g, p, a, b, d);
      DeliveredIsSent(pids, g, d, p, a);
      assert g[a] == h[a];
    }
  }

  // ---- The system ----

  /** The network keeps every message ever sent: any of them may arrive at any time, any number of times. */
  datatype System = System(history: Run, clocks: map<Pid, Clock>, held: map<Pid, seq<Held>>, net: map<nat, Message>)

  datatype Step = LocalStep(p: Pid) | SendStep(p: Pid, to: Pid) | ArrivalStep(id: nat)

  function Init(pids: set<Pid>): System {
    System([], map p | p in pids :: Zero(pids), map p | p in pids :: [], map[])
  }

  function Receives(p: Pid, hs: seq<Held>): Run {
    if hs == [] then [] else [Receive(p, hs[0].msg.id)] + Receives(p, hs[1..])
  }

  /** One step; a step that names an unknown process or message, or a self-send, does nothing. */
  function Apply(s: System, step: Step): System {
    match step
    case LocalStep(p) =>
      if p !in s.clocks then s
      else s.(history := s.history + [Internal(p)], clocks := s.clocks[p := Ticked(s.clocks[p], p)])
    case SendStep(p, to) =>
      if p !in s.clocks || to !in s.clocks || p == to then s
      else
        var c := Ticked(s.clocks[p], p);
        s.(history := s.history + [SendTo(p, to)], clocks := s.clocks[p := c],
           net := s.net[|s.history| := Message(|s.history|, p, to, c)])
    case ArrivalStep(id) =>
      if id !in s.net || s.net[id].to !in s.clocks || s.net[id].to !in s.held then s
      else
        var p := s.net[id].to;
        var o := Arrive(s.clocks[p], s.held[p], s.net[id], p);
        s.(history := s.history + Receives(p, Deliveries(s.net[id], o)), clocks := s.clocks[p := o.clock],
           held := s.held[p := o.queue])
  }

  function After(pids: set<Pid>, steps: seq<Step>): System {
    if steps == [] then Init(pids) else Apply(After(pids, steps[..|steps| - 1]), steps[|steps| - 1])
  }

  /** `m` is the message that event `m.id` sent, with that event's clock. */
  ghost predicate Sent(pids: set<Pid>, h: Run, m: Message)
    requires Valid(pids, h)
  {
    m.id < |h| && h[m.id] == SendTo(m.from, m.to) && m.sentVC == Stamp(pids, h, m.id) && m.from != m.to
  }

  ghost predicate QueueOk(pids: set<Pid>, h: Run, p: Pid, q: seq<Held>)
    requires Valid(pids, h)
  {
    forall i :: 0 <= i < |q| ==> q[i].msg.to == p && q[i].sentVC == q[i].msg.sentVC && Sent(pids, h, q[i].msg)
  }

  ghost predicate ClocksOk(pids: set<Pid>, h: Run, clocks: map<Pid, Clock>)
    requires Valid(pids, h)
  {
    clocks.Keys == pids && forall p :: p in pids ==> clocks[p] == ClockAt(pids, h, |h|, p)
  }

  ghost predicate NetOk(pids: set<Pid>, h: Run, net: map<nat, Message>)
    requires Valid(pids, h)
  {
    forall id :: id in net ==> net[id].to in pids && Sent(pids, h, net[id])
  }

  ghost predicate HeldOk(pids: set<Pid>, h: Run, held: map<Pid, seq<Held>>, clocks: map<Pid, Clock>)
    requires Valid(pids, h)
  {
    held.Keys == pids && clocks.Keys == pids &&
    forall p :: p in pids ==> QueueOk(pids, h, p, held[p]) && Quiescent(held[p], clocks[p])
  }

  ghost predicate Inv(pids: set<Pid>, s: System) {
    && Causal(pids, s.history)
    && ClocksOk(pids, s.history, s.clocks)
    && NetOk(pids, s.history, s.net)
    && HeldOk(pids, s.history, s.held, s.clocks)
  }

  /** Appending an event moves the clock of its process and no other, and keeps what was sent. */
  lemma Append(pids: set<Pid>, h: Run, e: Event)
    requires Valid(pids, h) && ValidEvent(pids, h, e)
    ensures Valid(pids, h + [e]) && (h + [e])[..|h|] == h
    ensures forall p :: p != e.at ==> ClockAt(pids, h + [e], |h| + 1, p) == ClockAt(pids, h, |h|, p)
    ensures ClockAt(pids, h + [e], |h| + 1, e.at) ==
            if e.Receive? then Received(ClockAt(pids, h, |h|, e.at), Stamp(pids, h, e.src), e.at)
            else Ticked(ClockAt(pids, h, |h|, e.at), e.at)
    ensures forall m :: Sent(pids, h, m) ==> Sent(pids, h + [e], m)
  {
    var g := h + [e];
    ExtendValid(pids, h, e);
    forall p ensures ClockAt(pids, g, |h|, p) == ClockAt(pids, h, |h|, p) { ExtendClock(pids, h, g, |h|, p); }
    if e.Receive? { ExtendStamp(pids, h, g, e.src); }
    forall m | Sent(pids, h, m) ensures Sent(pids, g, m) { ExtendStamp(pids, h, g, m.id); }
  }

  lemma AppendCausal(pids: set<Pid>, h: Run, e: Event)
    requires Causal(pids, h) && ValidEvent(pids, h, e)
    requires e.SendTo? ==> e.to != e.at
    requires e.Receive? ==> CanDeliver(Stamp(pids, h, e.src), h[e.src].at, ClockAt(pids, h, |h|, e.at))
    ensures Causal(pids, h + [e])
  {
    var g := h + [e];
    Append(pids, h, e);
    forall d | 0 <= d < |g| && g[d].Receive? ensures MetCondition(pids, g, d) {
      assert ValidEvent(pids, g[..d], g[d]);
      ExtendClock(pids, h, g, d, g[d].at);
      if d < |h| {
        assert MetCondition(pids, h, d);
        assert ValidEvent(pids, h[..d], h[d]);
        ExtendStamp(pids, h, g, h[d].src);
      } else {
        ExtendStamp(pids, h, g, e.src);
      }
    }
  }

  /** `g` continues `h` with events of `p`: other clocks stand still, and what was sent stays sent. */
  ghost predicate Grows(pids: set<Pid>, h: Run, g: Run, p: Pid)
    requires Valid(pids, h)
  {
    && Causal(pids, g)
    && (forall q :: q != p ==> ClockAt(pids, g, |g|, q) == ClockAt(pids, h, |h|, q))
    && (forall m :: Sent(pids, h, m) ==> Sent(pids, g, m))
  }

  lemma GrowQueue(pids: set<Pid>, h: Run, g: Run, p: Pid, r: Pid, q: seq<Held>)
    requires Valid(pids, h) && Grows(pids, h, g, p) && QueueOk(pids, h, r, q)
    ensures QueueOk(pids, g, r, q)
  {}

  lemma GrowOne(pids: set<Pid>, h: Run, e: Event)
    requires Causal(pids, h) && ValidEvent(pids, h, e)
    requires e.SendTo? ==> e.to != e.at
    requires e.Receive? ==> CanDeliver(Stamp(pids, h, e.src), h[e.src].at, ClockAt(pids, h, |h|, e.at))
    ensures Grows(pids, h, h + [e], e.at)
  {
    Append(pids, h, e);
    AppendCausal(pids, h, e);
  }

  lemma GrowTwice(pids: set<Pid>, h: Run, g: Run, f: Run, p: Pid)
    requires Valid(pids, h) && Grows(pids, h, g, p) && Grows(pids, g, f, p)
    ensures Grows(pids, h, f, p)
  {}

  lemma ReceiveHead(pids: set<Pid>, h: Run, p: Pid, held: Held, local: Clock)
    requires Causal(pids, h) && p in pids && local == ClockAt(pids, h, |h|, p)
    requires Sent(pids, h, held.msg) && held.msg.to == p && held.sentVC == held.msg.sentVC
    requires Deliverable(held, local)
    ensures var g := h + [Receive(p, held.msg.id)];
            Grows(pids, h, g, p) && ClockAt(pids, g, |g|, p) == Received(local, held.sentVC, p)
  {
    var e := Receive(p, held.msg.id);
    Append(pids, h, e);
    GrowOne(pids, h, e);
  }

  lemma ReceivesCons(h: Run, p: Pid, hs: seq<Held>)
    requires hs != []
    ensures h + Receives(p, hs) == (h + [Receive(p, hs[0].msg.id)]) + Receives(p, hs[1..])
  {}

  /** A delivery sequence appends one legal receive for each message, and the clock is its fold. */
  lemma {:induction false} AppendReceives(pids: set<Pid>, h: Run, p: Pid, hs: seq<Held>, local: Clock)
    requires Causal(pids, h) && p in pids && local == ClockAt(pids, h, |h|, p)
    requires QueueOk(pids, h, p, hs) && DeliveryChain(local, hs, p)
    ensures var g := h + Receives(p, hs);
            Grows(pids, h, g, p) && ClockAt(pids, g, |g|, p) == ReceiveAll(local, hs, p)
    decreases |hs|
  {
    if hs == [] {
      assert h + Receives(p, hs) == h;
    } else {
      var g := h + [Receive(p, hs[0].msg.id)];
      ReceiveHead(pids, h, p, hs[0], local);
      GrowQueue(pids, h, g, p, p, hs[1..]);
      AppendReceives(pids, g, p, hs[1..], Received(local, hs[0].sentVC, p));
      ReceivesCons(h, p, hs);
      GrowTwice(pids, h, g, g + Receives(p, hs[1..]), p);
    }
  }

  lemma ClocksAfter(pids: set<Pid>, h: Run, g: Run, p: Pid, clocks: map<Pid, Clock>)
    requires Valid(pids, h) && Grows(pids, h, g, p) && ClocksOk(pids, h, clocks) && p in pids
    ensures ClocksOk(pids, g, clocks[p := ClockAt(pids, g, |g|, p)])
  {}

  lemma NetAfter(pids: set<Pid>, h: Run, g: Run, p: Pid, net: map<nat, Message>)
    requires Valid(pids, h) && Grows(pids, h, g, p) && NetOk(pids, h, net)
    ensures NetOk(pids, g, net)
  {}

  lemma HeldAfter(pids: set<Pid>, h: Run, g: Run, p: Pid, held: map<Pid, seq<Held>>, clocks: map<Pid, Clock>,
                  queue: seq<Held>, clock: Clock)
    requires Valid(pids, h) && Grows(pids, h, g, p) && HeldOk(pids, h, held, clocks) && p in pids
    requires QueueOk(pids, g, p, queue) && Quiescent(queue, clock)
    ensures HeldOk(pids, g, held[p := queue], clocks[p := clock])
  {
    forall r | r in pids && r != p ensures QueueOk(pids, g, r, held[r]) && Quiescent(held[r], clocks[r]) {
      GrowQueue(pids, h, g, p, r, held[r]);
    }
  }

  /** Enough for the invariant after a step of `p`. */
  lemma StepKeepsInv(pids: set<Pid>, s: System, p: Pid, g: Run, clock: Clock, queue: seq<Held>)
    requires Inv(pids, s) && p in pids && Grows(pids, s.history, g, p)
    requires clock == ClockAt(pids, g, |g|, p) && QueueOk(pids, g, p, queue) && Quiescent(queue, clock)
    ensures Inv(pids, s.(history := g, clocks := s.clocks[p := clock], held := s.held[p := queue]))
  {
    ClocksAfter(pids, s.history, g, p, s.clocks);
    NetAfter(pids, s.history, g, p, s.net);
    HeldAfter(pids, s.history, g, p, s.held, s.clocks, queue, clock);
  }

  /** The process's own tick makes no held message deliverable: no stamp counts more of a process's
      events than the process has had. */
  lemma TickKeepsQuiescent(pids: set<Pid>, h: Run, p: Pid, q: seq<Held>)
    requires Causal(pids, h) && QueueOk(pids, h, p, q)
    requires Quiescent(q, ClockAt(pids, h, |h|, p))
    ensures Quiescent(q, Ticked(ClockAt(pids, h, |h|, p), p))
  {
    var c := ClockAt(pids, h, |h|, p);
    forall i | 0 <= i < |q| ensures !Deliverable(q[i], Ticked(c, p)) {
      var m := q[i].msg;
      StampBound(pids, h, m.id, p);
      CountMonotone(h, m.id + 1, |h|, p);
      ClockBound(pids, h, |h|, p, p);
      assert !Deliverable(q[i], c);
    }
  }

  lemma LocalKeepsInv(pids: set<Pid>, s: System, e: Event)
    requires Inv(pids, s) && e.at in pids && (e.Internal? || (e.SendTo? && e.to in pids && e.to != e.at))
    ensures Inv(pids, s.(history := s.history + [e], clocks := s.clocks[e.at := Ticked(s.clocks[e.at], e.at)]))
  {
    var h, p := s.history, e.at;
    var c := Ticked(s.clocks[p], p);
    Append(pids, h, e);
    GrowOne(pids, h, e);
    GrowQueue(pids, h, h + [e], p, p, s.held[p]);
    TickKeepsQuiescent(pids, h, p, s.held[p]);
    StepKeepsInv(pids, s, p, h + [e], c, s.held[p]);
    assert s.held[p := s.held[p]] == s.held;
  }

  lemma SendKeepsInv(pids: set<Pid>, s: System, p: Pid, to: Pid)
    requires Inv(pids, s) && p in pids && to in pids && p != to
    ensures Inv(pids, Apply(s, SendStep(p, to)))
  {
    var e := SendTo(p, to);
    var g, c := s.history + [e], Ticked(s.clocks[p], p);
    LocalKeepsInv(pids, s, e);
    SendStamp(pids, s.history, e);
    AddToNet(pids, s.(history := g, clocks := s.clocks[p := c]), Message(|s.history|, p, to, c));
  }

  /** A send carries the clock its process is left with. */
  lemma SendStamp(pids: set<Pid>, h: Run, e: Event)
    requires Valid(pids, h) && ValidEvent(pids, h, e) && e.SendTo?
    ensures Valid(pids, h + [e]) && Stamp(pids, h + [e], |h|) == Ticked(ClockAt(pids, h, |h|, e.at), e.at)
  {
    Append(pids, h, e);
    assert (h + [e])[|h|] == e;
  }

  lemma AddToNet(pids: set<Pid>, s: System, m: Message)
    requires Inv(pids, s) && m.to in pids && Sent(pids, s.history, m)
    ensures Inv(pids, s.(net := s.net[m.id := m]))
  {}

  /** What an arrival delivers is a legal delivery sequence, and it leaves the queue quiescent. */
  lemma ArrivalOutcome(pids: set<Pid>, h: Run, p: Pid, local: Clock, queue: seq<Held>, m: Message)
    requires Valid(pids, h) && Sent(pids, h, m) && m.to == p && QueueOk(pids, h, p, queue)
    requires Quiescent(queue, local)
    ensures var o := Arrive(local, queue, m, p);
            && QueueOk(pids, h, p, Deliveries(m, o)) && QueueOk(pids, h, p, o.queue)
            && DeliveryChain(local, Deliveries(m, o), p)
            && o.clock == ReceiveAll(local, Deliveries(m, o), p)
            && Quiescent(o.queue, o.clock)
  {
    hide Valid, Drain;
    if CanDeliver(m.sentVC, m.from, local) {
      DeliveredOutcome(pids, h, p, Received(local, m.sentVC, p), queue);
      ChainCons(Held(m, m.sentVC), Drain(queue, Received(local, m.sentVC, p), p).delivered, local, p);
    }
  }

  lemma DeliveredOutcome(pids: set<Pid>, h: Run, p: Pid, next: Clock, queue: seq<Held>)
    requires Valid(pids, h) && QueueOk(pids, h, p, queue)
    ensures var d := Drain(queue, next, p);
            && QueueOk(pids, h, p, d.delivered) && QueueOk(pids, h, p, d.remaining)
            && DeliveryChain(next, d.delivered, p) && d.clock == ReceiveAll(next, d.delivered, p)
            && Quiescent(d.remaining, d.clock)
  {
    var d := Drain(queue, next, p);
    DrainDelivers(queue, next, p);
    DrainConserves(queue, next, p);
    SubqueueOk(pids, h, p, queue, d.delivered);
    SubqueueOk(pids, h, p, queue, d.remaining);
  }

  lemma ChainCons(g: Held, hs: seq<Held>, local: Clock, p: Pid)
    requires Deliverable(g, local) && DeliveryChain(Received(local, g.sentVC, p), hs, p)
    ensures DeliveryChain(local, [g] + hs, p)
    ensures ReceiveAll(local, [g] + hs, p) == ReceiveAll(Received(local, g.sentVC, p), hs, p)
  {}

  lemma SubqueueOk(pids: set<Pid>, h: Run, p: Pid, q: seq<Held>, part: seq<Held>)
    requires Valid(pids, h) && QueueOk(pids, h, p, q) && multiset(part) <= multiset(q)
    ensures QueueOk(pids, h, p, part)
  {
    forall i | 0 <= i < |part| ensures part[i] in q {
      assert part[i] in multiset(part);
    }
  }

  /** The history after an arrival, and the queue it leaves. */
  lemma ArrivalGrows(pids: set<Pid>, h: Run, p: Pid, local: Clock, queue: seq<Held>, m: Message)
    requires Causal(pids, h) && Sent(pids, h, m) && m.to == p && p in pids && local == ClockAt(pids, h, |h|, p)
    requires QueueOk(pids, h, p, queue) && Quiescent(queue, local)
    ensures var o := Arrive(local, queue, m, p);
            var g := h + Receives(p, Deliveries(m, o));
            && Grows(pids, h, g, p) && o.clock == ClockAt(pids, g, |g|, p)
            && QueueOk(pids, g, p, o.queue) && Quiescent(o.queue, o.clock)
  {
    hide QueueOk, Quiescent, DeliveryChain, ReceiveAll, Arrive, Deliveries;
    var o := Arrive(local, queue, m, p);
    ArrivalOutcome(pids, h, p, local, queue, m);
    AppendReceives(pids, h, p, Deliveries(m, o), local);
    GrowQueue(pids, h, h + Receives(p, Deliveries(m, o)), p, p, o.queue);
  }

  lemma ArrivalKeepsInv(pids: set<Pid>, s: System, id: nat)
    requires Inv(pids, s) && id in s.net
    ensures Inv(pids, Apply(s, ArrivalStep(id)))
  {
    hide Causal, Sent, QueueOk, Quiescent, Grows, Arrive, Deliveries;
    var m := s.net[id];
    var p := m.to;
    var o := Arrive(s.clocks[p], s.held[p], m, p);
    ArrivalGrows(pids, s.history, p, s.clocks[p], s.held[p], m);
    StepKeepsInv(pids, s, p, s.history + Receives(p, Deliveries(m, o)), o.clock, o.queue);
  }

  lemma {:induction false} ReachableInv(pids: set<Pid>, steps: seq<Step>)
    ensures Inv(pids, After(pids, steps))
    decreases |steps|
  {
    if steps != [] {
      var s := After(pids, steps[..|steps| - 1]);
      ReachableInv(pids, steps[..|steps| - 1]);
      match steps[|steps| - 1]
      case LocalStep(p) =>
        if p in pids { LocalKeepsInv(pids, s, Internal(p)); }
      case SendStep(p, to) =>
        if p in pids && to in pids && p != to { SendKeepsInv(pids, s, p, to); }
      case ArrivalStep(id) =>
        if id in s.net { ArrivalKeepsInv(pids, s, id); }
    }
  }

  /** On every run of the system each message is delivered at most once, however often it arrives. */
  lemma DeliveryIsOnce(pids: set<Pid>, steps: seq<Step>, p: Pid, b: nat, c: nat, d: nat)
    requires var h := After(pids, steps).history;
             c < |h| && d < |h| && h[c] == h[d] == Receive(p, b)
    ensures c == d
  {
    ReachableInv(pids, steps);
    NoDuplicates(pids, After(pids, steps).history, p, b, c, d);
  }

  /** Causal delivery on every run of the system: a message is delivered only after every message to the
      same process that was sent before it, and at most once. */
  lemma DeliveryIsCausal(pids: set<Pid>, steps: seq<Step>, p: Pid, a: nat, b: nat, d: nat)
    requires var h := After(pids, steps).history;
             && d < |h| && a < |h| && b < |h| && h[d] == Receive(p, b)
             && h[a] == SendTo(h[a].at, p) && HB(h, a, b)
    ensures var h := After(pids, steps).history;
            Delivered(h, d, p, a) && forall c :: 0 <= c < |h| && h[c] == Receive(p, b) ==> c == d
  {
    var h := After(pids, steps).history;
    ReachableInv(pids, steps);
    CausalOrder(pids, h, p, a, b, d);
    forall c | 0 <= c < |h| && h[c] == Receive(p, b) ensures c == d {
      NoDuplicates(pids, h, p, b, c, d);
    }
  }

  // ---- Who blocks ----

  /** Some event of `q` before the send `b` has not been delivered to `r`. */
  ghost predicate Misses(h: Run, r: Pid, q: Pid, b: nat) {
    exists a: nat :: a < |h| && h[a].at == q && HB(h, a, b) && !Delivered(h, |h|, r, a)
  }

  /** A held message waits for `q` exactly when some event of another process `q` before its send, and not the send
      itself, has not been delivered. */
  lemma HeldWaitsFor(pids: set<Pid>, h: Run, r: Pid, held: Held, q: Pid)
    requires Causal(pids, h) && Sent(pids, h, held.msg) && held.msg.to == r && held.sentVC == held.msg.sentVC
    ensures WaitsFor(held, q, ClockAt(pids, h, |h|, r)) <==> q != r && Misses(h, r, q, held.msg.id)
  {
    var b, s, local := held.msg.id, held.msg.from, ClockAt(pids, h, |h|, r);
    var before := Get(held.sentVC, q) - if q == s then 1 else 0;
    StampBound(pids, h, b, q);
    CountMonotone(h, b + 1, |h|, q);
    ClockBound(pids, h, |h|, r, q);
    NoIndexZero(h, b);
    if q != r {
      if before > Get(local, q) {
        var a := EventOfIndex(h, b + 1, q, before);
        StampKnows(pids, h, b, a);
        EntryCountsDeliveries(pids, h, |h|, r, a);
        assert a != b && HB(h, a, b);
      }
      if a: nat :| a < |h| && h[a].at == q && HB(h, a, b) && !Delivered(h, |h|, r, a) {
        IndexBefore(pids, h, a, b);
        EntryCountsDeliveries(pids, h, |h|, r, a);
      }
    }
  }

  /** What happened before a send is counted in its stamp, the send itself aside. */
  lemma IndexBefore(pids: set<Pid>, h: Run, a: nat, b: nat)
    requires Valid(pids, h) && a < |h| && b < |h| && HB(h, a, b)
    ensures Index(h, a) <= Get(Stamp(pids, h, b), h[a].at) - if h[a].at == h[b].at then 1 else 0
  {
    StampKnows(pids, h, b, a);
    PastIsEarlier(h, a, b);
    Irreflexive(h, b);
    StampBound(pids, h, b, h[a].at);
    if h[a].at == h[b].at { IndexOrder(h, b, a); }
  }

  /** In every reachable state a process is waited for exactly when some held message has in its past an event of
      it, other than the message's own send, that the receiver has neither delivered nor performed itself. */
  lemma BlockersInSystem(pids: set<Pid>, steps: seq<Step>, r: Pid, q: Pid)
    requires r in pids
    ensures var s := After(pids, steps);
            && r in s.held && r in s.clocks
            && ((exists i :: 0 <= i < |s.held[r]| && WaitsFor(s.held[r][i], q, s.clocks[r]))
                <==> q != r && exists i :: 0 <= i < |s.held[r]| && Misses(s.history, r, q, s.held[r][i].msg.id))
  {
    var s := After(pids, steps);
    ReachableInv(pids, steps);
    forall i | 0 <= i < |s.held[r]|
      ensures WaitsFor(s.held[r][i], q, s.clocks[r]) <==> q != r && Misses(s.history, r, q, s.held[r][i].msg.id)
    {
      HeldWaitsFor(pids, s.history, r, s.held[r][i], q);
    }
  }

  // ---- Which messages the system can still deliver ----

  /** The network has every message ever sent under the number of its send. */
  ghost predicate NetComplete(s: System) {
    && (forall id :: id in s.net ==> s.net[id].id == id)
    && (forall b :: 0 <= b < |s.history| && s.history[b].SendTo? ==> b in s.net && s.net[b].to == s.history[b].to)
  }

  lemma {:induction false} ReceivesAreNoSends(p: Pid, hs: seq<Held>)
    ensures forall i :: 0 <= i < |Receives(p, hs)| ==> !Receives(p, hs)[i].SendTo?
    decreases |hs|
  {
    if hs != [] { ReceivesAreNoSends(p, hs[1..]); }
  }

  lemma StepKeepsNet(s: System, step: Step)
    requires NetComplete(s)
    ensures NetComplete(Apply(s, step)) && Continues(s.history, Apply(s, step).history)
  {
    if step.ArrivalStep? && step.id in s.net && s.net[step.id].to in s.clocks && s.net[step.id].to in s.held {
      var m := s.net[step.id];
      ReceivesAreNoSends(m.to, Deliveries(m, Arrive(s.clocks[m.to], s.held[m.to], m, m.to)));
    }
  }

  lemma {:induction false} NetIsComplete(pids: set<Pid>, steps: seq<Step>)
    ensures NetComplete(After(pids, steps))
    decreases |steps|
  {
    if steps != [] {
      NetIsComplete(pids, steps[..|steps| - 1]);
      StepKeepsNet(After(pids, steps[..|steps| - 1]), steps[|steps| - 1]);
    }
  }

  lemma AfterMore(pids: set<Pid>, steps: seq<Step>, step: Step)
    ensures After(pids, steps + [step]) == Apply(After(pids, steps), step)
  {
    assert (steps + [step])[..|steps|] == steps;
  }

  lemma {:induction false} HistoryContinues(pids: set<Pid>, steps: seq<Step>, more: seq<Step>)
    ensures Continues(After(pids, steps).history, After(pids, steps + more).history)
    decreases |more|
  {
    if more == [] {
      assert steps + more == steps;
    } else {
      var init, last := more[..|more| - 1], more[|more| - 1];
      HistoryContinues(pids, steps, init);
      assert steps + more == (steps + init) + [last];
      AfterMore(pids, steps + init, last);
      NetIsComplete(pids, steps + init);
      StepKeepsNet(After(pids, steps + init), last);
      ContinuesOn(After(pids, steps).history, After(pids, steps + init).history, After(pids, steps + more).history);
    }
  }

  lemma ContinuesOn(h: Run, g: Run, f: Run)
    requires Continues(h, g) && Continues(g, f)
    ensures Continues(h, f)
  {
    assert f[..|h|] == f[..|g|][..|h|];
  }

  ghost predicate DeliveredAfter(pids: set<Pid>, steps: seq<Step>, p: Pid, b: nat) {
    Delivered(After(pids, steps).history, |After(pids, steps).history|, p, b)
  }

  /** Some further steps of the system deliver `b` to `p`. */
  ghost predicate CanStillArrive(pids: set<Pid>, steps: seq<Step>, p: Pid, b: nat) {
    exists more :: DeliveredAfter(pids, steps + more, p, b)
  }

  /** A message whose past has been delivered is delivered when it arrives. */
  lemma ArrivalDelivers(pids: set<Pid>, s: System, p: Pid, b: nat)
    requires Inv(pids, s) && NetComplete(s) && p in pids
    requires b < |s.history| && s.history[b] == SendTo(s.history[b].at, p)
    requires PastDelivered(s.history, p, b) && !Delivered(s.history, |s.history|, p, b)
    ensures var h := Apply(s, ArrivalStep(b)).history; Delivered(h, |h|, p, b)
  {
    var m, h := s.net[b], Apply(s, ArrivalStep(b)).history;
    EnoughDelivered(pids, s.history, p, b);
    assert Sent(pids, s.history, m);
    var o := Arrive(s.clocks[p], s.held[p], m, p);
    assert Deliveries(m, o)[0].msg.id == b;
    assert h[|s.history|] == Receive(p, b);
  }

  lemma ArriveNext(pids: set<Pid>, steps: seq<Step>, p: Pid, b: nat) returns (more: seq<Step>)
    requires var h := After(pids, steps).history;
             p in pids && b < |h| && h[b] == SendTo(h[b].at, p) && PastDelivered(h, p, b)
    ensures DeliveredAfter(pids, steps + more, p, b)
  {
    if DeliveredAfter(pids, steps, p, b) {
      more := [];
      assert steps + more == steps;
    } else {
      more := [ArrivalStep(b)];
      ReachableInv(pids, steps);
      NetIsComplete(pids, steps);
      ArrivalDelivers(pids, After(pids, steps), p, b);
      AfterMore(pids, steps, ArrivalStep(b));
    }
  }

  lemma ArriveMore(pids: set<Pid>, steps: seq<Step>, more: seq<Step>, p: Pid)
    ensures forall a :: DeliveredAfter(pids, steps, p, a) ==> DeliveredAfter(pids, steps + more, p, a)
  {
    HistoryContinues(pids, steps, more);
    StillDelivered(After(pids, steps).history, After(pids, steps + more).history, p);
  }

  /** The foreign past of `b` below `n` arrives in the order it was sent. */
  lemma {:induction false} ArrivePast(pids: set<Pid>, steps: seq<Step>, p: Pid, b: nat, n: nat)
    returns (more: seq<Step>)
    requires var h := After(pids, steps).history; p in pids && b < |h| && n <= b && PastIsForMe(h, p, b)
    ensures var h := After(pids, steps).history;
            forall a :: 0 <= a < n && HB(h, a, b) && h[a].at != p ==> DeliveredAfter(pids, steps + more, p, a)
    decreases n
  {
    if n == 0 {
      more := [];
    } else {
      var h, a := After(pids, steps).history, n - 1;
      more := ArrivePast(pids, steps, p, b, a);
      if HB(h, a, b) && h[a].at != p {
        var g := After(pids, steps + more).history;
        HistoryContinues(pids, steps, more);
        PastOfPast(h, g, p, b, a);
        assert g[a] == h[a];
        var last := ArriveNext(pids, steps + more, p, a);
        ArriveMore(pids, steps + more, last, p);
        assert steps + (more + last) == (steps + more) + last;
        more := more + last;
      }
    }
  }

  /** In every reachable state: some further steps deliver a message exactly when everything elsewhere in its past
      is a message to its receiver. Otherwise it is held for ever. */
  lemma SystemDelivers(pids: set<Pid>, steps: seq<Step>, p: Pid, b: nat)
    requires var h := After(pids, steps).history; p in pids && b < |h| && h[b] == SendTo(h[b].at, p)
    ensures CanStillArrive(pids, steps, p, b) <==> PastIsForMe(After(pids, steps).history, p, b)
  {
    hide After, HB, ClocksOk, NetOk, HeldOk, MetCondition;
    var h := After(pids, steps).history;
    if PastIsForMe(h, p, b) {
      var more := ArrivePast(pids, steps, p, b, b);
      var g := After(pids, steps + more).history;
      HistoryContinues(pids, steps, more);
      AllPastDelivered(h, g, p, b);
      assert g[b] == h[b];
      var last := ArriveNext(pids, steps + more, p, b);
      assert steps + (more + last) == (steps + more) + last;
    }
    if more :| DeliveredAfter(pids, steps + more, p, b) {
      HistoryContinues(pids, steps, more);
      ReachableInv(pids, steps + more);
      DeliveredIsForMe(pids, h, After(pids, steps + more).history, p, b);
    }
  }

  /** The smallest run with a message that is held for ever: an internal event of its sender before it. */
  lemma HeldForEver(p: Pid, q: Pid)
    requires p != q
    ensures Causal({p, q}, [Internal(q), SendTo(q, p)])
    ensures !CanStillBeDelivered({p, q}, [Internal(q), SendTo(q, p)], p, 1)
    ensures !CanStillArrive({p, q}, [LocalStep(q), SendStep(q, p)], p, 1)
  {
    var pids, h, steps := {p, q}, [Internal(q), SendTo(q, p)], [LocalStep(q), SendStep(q, p)];
    assert steps[..1] == [LocalStep(q)] && steps[..1][..0] == [];
    assert After(pids, steps[..1]).history == [Internal(q)];
    assert After(pids, steps).history == h;
    ReachableInv(pids, steps);
    assert Edge(h, 0, 1) && Past(h, 0, 0);
    assert HB(h, 0, 1) && h[0] != SendTo(q, p);
    DeliverableMeaning(pids, h, p, 1);
    SystemDelivers(pids, steps, p, 1);
  }

  /** In every reachable state no held message meets the delivery condition, and the order in which
      messages sit in a queue has no influence on any later drain. */
  lemma {:induction false} QueuesAreQuiescent(pids: set<Pid>, steps: seq<Step>, p: Pid)
    requires p in pids
    ensures var s := After(pids, steps);
            p in s.held && p in s.clocks && Quiescent(s.held[p], s.clocks[p]) && Distinct(s.held[p], p)
  {
    var s := After(pids, steps);
    ReachableInv(pids, steps);
    var q := s.held[p];
    forall g, h | g in multiset(q) && h in multiset(q) && SameSlot(g, h) ensures g == h {
      SameSlotSameSend(pids, s.history, g.msg, h.msg);
    }
  }

  lemma SameSlotSameSend(pids: set<Pid>, h: Run, m: Message, n: Message)
    requires Valid(pids, h) && Sent(pids, h, m) && Sent(pids, h, n)
    requires m.from == n.from && Get(m.sentVC, m.from) == Get(n.sentVC, m.from)
    ensures m == n
  {
    StampBound(pids, h, m.id, m.from);
    StampBound(pids, h, n.id, n.from);
    IndexOrder(h, m.id, n.id);
    IndexOrder(h, n.id, m.id);
  }
}
