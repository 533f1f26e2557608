/** The hold-back queue of causal (Birman-Schiper-Stephenson) delivery.

    `Drain` is the meaning of one `TryDeliver`: deliver the first deliverable message, remove it by
    swapping in the last one, start over. The class below does it in place; the lemmas say what the
    outcome is worth: nothing lost, the clock a fold of the receive rule, a fixpoint, and the same
    outcome for every order of the queue.
 */
module HoldBack {
  import opened VectorClock

  datatype Message = Message(id: nat, from: Pid, to: Pid, sentVC: Clock)

  /** A queued message with the stamp it was enqueued under. */
  datatype Held = Held(msg: Message, sentVC: Clock)

  predicate CanDeliver(stamp: Clock, sender: Pid, local: Clock) {
    && Get(stamp, sender) == Get(local, sender) + 1
    && forall k :: k in stamp && k != sender ==> stamp[k] <= Get(local, k)
  }

  predicate Deliverable(h: Held, local: Clock) {
    CanDeliver(h.sentVC, h.msg.from, local)
  }

  function FirstDeliverable(q: seq<Held>, local: Clock): (i: nat)
    ensures i <= |q|
    ensures forall j :: 0 <= j < i ==> !Deliverable(q[j], local)
    ensures i < |q| ==> Deliverable(q[i], local)
  {
    if q == [] || Deliverable(q[0], local) then 0 else 1 + FirstDeliverable(q[1..], local)
  }

  function SwapRemove(q: seq<Held>, i: nat): seq<Held>
    requires i < |q|
  {
    q[i := q[|q| - 1]][..|q| - 1]
  }

  datatype Drained = Drained(delivered: seq<Held>, remaining: seq<Held>, clock: Clock)

  function Drain(q: seq<Held>, local: Clock, self: Pid): Drained
    decreases |q|
  {
    var i := FirstDeliverable(q, local);
    if i == |q| then Drained([], q, local)
    else
      Prepend(q[i], Drain(SwapRemove(q, i), Received(local, q[i].sentVC, self), self))
  }

  function Prepend(h: Held, d: Drained): Drained {
    d.(delivered := [h] + d.delivered)
  }

  function PrependAll(hs: seq<Held>, d: Drained): Drained {
    d.(delivered := hs + d.delivered)
  }

  lemma DrainStep(q: seq<Held>, i: nat, local: Clock, self: Pid)
    requires i < |q| && Deliverable(q[i], local) && forall j :: 0 <= j < i ==> !Deliverable(q[j], local)
    ensures Drain(q, local, self)
            == PrependAll([q[i]], Drain(SwapRemove(q, i), Received(local, q[i].sentVC, self), self))
  {
    assert FirstDeliverable(q, local) == i;
  }

  lemma DrainNothing(q: seq<Held>, local: Clock, self: Pid)
    requires forall j :: 0 <= j < |q| ==> !Deliverable(q[j], local)
    ensures Drain(q, local, self) == Drained([], q, local) == PrependAll([], Drained([], q, local))
  {}

  lemma PrependTwice(hs: seq<Held>, gs: seq<Held>, d: Drained)
    ensures PrependAll(hs, PrependAll(gs, d)) == PrependAll(hs + gs, d)
  {}

  /** The messages of held entries, which is what a delivery hands on. */
  predicate AreMessages(ms: seq<Message>, hs: seq<Held>) {
    |ms| == |hs| && forall i :: 0 <= i < |hs| ==> ms[i] == hs[i].msg
  }

  lemma MessagesConcat(ms: seq<Message>, hs: seq<Held>, ns: seq<Message>, gs: seq<Held>)
    requires AreMessages(ms, hs) && AreMessages(ns, gs)
    ensures AreMessages(ms + ns, hs + gs)
  {}

  /** Folding the receive rule over delivered messages. */
  function ReceiveAll(local: Clock, hs: seq<Held>, self: Pid): Clock
    decreases |hs|
  {
    if hs == [] then local else ReceiveAll(Received(local, hs[0].sentVC, self), hs[1..], self)
  }

  /** Every message of the list is deliverable once those before it have been received. */
  predicate DeliveryChain(local: Clock, hs: seq<Held>, self: Pid)
    decreases |hs|
  {
    hs == [] || (Deliverable(hs[0], local) && DeliveryChain(Received(local, hs[0].sentVC, self), hs[1..], self))
  }

  /** What one arriving message makes of the clock and the queue, whether the
      message is delivered, and which held ones it releases. */
  datatype Outcome = Outcome(clock: Clock, queue: seq<Held>, accepted: bool, released: seq<Held>)

  function Arrive(local: Clock, queue: seq<Held>, m: Message, self: Pid): Outcome {
    if CanDeliver(m.sentVC, m.from, local) then
      var d := Drain(queue, Received(local, m.sentVC, self), self);
      Outcome(d.clock, d.remaining, true, d.delivered)
    else Outcome(local, queue + [Held(m, m.sentVC)], false, [])
  }

  /** Everything an arrival delivers, in order: the message itself, then what it releases. */
  function Deliveries(m: Message, o: Outcome): seq<Held> {
    if o.accepted then [Held(m, m.sentVC)] + o.released else []
  }

  /** Nothing queued is deliverable. */
  predicate Quiescent(q: seq<Held>, local: Clock) {
    forall i :: 0 <= i < |q| ==> !Deliverable(q[i], local)
  }

  // ---- The queue ----

  method CheckDeliverable(stamp: Clock, sender: Pid, local: Clock) returns (ok: bool)
    ensures ok == CanDeliver(stamp, sender, local)
    ensures ok <==> Get(stamp, sender) == Get(local, sender) + 1
                    && forall k :: k != sender ==> Get(stamp, k) <= Get(local, k)
  {
    if Get(stamp, sender) != Get(local, sender) + 1 {
      return false;
    }
    var todo := stamp.Keys;
    while todo != {}
      invariant todo <= stamp.Keys
      invariant forall k :: k in stamp && k !in todo && k != sender ==> stamp[k] <= Get(local, k)
    {
      var k :| k in todo;
      todo := todo - {k};
      if k == sender {
        continue;
      }
      if stamp[k] > Get(local, k) {
        return false;
      }
    }
    ok := true;
  }

  /** The entries a delivery takes over from the stamp: the sender's always, others where larger. */
  predicate TakesOver(local: Clock, held: Held, k: Pid) {
    k in held.sentVC && (k == held.msg.from || Get(local, k) < held.sentVC[k])
  }

  /** What the in-place update of a delivery does to the clock, whether or not it was deliverable. */
  function Absorbed(local: Clock, held: Held, self: Pid): Clock {
    Ticked(local + map k | k in held.sentVC && TakesOver(local, held, k) :: held.sentVC[k], self)
  }

  /** Delivering through the queue moves the clock exactly as the receive rule does. */
  lemma AbsorbedIsReceived(local: Clock, held: Held, self: Pid)
    requires Deliverable(held, local)
    ensures Absorbed(local, held, self) == Received(local, held.sentVC, self)
  {
    forall k | k in held.sentVC ensures TakesOver(local, held, k) <==> Get(local, k) < held.sentVC[k] {}
    assert (map k | k in held.sentVC && TakesOver(local, held, k) :: held.sentVC[k])
        == (map k | k in held.sentVC && Get(local, k) < held.sentVC[k] :: held.sentVC[k]);
  }

  /** The sender's entry is overwritten, the others are raised, and the own entry ticks. */
  lemma AbsorbedAt(local: Clock, held: Held, self: Pid, k: Pid)
    ensures Get(Absorbed(local, held, self), k) ==
            (if k == held.msg.from && k in held.sentVC then held.sentVC[k]
             else Max(Get(local, k), Get(held.sentVC, k))) + if k == self then 1 else 0
  {}

  method Absorb(local: Clock, held: Held, self: Pid) returns (r: Clock)
    ensures r == Absorbed(local, held, self)
  {
    r := local;
    var todo := held.sentVC.Keys;
    while todo != {}
      invariant todo <= held.sentVC.Keys
      invariant forall p :: p in r <==> p in local || (p !in todo && TakesOver(local, held, p))
      invariant forall p :: p in r ==>
        r[p] == if p !in todo && TakesOver(local, held, p) then held.sentVC[p] else Get(local, p)
    {
      var k :| k in todo;
      todo := todo - {k};
      if k == held.msg.from {
        r := r[k := held.sentVC[k]];
      } else if held.sentVC[k] > Get(r, k) {
        r := r[k := held.sentVC[k]];
      }
    }
    r := r[self := Get(r, self) + 1];
  }

  class HoldBackQueue {
    var pending: seq<Held>

    constructor ()
      ensures pending == []
    {
      pending := [];
    }

    method Enqueue(m: Message, sentVC: Clock)
      modifies this
      ensures pending == old(pending) + [Held(m, sentVC)]
    {
      pending := pending + [Held(m, sentVC)];
    }

    /** One scan: delivers the first deliverable message, filling its slot with the last one. */
    method DeliverFirst(localVC: Clock, self: Pid)
      returns (delivered: seq<Message>, clock: Clock, ghost held: seq<Held>)
      modifies this
      ensures AreMessages(delivered, held) && |held| + |pending| == |old(pending)|
      ensures Drain(old(pending), localVC, self) == PrependAll(held, Drain(pending, clock, self))
      ensures held == [] ==> Drain(pending, clock, self) == Drained([], pending, clock)
    {
      delivered, clock, held := [], localVC, [];
      var i := 0;
      while i < |pending|
        invariant i <= |pending| && pending == old(pending)
        invariant forall j :: 0 <= j < i ==> !Deliverable(pending[j], localVC)
      {
        var ok := CheckDeliverable(pending[i].sentVC, pending[i].msg.from, localVC);
        if ok {
          break;
        }
        i := i + 1;
      }
      if i < |pending| {
        var h := pending[i];
        DrainStep(pending, i, localVC, self);
        AbsorbedIsReceived(localVC, h, self);
        delivered, held := [h.msg], [h];
        clock := Absorb(localVC, h, self);
        pending := SwapRemove(pending, i);
      } else {
        DrainNothing(pending, localVC, self);
      }
    }

    /** Scans until a scan finds nothing. */
    method TryDeliver(localVC: Clock, self: Pid) returns (delivered: seq<Message>, clock: Clock)
      modifies this
      ensures var d := Drain(old(pending), localVC, self);
              AreMessages(delivered, d.delivered) && pending == d.remaining && clock == d.clock
    {
      delivered, clock := [], localVC;
      ghost var done: seq<Held> := [];
      var changed := true;
      while changed
        invariant AreMessages(delivered, done)
        invariant Drain(old(pending), localVC, self) == PrependAll(done, Drain(pending, clock, self))
        invariant !changed ==> Drain(pending, clock, self) == Drained([], pending, clock)
        decreases |pending|, changed
      {
        var found, next, held := DeliverFirst(clock, self);
        PrependTwice(done, held, Drain(pending, next, self));
        MessagesConcat(delivered, done, found, held);
        done := done + held;
        delivered := delivered + found;
        clock := next;
        changed := found != [];
      }
      assert done + [] == done;
    }

    /** The processes some held message still waits for. */
    method BlockedBy(localVC: Clock) returns (blockers: set<Pid>)
      ensures forall p :: p in blockers <==> exists i :: 0 <= i < |pending| && WaitsFor(pending[i], p, localVC)
      ensures forall p :: p in blockers <==>
                exists i :: 0 <= i < |pending|
                            && Get(pending[i].sentVC, p) - (if p == pending[i].msg.from then 1 else 0) > Get(localVC, p)
    {
      blockers := {};
      for i := 0 to |pending|
        invariant forall p :: p in blockers <==> exists j :: 0 <= j < i && WaitsFor(pending[j], p, localVC)
      {
        var mine := BlockersOf(pending[i], localVC);
        blockers := blockers + mine;
      }
    }
  }

  /** A message waits for `p`: for an earlier message of its sender, or for a predecessor from another. */
  predicate WaitsFor(h: Held, p: Pid, local: Clock) {
    Get(h.sentVC, p) > Get(local, p) + if p == h.msg.from then 1 else 0
  }

  /** A message that can be delivered waits for nobody, and one that waits for nobody can be or is stale. */
  lemma WaitsForNobody(h: Held, local: Clock)
    ensures Deliverable(h, local) ==> forall p :: !WaitsFor(h, p, local)
    ensures (forall p :: !WaitsFor(h, p, local)) ==> Deliverable(h, local) || Stale(h, local)
  {
    if forall p :: !WaitsFor(h, p, local) {
      assert !WaitsFor(h, h.msg.from, local);
      forall p ensures p != h.msg.from ==> Get(h.sentVC, p) <= Get(local, p) { assert !WaitsFor(h, p, local); }
    }
  }

  method BlockersOf(h: Held, local: Clock) returns (blockers: set<Pid>)
    ensures forall p :: p in blockers <==> WaitsFor(h, p, local)
  {
    var sender := h.msg.from;
    blockers := if Get(h.sentVC, sender) > Get(local, sender) + 1 then {sender} else {};
    var todo := h.sentVC.Keys;
    while todo != {}
      invariant todo <= h.sentVC.Keys
      invariant forall p :: p in blockers <==> p !in todo - {sender} && WaitsFor(h, p, local)
    {
      var k :| k in todo;
      todo := todo - {k};
      if k == sender {
        continue;
      }
      if h.sentVC[k] > Get(local, k) {
        blockers := blockers + {k};
      }
    }
  }

  // ---- What a drain does ----

  lemma SwapRemoveKeepsTheRest(q: seq<Held>, i: nat)
    requires i < |q|
    ensures multiset(q) == multiset(SwapRemove(q, i)) + multiset{q[i]}
    ensures |SwapRemove(q, i)| == |q| - 1
    ensures forall j :: 0 <= j < |q| - 1 ==> SwapRemove(q, i)[j] == q[if j == i then |q| - 1 else j]
  {
    var last := |q| - 1;
    assert q == q[..last] + [q[last]];
    if i < last {
      assert SwapRemove(q, i) == q[..last][i := q[last]];
    } else {
      assert SwapRemove(q, i) == q[..last];
    }
  }

  /** Nothing is lost or invented: delivered plus remaining is the old queue. */
  lemma {:induction false} DrainConserves(q: seq<Held>, local: Clock, self: Pid)
    ensures var d := Drain(q, local, self); multiset(q) == multiset(d.delivered) + multiset(d.remaining)
    decreases |q|
  {
    var i := FirstDeliverable(q, local);
    if i < |q| {
      SwapRemoveKeepsTheRest(q, i);
      var next := Received(local, q[i].sentVC, self);
      DrainConserves(SwapRemove(q, i), next, self);
      var rest := Drain(SwapRemove(q, i), next, self);
      assert multiset([q[i]] + rest.delivered) == multiset{q[i]} + multiset(rest.delivered);
    }
  }

  /** The delivered list is a legal delivery sequence, the final clock is its fold, and what remains is
      not deliverable under that clock. */
  lemma {:induction false} DrainDelivers(q: seq<Held>, local: Clock, self: Pid)
    ensures var d := Drain(q, local, self);
            && DeliveryChain(local, d.delivered, self)
            && d.clock == ReceiveAll(local, d.delivered, self)
            && Quiescent(d.remaining, d.clock)
    decreases |q|
  {
    var i := FirstDeliverable(q, local);
    if i < |q| {
      var next := Received(local, q[i].sentVC, self);
      DrainDelivers(SwapRemove(q, i), next, self);
      var rest := Drain(SwapRemove(q, i), next, self);
      assert ([q[i]] + rest.delivered)[1..] == rest.delivered;
    }
  }

  /** A message the clock already covers: it can never become deliverable again. */
  ghost predicate Stale(h: Held, local: Clock) {
    Leq(h.sentVC, local)
  }

  /** On a quiescent queue, as TryDeliver leaves it, no process blocks exactly when all messages are stale. */
  lemma BlockersOfQuiescentQueue(q: seq<Held>, local: Clock)
    requires Quiescent(q, local)
    ensures (forall i, p :: 0 <= i < |q| ==> !WaitsFor(q[i], p, local))
            <==> forall i :: 0 <= i < |q| ==> Stale(q[i], local)
  {
    forall i | 0 <= i < |q| ensures (forall p :: !WaitsFor(q[i], p, local)) <==> Stale(q[i], local) {
      var h := q[i];
      assert !Deliverable(h, local);
      if forall p :: !WaitsFor(h, p, local) {
        assert !WaitsFor(h, h.msg.from, local);
        assert forall k :: k in h.sentVC && k != h.msg.from ==> !WaitsFor(h, k, local);
        assert Get(h.sentVC, h.msg.from) != Get(local, h.msg.from) + 1;
        forall p ensures Get(h.sentVC, p) <= Get(local, p) { assert !WaitsFor(h, p, local); }
      }
    }
  }

  // ---- The order of the queue does not matter ----

  /** No message is the receiver's own, and sender plus counter names a message. */
  ghost predicate Distinct(q: seq<Held>, self: Pid) {
    && (forall h :: h in multiset(q) ==> h.msg.from != self)
    && (forall g, h :: g in multiset(q) && h in multiset(q) && SameSlot(g, h) ==> g == h)
  }

  predicate SameSlot(g: Held, h: Held) {
    g.msg.from == h.msg.from && Get(g.sentVC, g.msg.from) == Get(h.sentVC, h.msg.from)
  }

  /** Two drains agree: same messages delivered, same left, same clock. */
  predicate Agree(d: Drained, e: Drained) {
    multiset(d.delivered) == multiset(e.delivered) && multiset(d.remaining) == multiset(e.remaining) &&
    d.clock == e.clock
  }

  /** Delivering one of two different deliverable messages leaves the other deliverable. */
  lemma StillDeliverable(g: Held, h: Held, local: Clock, self: Pid)
    requires Deliverable(g, local) && Deliverable(h, local)
    requires g.msg.from != self && h.msg.from != self && !SameSlot(g, h)
    ensures Deliverable(h, Received(local, g.sentVC, self))
  {}

  /** Two receives commute when neither stamp raises the receiver's own entry. */
  lemma ReceivesCommute(a: Clock, b: Clock, local: Clock, self: Pid)
    requires Get(a, self) <= Get(local, self) && Get(b, self) <= Get(local, self)
    ensures Received(Received(local, a, self), b, self) == Received(Received(local, b, self), a, self)
  {
    var ab, ba := Received(Received(local, a, self), b, self), Received(Received(local, b, self), a, self);
    forall p ensures Get(ab, p) == Get(ba, p) && (p in ab <==> p in ba) {
      GetReceived(local, a, self, p);
      GetReceived(local, b, self, p);
      GetReceived(Received(local, a, self), b, self, p);
      GetReceived(Received(local, b, self), a, self, p);
      StoredKeys(local, a, b, self, p);
      StoredKeys(local, b, a, self, p);
    }
  }

  lemma DeliveriesCommute(g: Held, h: Held, local: Clock, self: Pid)
    requires g.msg.from != self && h.msg.from != self && Deliverable(g, local) && Deliverable(h, local)
    ensures Received(Received(local, g.sentVC, self), h.sentVC, self)
            == Received(Received(local, h.sentVC, self), g.sentVC, self)
  {
    ReceivesCommute(g.sentVC, h.sentVC, local, self);
  }

  lemma StoredKeys(local: Clock, a: Clock, b: Clock, self: Pid, p: Pid)
    ensures p in Received(Received(local, a, self), b, self) <==>
            p in local || p == self || Get(a, p) > 0 || Get(b, p) > 0
  {}

  lemma Removal(q: seq<Held>, i: nat, self: Pid)
    requires Distinct(q, self) && i < |q|
    ensures multiset(q) == multiset(SwapRemove(q, i)) + multiset{q[i]} && Distinct(SwapRemove(q, i), self)
    ensures q[i] in multiset(q)
  {
    SwapRemoveKeepsTheRest(q, i);
    forall h | h in multiset(SwapRemove(q, i)) ensures h in multiset(q) {}
  }

  /** Removing the same message from equal bags leaves equal bags. */
  lemma Cancel(a: multiset<Held>, b: multiset<Held>, x: Held)
    requires a + multiset{x} == b + multiset{x}
    ensures a == b
  {
    forall z ensures a[z] == b[z] {
      assert (a + multiset{x})[z] == (b + multiset{x})[z];
    }
  }

  lemma SameRest(a: multiset<Held>, b: multiset<Held>, ah: multiset<Held>, bg: multiset<Held>, g: Held, h: Held)
    requires a + multiset{h} == ah && b + multiset{g} == bg && ah + multiset{g} == bg + multiset{h}
    ensures a == b
  {
    assert (a + multiset{h}) + multiset{g} == (b + multiset{h}) + multiset{g};
    Cancel(a + multiset{h}, b + multiset{h}, g);
    Cancel(a, b, h);
  }

  lemma MembersOfBoth(a: multiset<Held>, b: multiset<Held>, g: Held, h: Held)
    requires a + multiset{g} == b + multiset{h} && g != h
    ensures h in a && g in b
  {
    assert h in a + multiset{g} && g in b + multiset{h};
  }

  lemma Find(q: seq<Held>, h: Held) returns (j: nat)
    requires h in multiset(q)
    ensures j < |q| && q[j] == h
  {
    assert h in q;
    j :| 0 <= j < |q| && q[j] == h;
  }

  /** Any deliverable message may be delivered first. */
  lemma {:induction false} AnyFirst(q: seq<Held>, i: nat, local: Clock, self: Pid)
    requires Distinct(q, self) && i < |q| && Deliverable(q[i], local)
    ensures Agree(Drain(q, local, self),
                  Prepend(q[i], Drain(SwapRemove(q, i), Received(local, q[i].sentVC, self), self)))
    decreases |q|, 0
  {
    var f := FirstDeliverable(q, local);
    Removal(q, f, self);
    Removal(q, i, self);
    var qf, qi := SwapRemove(q, f), SwapRemove(q, i);
    var cf, ci := Received(local, q[f].sentVC, self), Received(local, q[i].sentVC, self);
    if q[f] == q[i] {
      OrderIrrelevant(qf, qi, cf, self);
      PrependAgree(q[f], Drain(qf, cf, self), Drain(qi, ci, self));
    } else {
      EitherFirst(q[f], q[i], qf, qi, local, self);
    }
  }

  /** Two deliverable messages: whichever goes first, the other follows and the outcome is the same. */
  lemma {:induction false} EitherFirst(g: Held, h: Held, qg: seq<Held>, qh: seq<Held>, local: Clock, self: Pid)
    requires Distinct(qg, self) && Distinct(qh, self) && g != h && |qg| == |qh|
    requires multiset(qg) + multiset{g} == multiset(qh) + multiset{h}
    requires g.msg.from != self && h.msg.from != self && !SameSlot(g, h)
    requires Deliverable(g, local) && Deliverable(h, local)
    ensures Agree(Prepend(g, Drain(qg, Received(local, g.sentVC, self), self)),
                  Prepend(h, Drain(qh, Received(local, h.sentVC, self), self)))
    decreases |qg|, 2
  {
    var cg, ch := Received(local, g.sentVC, self), Received(local, h.sentVC, self);
    MembersOfBoth(multiset(qg), multiset(qh), g, h);
    var rg, c := OtherNext(g, h, qg, local, self);
    var rh, c' := OtherNext(h, g, qh, local, self);
    DeliveriesCommute(g, h, local, self);
    SameRest(multiset(rg), multiset(rh), multiset(qg), multiset(qh), g, h);
    OrderIrrelevant(rg, rh, c, self);
    PrependBoth(g, h, Drain(rg, c, self), Drain(rh, c, self), Drain(qg, cg, self), Drain(qh, ch, self));
  }

  /** With `g` delivered first, `h` may go next. */
  lemma {:induction false} OtherNext(g: Held, h: Held, q: seq<Held>, local: Clock, self: Pid)
    returns (rest: seq<Held>, clock: Clock)
    requires Distinct(q, self) && h in multiset(q)
    requires g.msg.from != self && h.msg.from != self && !SameSlot(g, h)
    requires Deliverable(g, local) && Deliverable(h, local)
    ensures |rest| < |q| && Distinct(rest, self) && multiset(rest) + multiset{h} == multiset(q)
    ensures clock == Received(Received(local, g.sentVC, self), h.sentVC, self)
    ensures Agree(Drain(q, Received(local, g.sentVC, self), self), Prepend(h, Drain(rest, clock, self)))
    decreases |q|, 1
  {
    StillDeliverable(g, h, local, self);
    var j := Find(q, h);
    Removal(q, j, self);
    var next := Received(local, g.sentVC, self);
    AnyFirst(q, j, next, self);
    rest, clock := SwapRemove(q, j), Received(next, h.sentVC, self);
  }

  lemma PrependAgree(g: Held, d: Drained, e: Drained)
    requires Agree(d, e)
    ensures Agree(Prepend(g, d), Prepend(g, e))
  {}

  lemma PrependBoth(g: Held, h: Held, d: Drained, e: Drained, dh: Drained, eg: Drained)
    requires Agree(d, e) && Agree(dh, Prepend(h, d)) && Agree(eg, Prepend(g, e))
    ensures Agree(Prepend(g, dh), Prepend(h, eg))
  {}

  lemma NoneDeliverable(q: seq<Held>, r: seq<Held>, j: nat, local: Clock)
    requires multiset(q) == multiset(r) && FirstDeliverable(q, local) == |q| && j < |r|
    ensures !Deliverable(r[j], local)
  {
    assert r[j] in multiset(r);
    var k := Find(q, r[j]);
  }

  /** Every order of the same held messages drains to the same outcome. */
  lemma {:induction false} OrderIrrelevant(q: seq<Held>, r: seq<Held>, local: Clock, self: Pid)
    requires multiset(q) == multiset(r) && Distinct(q, self)
    ensures Agree(Drain(q, local, self), Drain(r, local, self))
    decreases |q|, 1
  {
    assert |q| == |multiset(q)| == |multiset(r)| == |r|;
    var i := FirstDeliverable(q, local);
    if i < |q| {
      Removal(q, i, self);
      var k := Find(r, q[i]);
      Removal(r, k, self);
      AnyFirst(r, k, local, self);
      var next := Received(local, q[i].sentVC, self);
      Cancel(multiset(SwapRemove(q, i)), multiset(SwapRemove(r, k)), q[i]);
      OrderIrrelevant(SwapRemove(q, i), SwapRemove(r, k), next, self);
      PrependAgree(q[i], Drain(SwapRemove(q, i), next, self), Drain(SwapRemove(r, k), next, self));
    } else {
      var j := FirstDeliverable(r, local);
      if j < |r| {
        NoneDeliverable(q, r, j, local);
      }
    }
  }
}
