/** Dotted version vectors, and the sibling set that a sequence of writes leaves behind. */
module DottedVersions {
  import opened VectorClock

  datatype MaybeDot = NoDot | Dot(replica: Pid, counter: nat)

  datatype Dvv = Dvv(vector: Clock, dot: MaybeDot)

  datatype Entry = Entry(dvv: Dvv, value: seq<bv8>)

  /** The clock of a dotted version: its history with the dot folded in. */
  function Folded(d: Dvv): Clock {
    if d.dot.Dot? && Get(d.vector, d.dot.replica) < d.dot.counter then d.vector[d.dot.replica := d.dot.counter]
    else d.vector
  }

  /** The clock has reached all of the history and the dot. */
  ghost predicate HasSeen(c: Clock, d: Dvv) {
    Leq(d.vector, c) && (d.dot.Dot? ==> d.dot.counter <= Get(c, d.dot.replica))
  }

  /** A clock covers a dotted version exactly when it has reached its history and its dot. */
  lemma CoversExactly(d: Dvv, c: Clock)
    ensures Leq(Folded(d), c) <==> HasSeen(c, d)
  {
    if Leq(Folded(d), c) {
      forall p ensures Get(d.vector, p) <= Get(c, p) { assert Get(Folded(d), p) <= Get(c, p); }
      if d.dot.Dot? { assert Get(Folded(d), d.dot.replica) <= Get(c, d.dot.replica); }
    }
  }

  function ClockOf(e: Entry): Clock {
    Folded(e.dvv)
  }

  /** `b` has seen everything `a` has. */
  ghost predicate Covered(a: Entry, b: Entry) {
    Leq(ClockOf(a), ClockOf(b))
  }

  lemma CoveredTransitive(a: Entry, b: Entry, c: Entry)
    requires Covered(a, b) && Covered(b, c)
    ensures Covered(a, c)
  {}

  method ToVV(d: Dvv) returns (vv: Clock)
    ensures vv == Folded(d)
    ensures forall p :: Get(vv, p) ==
              Max(Get(d.vector, p), if d.dot.Dot? && p == d.dot.replica then d.dot.counter else 0)
  {
    vv := map[];
    var todo := d.vector.Keys;
    while todo != {}
      invariant todo <= d.vector.Keys
      invariant vv == map p | p in d.vector && p !in todo :: d.vector[p]
    {
      var p :| p in todo;
      todo := todo - {p};
      vv := vv[p := d.vector[p]];
    }
    assert vv == d.vector;
    if d.dot.Dot? && Get(vv, d.dot.replica) < d.dot.counter {
      vv := vv[d.dot.replica := d.dot.counter];
    }
  }

  method Dominates(a: Dvv, b: Dvv) returns (yes: bool)
    ensures yes == Leq(Folded(b), Folded(a))
    ensures yes <==> HasSeen(Folded(a), b)
  {
    CoversExactly(b, Folded(a));
    var bvv := ToVV(b);
    var avv := ToVV(a);
    var todo := bvv.Keys;
    while todo != {}
      invariant todo <= bvv.Keys
      invariant forall p :: p in bvv && p !in todo ==> Get(bvv, p) <= Get(avv, p)
    {
      var p :| p in todo;
      todo := todo - {p};
      if Get(avv, p) < bvv[p] {
        assert !(Get(bvv, p) <= Get(avv, p));
        return false;
      }
    }
    yes := true;
  }

  function Updated(previous: Dvv, server: Pid, counter: nat): Dvv {
    Dvv(Folded(previous), Dot(server, counter))
  }

  method UpdateDVV(previous: Dvv, server: Pid, counter: nat) returns (d: Dvv)
    ensures d == Updated(previous, server, counter)
    ensures d.dot == Dot(server, counter) && forall c :: Leq(d.vector, c) <==> HasSeen(c, previous)
  {
    forall c ensures Leq(Folded(previous), c) <==> HasSeen(c, previous) { CoversExactly(previous, c); }
    var vv := ToVV(previous);
    d := Dvv(vv, Dot(server, counter));
  }

  /** An update always covers what it follows; it is more only if its dot is new to that history. */
  lemma UpdateCovers(previous: Dvv, server: Pid, counter: nat)
    ensures Leq(Folded(previous), Folded(Updated(previous, server, counter)))
    ensures Leq(Folded(Updated(previous, server, counter)), Folded(previous))
            <==> counter <= Get(Folded(previous), server)
  {}

  // ---- The sibling set ----

  /** Siblings that the incoming entry does not cover. */
  ghost function Survivors(siblings: seq<Entry>, incoming: Entry): seq<Entry> {
    if siblings == [] then []
    else
      var last := siblings[|siblings| - 1];
      Survivors(siblings[..|siblings| - 1], incoming) + if Covered(last, incoming) then [] else [last]
  }

  ghost predicate CoveredBySome(incoming: Entry, siblings: seq<Entry>) {
    exists s :: s in siblings && Covered(incoming, s)
  }

  ghost function Synced(siblings: seq<Entry>, incoming: Entry): seq<Entry> {
    var survivors := Survivors(siblings, incoming);
    if CoveredBySome(incoming, survivors) then survivors else survivors + [incoming]
  }

  /** `xs` are the elements of `ys` at the positions `at`, which increase. */
  ghost predicate PickedFrom(xs: seq<Entry>, ys: seq<Entry>, at: seq<nat>) {
    && |at| == |xs|
    && (forall k :: 0 <= k < |at| ==> at[k] < |ys| && xs[k] == ys[at[k]])
    && (forall k, l :: 0 <= k < l < |at| ==> at[k] < at[l])
  }

  lemma {:induction false} SurvivorsPicked(siblings: seq<Entry>, incoming: Entry) returns (at: seq<nat>)
    ensures PickedFrom(Survivors(siblings, incoming), siblings, at)
    ensures forall i :: 0 <= i < |siblings| ==> (i in at <==> !Leq(ClockOf(siblings[i]), ClockOf(incoming)))
    decreases |siblings|
  {
    hide Leq, Folded;
    at := [];
    if siblings != [] {
      var n := |siblings| - 1;
      at := SurvivorsPicked(siblings[..n], incoming);
      if !Covered(siblings[n], incoming) { at := at + [n]; }
    }
  }

  /** For any siblings: those the entry does not cover stay, each where it was among the others, and the entry
      comes last unless one of them covers it. */
  lemma SyncKeepsOrder(siblings: seq<Entry>, incoming: Entry) returns (at: seq<nat>)
    ensures forall i :: 0 <= i < |siblings| ==> (i in at <==> !Leq(ClockOf(siblings[i]), ClockOf(incoming)))
    ensures (forall i :: i in at ==> i < |siblings|) && var result := Synced(siblings, incoming);
            if exists i :: i in at && Leq(ClockOf(incoming), ClockOf(siblings[i])) then PickedFrom(result, siblings, at)
            else PickedFrom(result, siblings + [incoming], at + [|siblings|])
  {
    at := SurvivorsPicked(siblings, incoming);
    var survivors := Survivors(siblings, incoming);
    if CoveredBySome(incoming, survivors) {
      var s :| s in survivors && Covered(incoming, s);
      var k :| 0 <= k < |survivors| && survivors[k] == s;
      assert at[k] in at && siblings[at[k]] == s;
    } else {
      forall i | i in at ensures !Leq(ClockOf(incoming), ClockOf(siblings[i])) {
        var k :| 0 <= k < |at| && at[k] == i;
        assert survivors[k] in survivors;
      }
    }
  }

  method Sync(siblings: seq<Entry>, incoming: Entry) returns (result: seq<Entry>)
    ensures result == Synced(siblings, incoming)
  {
    result := [];
    for i := 0 to |siblings|
      invariant result == Survivors(siblings[..i], incoming)
    {
      assert siblings[..i + 1][..i] == siblings[..i];
      var drop := Dominates(incoming.dvv, siblings[i].dvv);
      if !drop {
        result := result + [siblings[i]];
      }
    }
    assert siblings[..|siblings|] == siblings;
    var dominated := false;
    for i := 0 to |result|
      invariant forall s :: s in result[..i] ==> !Covered(incoming, s)
    {
      assert result[..i + 1] == result[..i] + [result[i]];
      dominated := Dominates(result[i].dvv, incoming.dvv);
      if dominated {
        assert Covered(incoming, result[i]);
        return;
      }
    }
    assert result[..|result|] == result;
    result := result + [incoming];
  }

  /** What a sequence of writes leaves, starting from nothing. */
  ghost function AfterAll(list: seq<Entry>): seq<Entry> {
    if list == [] then [] else Synced(AfterAll(list[..|list| - 1]), list[|list| - 1])
  }

  /** The entry at `i` is strictly covered by no other, and no later one has the same clock. */
  ghost predicate Lasting(list: seq<Entry>, i: nat)
    requires i < |list|
  {
    && (forall j :: i < j < |list| ==> !Covered(list[i], list[j]))
    && (forall j :: 0 <= j < i && Covered(list[i], list[j]) ==> Covered(list[j], list[i]))
  }

  lemma {:induction false} SurvivorsHold(siblings: seq<Entry>, incoming: Entry)
    ensures forall e :: e in Survivors(siblings, incoming) <==> e in siblings && !Covered(e, incoming)
  {
    if siblings != [] {
      SurvivorsHold(siblings[..|siblings| - 1], incoming);
      assert siblings == siblings[..|siblings| - 1] + [siblings[|siblings| - 1]];
    }
  }

  /** Nothing ever written is lost: it is covered by what is kept. */
  lemma {:induction false} AllCovered(list: seq<Entry>, i: nat)
    requires i < |list|
    ensures CoveredBySome(list[i], AfterAll(list))
  {
    var init, last := list[..|list| - 1], list[|list| - 1];
    SurvivorsHold(AfterAll(init), last);
    if i == |list| - 1 {
      assert Covered(last, last);
      assert last in Synced(AfterAll(init), last) || CoveredBySome(last, Survivors(AfterAll(init), last));
    } else {
      AllCovered(init, i);
      var s :| s in AfterAll(init) && Covered(list[i], s);
      if Covered(s, last) {
        CoveredTransitive(list[i], s, last);
        LastCovered(AfterAll(init), last);
        var t :| t in Synced(AfterAll(init), last) && Covered(last, t);
        CoveredTransitive(list[i], last, t);
      } else {
        assert s in Synced(AfterAll(init), last);
      }
    }
  }

  lemma LastCovered(siblings: seq<Entry>, incoming: Entry)
    ensures CoveredBySome(incoming, Synced(siblings, incoming))
  {
    assert Covered(incoming, incoming);
    if !CoveredBySome(incoming, Survivors(siblings, incoming)) {
      assert incoming in Synced(siblings, incoming);
    }
  }

  ghost predicate SomeLasts(list: seq<Entry>, e: Entry) {
    exists i :: 0 <= i < |list| && list[i] == e && Lasting(list, i)
  }

  /** Exactly the lasting entries are kept. */
  lemma {:induction false} KeptIsLasting(list: seq<Entry>, e: Entry)
    ensures e in AfterAll(list) <==> SomeLasts(list, e)
  {
    if list != [] {
      var init, last := list[..|list| - 1], list[|list| - 1];
      SurvivorsHold(AfterAll(init), last);
      KeptIsLasting(init, e);
      SomeLastsOneMore(list, e);
      LastLasts(list);
    }
  }

  lemma SomeLastsOneMore(list: seq<Entry>, e: Entry)
    requires list != []
    ensures var init, last := list[..|list| - 1], list[|list| - 1];
            SomeLasts(list, e) <==>
              (SomeLasts(init, e) && !Covered(e, last)) || (e == last && Lasting(list, |list| - 1))
  {
    var init, last, n := list[..|list| - 1], list[|list| - 1], |list| - 1;
    if SomeLasts(init, e) && !Covered(e, last) {
      var i :| 0 <= i < n && init[i] == e && Lasting(init, i);
      LastingOneMore(list, i);
      assert list[i] == e && Lasting(list, i);
    }
    if SomeLasts(list, e) {
      var i :| 0 <= i < |list| && list[i] == e && Lasting(list, i);
      if i < n {
        LastingOneMore(list, i);
        assert init[i] == e && Lasting(init, i);
      }
    }
  }

  lemma LastingOneMore(list: seq<Entry>, i: nat)
    requires i < |list| - 1
    ensures Lasting(list, i) <==> Lasting(list[..|list| - 1], i) && !Covered(list[i], list[|list| - 1])
  {
    var init := list[..|list| - 1];
    forall j | 0 <= j < |init| ensures init[j] == list[j] {}
  }

  /** The newest entry is kept unless an older one strictly covers it. */
  lemma LastLasts(list: seq<Entry>)
    requires list != []
    ensures var init, last := list[..|list| - 1], list[|list| - 1];
            Lasting(list, |list| - 1) <==> !CoveredBySome(last, Survivors(AfterAll(init), last))
  {
    var init, last := list[..|list| - 1], list[|list| - 1];
    SurvivorsHold(AfterAll(init), last);
    if j :| 0 <= j < |init| && Covered(last, list[j]) && !Covered(list[j], last) {
      AllCovered(init, j);
      var s :| s in AfterAll(init) && Covered(init[j], s);
      CoveredTransitive(last, list[j], s);
      if Covered(s, last) { CoveredTransitive(list[j], s, last); }
    }
    if CoveredBySome(last, Survivors(AfterAll(init), last)) {
      var s :| s in Survivors(AfterAll(init), last) && Covered(last, s);
      KeptAreWritten(init, s);
    }
  }

  lemma {:induction false} KeptAreWritten(list: seq<Entry>, e: Entry)
    requires e in AfterAll(list)
    ensures e in list
  {
    var init, last := list[..|list| - 1], list[|list| - 1];
    SurvivorsHold(AfterAll(init), last);
    assert list == init + [last];
    if e in AfterAll(init) { KeptAreWritten(init, e); }
  }

  ghost predicate IsAntichain(siblings: seq<Entry>) {
    forall i, j :: 0 <= i < |siblings| && 0 <= j < |siblings| && i != j ==> !Covered(siblings[i], siblings[j])
  }

  lemma AntichainMore(siblings: seq<Entry>, e: Entry)
    requires IsAntichain(siblings) && forall s :: s in siblings ==> !Covered(s, e) && !Covered(e, s)
    ensures IsAntichain(siblings + [e])
  {
    var all := siblings + [e];
    forall i, j | 0 <= i < |all| && 0 <= j < |all| && i != j ensures !Covered(all[i], all[j]) {
      if i == |siblings| {
        assert siblings[j] in siblings;
      } else if j == |siblings| {
        assert siblings[i] in siblings;
      }
    }
  }

  lemma {:induction false} SurvivorsAntichain(siblings: seq<Entry>, incoming: Entry)
    requires IsAntichain(siblings)
    ensures IsAntichain(Survivors(siblings, incoming))
  {
    if siblings != [] {
      var init, last := siblings[..|siblings| - 1], siblings[|siblings| - 1];
      assert forall i :: 0 <= i < |init| ==> init[i] == siblings[i];
      SurvivorsAntichain(init, incoming);
      SurvivorsHold(init, incoming);
      forall s | s in Survivors(init, incoming) ensures !Covered(s, last) && !Covered(last, s) {
        var i :| 0 <= i < |init| && init[i] == s;
      }
      AntichainMore(Survivors(init, incoming), last);
    }
  }

  /** No kept entry covers another. */
  lemma {:induction false} KeptIsAntichain(list: seq<Entry>)
    ensures IsAntichain(AfterAll(list))
  {
    if list != [] {
      var init, last := list[..|list| - 1], list[|list| - 1];
      KeptIsAntichain(init);
      SurvivorsAntichain(AfterAll(init), last);
      SurvivorsHold(AfterAll(init), last);
      if !CoveredBySome(last, Survivors(AfterAll(init), last)) {
        AntichainMore(Survivors(AfterAll(init), last), last);
      }
    }
  }

  ghost predicate HasClock(list: seq<Entry>, c: Clock) {
    exists e :: e in list && Same(ClockOf(e), c)
  }

  /** The two lists bear the same clocks, in whatever order and however often. */
  ghost predicate SameClocks(a: seq<Entry>, b: seq<Entry>) {
    (forall x :: x in a ==> HasClock(b, ClockOf(x))) && (forall y :: y in b ==> HasClock(a, ClockOf(y)))
  }

  ghost predicate Maximal(list: seq<Entry>, c: Clock) {
    forall y :: y in list && Leq(c, ClockOf(y)) ==> Leq(ClockOf(y), c)
  }

  lemma KeptCoversNothingMore(list: seq<Entry>, s: Entry, y: Entry)
    requires s in AfterAll(list) && y in list && Covered(s, y)
    ensures Covered(y, s)
  {
    KeptIsLasting(list, s);
    var i :| 0 <= i < |list| && list[i] == s && Lasting(list, i);
    var j :| 0 <= j < |list| && list[j] == y;
  }

  lemma SameIsLeq(a: Clock, b: Clock, c: Clock)
    requires Same(a, b)
    ensures (Leq(a, c) <==> Leq(b, c)) && (Leq(c, a) <==> Leq(c, b))
  {}

  /** A clock is kept exactly when it is maximal among those written. */
  lemma KeptClocksAreMaximal(list: seq<Entry>, c: Clock)
    requires HasClock(list, c)
    ensures HasClock(AfterAll(list), c) <==> Maximal(list, c)
  {
    if HasClock(AfterAll(list), c) {
      var s :| s in AfterAll(list) && Same(ClockOf(s), c);
      forall y | y in list && Leq(c, ClockOf(y)) ensures Leq(ClockOf(y), c) {
        SameIsLeq(ClockOf(s), c, ClockOf(y));
        KeptCoversNothingMore(list, s, y);
      }
    }
    if Maximal(list, c) {
      MaximalIsKept(list, c);
    }
  }

  lemma MaximalIsKept(list: seq<Entry>, c: Clock)
    requires HasClock(list, c) && Maximal(list, c)
    ensures HasClock(AfterAll(list), c)
  {
    var x :| x in list && Same(ClockOf(x), c);
    var i :| 0 <= i < |list| && list[i] == x;
    AllCovered(list, i);
    var s :| s in AfterAll(list) && Covered(x, s);
    KeptAreWritten(list, s);
    SameIsLeq(ClockOf(x), c, ClockOf(s));
    assert Leq(ClockOf(s), c) && Leq(c, ClockOf(s));
  }

  lemma MaximalInBoth(a: seq<Entry>, b: seq<Entry>, c: Clock)
    requires SameClocks(a, b) && Maximal(a, c)
    ensures Maximal(b, c)
  {
    forall y | y in b && Leq(c, ClockOf(y)) ensures Leq(ClockOf(y), c) {
      assert HasClock(a, ClockOf(y));
      var x :| x in a && Same(ClockOf(x), ClockOf(y));
      SameIsLeq(ClockOf(x), ClockOf(y), c);
    }
  }

  /** Order and repetition of the writes do not matter: the clocks kept are the same. */
  lemma OrderAndRepetitionIrrelevant(a: seq<Entry>, b: seq<Entry>)
    requires SameClocks(a, b)
    ensures SameClocks(AfterAll(a), AfterAll(b))
  {
    forall s | s in AfterAll(a) ensures HasClock(AfterAll(b), ClockOf(s)) {
      KeptThereToo(a, b, s);
    }
    forall t | t in AfterAll(b) ensures HasClock(AfterAll(a), ClockOf(t)) {
      KeptThereToo(b, a, t);
    }
  }

  lemma KeptThereToo(a: seq<Entry>, b: seq<Entry>, s: Entry)
    requires SameClocks(a, b) && s in AfterAll(a)
    ensures HasClock(AfterAll(b), ClockOf(s))
  {
    KeptAreWritten(a, s);
    assert HasClock(b, ClockOf(s));
    assert Same(ClockOf(s), ClockOf(s));
    KeptClocksAreMaximal(a, ClockOf(s));
    MaximalInBoth(a, b, ClockOf(s));
    KeptClocksAreMaximal(b, ClockOf(s));
  }
}
