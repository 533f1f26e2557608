/** The multi-version store: what a write discards, keeps, merges and reports. */
module Conflicts {
  import opened VectorClock

  const MAX_KEYS := 10_000
  const MAX_SIBLINGS_PER_KEY := 64

  datatype Key = Key(name: string)

  datatype Version = Version(value: seq<bv8>, clock: Clock, author: Pid)

  datatype Error = KeyRequired | AuthorRequired | StoreFull

  datatype Outcome = Rejected(error: Error) | Accepted(version: Version, conflict: bool)

  // ---- One write ----

  /** The versions the writer had not seen. */
  ghost function Survivors(ctx: Clock, versions: seq<Version>): seq<Version> {
    if versions == [] then []
    else
      var last := versions[|versions| - 1];
      Survivors(ctx, versions[..|versions| - 1]) + if Leq(last.clock, ctx) then [] else [last]
  }

  /** The writer's clock merged with those of its concurrent siblings, compared with the original context. */
  ghost function MergedClock(ctx: Clock, versions: seq<Version>): Clock {
    if versions == [] then ctx
    else
      var before, last := MergedClock(ctx, versions[..|versions| - 1]), versions[|versions| - 1];
      if OrderOf(ctx, last.clock) == Concurrent then Merged(before, last.clock) else before
  }

  ghost function NewVersion(ctx: Clock, versions: seq<Version>, author: Pid, value: seq<bv8>): Version {
    Version(value, Ticked(MergedClock(ctx, versions), author), author)
  }

  function Trimmed(versions: seq<Version>): seq<Version> {
    if |versions| > MAX_SIBLINGS_PER_KEY then versions[|versions| - MAX_SIBLINGS_PER_KEY..] else versions
  }

  ghost function Written(versions: seq<Version>, ctx: Clock, author: Pid, value: seq<bv8>): seq<Version> {
    Trimmed(Survivors(ctx, versions) + [NewVersion(ctx, versions, author, value)])
  }

  lemma FirstWrite(ctx: Clock, author: Pid, value: seq<bv8>)
    ensures Written([], ctx, author, value) == [Version(value, Ticked(ctx, author), author)]
  {}

  method TrimOldest(versions: seq<Version>, n: int) returns (kept: seq<Version>)
    ensures kept == if 0 < n < |versions| then versions[n..] else versions
  {
    if n <= 0 || |versions| <= n {
      return versions;
    }
    kept := versions[n..];
  }

  class ConflictDetector {
    var store: map<Key, seq<Version>>
    /** The keys whose conflicts have been published. */
    var published: seq<Key>

    constructor ()
      ensures Valid() && store == map[] && published == []
    {
      store, published := map[], [];
    }

    predicate Valid()
      reads this
    {
      && |store| <= MAX_KEYS
      && forall key :: key in store ==> key.name != "" && 0 < |store[key]| <= MAX_SIBLINGS_PER_KEY
    }

    method Write(key: Key, value: seq<bv8>, ctx: Clock, author: Pid) returns (outcome: Outcome)
      requires Valid()
      modifies this
      ensures Valid()
      ensures outcome.Rejected? <==>
                key.name == "" || author.name == "" || (key !in old(store) && |old(store)| >= MAX_KEYS)
      ensures outcome.Rejected? ==>
                && store == old(store) && published == old(published)
                && outcome.error == (if key.name == "" then KeyRequired
                                     else if author.name == "" then AuthorRequired else StoreFull)
      ensures outcome.Accepted? ==>
                var versions := if key in old(store) then old(store)[key] else [];
                && store == old(store)[key := Written(versions, ctx, author, value)]
                && outcome.version == NewVersion(ctx, versions, author, value)
                && (outcome.conflict <==> Survivors(ctx, versions) != [])
                && published == old(published) + if outcome.conflict then [key] else []
      ensures outcome.Accepted? ==>
                var versions := if key in old(store) then old(store)[key] else [];
                && outcome.version.value == value && outcome.version.author == author
                && (outcome.conflict <==> exists v :: v in versions && !Leq(v.clock, ctx))
    {
      SomeSurvive(ctx, if key in store then store[key] else []);
      if key.name == "" {
        return Rejected(KeyRequired);
      }
      if author.name == "" {
        return Rejected(AuthorRequired);
      }
      if key !in store {
        if |store| >= MAX_KEYS {
          return Rejected(StoreFull);
        }
        var clock := Tick(ctx, author);
        FirstWrite(ctx, author, value);
        store := store[key := [Version(value, clock, author)]];
        return Accepted(Version(value, clock, author), false);
      }
      outcome := WriteSibling(key, value, ctx, author);
    }

    /** The write to a key that has versions. */
    method WriteSibling(key: Key, value: seq<bv8>, ctx: Clock, author: Pid) returns (outcome: Outcome)
      requires key in store
      modifies this
      ensures var versions := old(store)[key];
              && store == old(store)[key := Written(versions, ctx, author, value)]
              && outcome == Accepted(NewVersion(ctx, versions, author, value), Survivors(ctx, versions) != [])
      ensures published == old(published) + if outcome.conflict then [key] else []
    {
      var versions := store[key];
      var survivors, mergedClock, conflict := Sift(versions, ctx);
      var clock := Tick(mergedClock, author);
      var version := Version(value, clock, author);
      survivors := survivors + [version];
      if |survivors| > MAX_SIBLINGS_PER_KEY {
        survivors := TrimOldest(survivors, |survivors| - MAX_SIBLINGS_PER_KEY);
      }
      store := store[key := survivors];
      if conflict {
        published := published + [key];
      }
      outcome := Accepted(version, conflict);
    }

    method Sift(versions: seq<Version>, ctx: Clock)
      returns (survivors: seq<Version>, mergedClock: Clock, conflict: bool)
      ensures survivors == Survivors(ctx, versions) && mergedClock == MergedClock(ctx, versions)
      ensures conflict <==> survivors != []
    {
      survivors, mergedClock, conflict := [], ctx, false;
      for i := 0 to |versions|
        invariant survivors == Survivors(ctx, versions[..i]) && mergedClock == MergedClock(ctx, versions[..i])
        invariant conflict <==> survivors != []
      {
        var existing := versions[i];
        assert versions[..i + 1][..i] == versions[..i];
        var order := Compare(ctx, existing.clock);
        match order
        case HappenedBefore =>
          survivors, conflict := survivors + [existing], true;
        case HappenedAfter =>
        case Identical =>
        case Concurrent =>
          mergedClock := MergePassive(mergedClock, existing.clock);
          survivors, conflict := survivors + [existing], true;
      }
      assert versions[..|versions|] == versions;
    }
  }

  // ---- What a write leaves ----

  lemma {:induction false} SurvivorsHold(ctx: Clock, versions: seq<Version>)
    ensures forall v :: v in Survivors(ctx, versions) <==> v in versions && !Leq(v.clock, ctx)
  {
    if versions != [] {
      SurvivorsHold(ctx, versions[..|versions| - 1]);
      assert versions == versions[..|versions| - 1] + [versions[|versions| - 1]];
    }
  }

  lemma SomeSurvive(ctx: Clock, versions: seq<Version>)
    ensures Survivors(ctx, versions) != [] <==> exists v :: v in versions && !Leq(v.clock, ctx)
  {
    SurvivorsHold(ctx, versions);
    if Survivors(ctx, versions) != [] { assert Survivors(ctx, versions)[0] in Survivors(ctx, versions); }
  }

  /** The merged clock is the least that covers the context and every concurrent sibling. */
  lemma {:induction false} MergedClockIsLeast(ctx: Clock, versions: seq<Version>, c: Clock)
    ensures Leq(MergedClock(ctx, versions), c) <==>
              Leq(ctx, c) && forall v :: v in versions && OrderOf(ctx, v.clock) == Concurrent ==> Leq(v.clock, c)
  {
    if versions != [] {
      var init, last := versions[..|versions| - 1], versions[|versions| - 1];
      MergedClockIsLeast(ctx, init, c);
      MergedIsLeastUpperBound(MergedClock(ctx, init), last.clock, c);
      assert versions == init + [last];
    }
  }

  /** The new version's clock exactly: the least above the context and every concurrent sibling, and one more for
      the author. */
  lemma NewClockExactly(versions: seq<Version>, ctx: Clock, author: Pid, value: seq<bv8>, c: Clock)
    ensures Leq(NewVersion(ctx, versions, author, value).clock, c) <==>
              && Get(c, author) > 0
              && var before := c[author := Get(c, author) - 1];
                 && Leq(ctx, before)
                 && forall v :: v in versions && OrderOf(ctx, v.clock) == Concurrent ==> Leq(v.clock, before)
  {
    if Get(c, author) > 0 {
      MergedClockIsLeast(ctx, versions, c[author := Get(c, author) - 1]);
      TickedBelow(MergedClock(ctx, versions), author, c);
    } else {
      GetTicked(MergedClock(ctx, versions), author, author);
    }
  }

  lemma TickedBelow(a: Clock, p: Pid, c: Clock)
    requires Get(c, p) > 0
    ensures Leq(Ticked(a, p), c) <==> Leq(a, c[p := Get(c, p) - 1])
  {
    var before := c[p := Get(c, p) - 1];
    forall q ensures Get(Ticked(a, p), q) <= Get(c, q) <==> Get(a, q) <= Get(before, q) { GetTicked(a, p, q); }
  }

  /** Below the cap exactly the versions that the context covers leave; above it MAX_SIBLINGS_PER_KEY stay. The new
      version is always the last. */
  lemma WhatLeaves(versions: seq<Version>, ctx: Clock, author: Pid, value: seq<bv8>)
    ensures var after, newest := Written(versions, ctx, author, value), NewVersion(ctx, versions, author, value);
            && 0 < |after| <= MAX_SIBLINGS_PER_KEY && after[|after| - 1] == newest
            && (forall v :: v in after ==> v == newest || (v in versions && !Leq(v.clock, ctx)))
            && (|Survivors(ctx, versions)| < MAX_SIBLINGS_PER_KEY ==>
                  forall v :: v in versions && !Leq(v.clock, ctx) ==> v in after)
            && (|Survivors(ctx, versions)| >= MAX_SIBLINGS_PER_KEY ==> |after| == MAX_SIBLINGS_PER_KEY)
  {
    SurvivorsHold(ctx, versions);
  }

  /** The new version covers everything its write discarded, and exceeds its context. */
  lemma NewVersionCovers(versions: seq<Version>, ctx: Clock, author: Pid, value: seq<bv8>, v: Version)
    ensures var clock := NewVersion(ctx, versions, author, value).clock;
            && Leq(ctx, clock) && Get(clock, author) > Get(ctx, author)
            && (v in versions && (Leq(v.clock, ctx) || OrderOf(ctx, v.clock) == Concurrent) ==> Leq(v.clock, clock))
  {
    var merged := MergedClock(ctx, versions);
    MergedClockIsLeast(ctx, versions, merged);
    forall p ensures Get(merged, p) <= Get(Ticked(merged, author), p) { GetTicked(merged, author, p); }
    assert Leq(merged, merged);
    assert Get(ctx, author) <= Get(merged, author);
    if v in versions && (Leq(v.clock, ctx) || OrderOf(ctx, v.clock) == Concurrent) {
      forall p ensures Get(v.clock, p) <= Get(merged, p) {
        assert Leq(v.clock, ctx) ==> Get(v.clock, p) <= Get(ctx, p) <= Get(merged, p);
      }
    }
  }

  // ---- A history of writes to one key ----

  datatype WriteOp = WriteOp(ctx: Clock, author: Pid, value: seq<bv8>)

  ghost function AfterWrites(ops: seq<WriteOp>): seq<Version> {
    if ops == [] then []
    else
      var op := ops[|ops| - 1];
      Written(AfterWrites(ops[..|ops| - 1]), op.ctx, op.author, op.value)
  }

  /** The versions the writes created, in order. */
  ghost function Issued(ops: seq<WriteOp>): seq<Version> {
    if ops == [] then []
    else
      var init, op := ops[..|ops| - 1], ops[|ops| - 1];
      Issued(init) + [NewVersion(op.ctx, AfterWrites(init), op.author, op.value)]
  }

  // ---- The order of the versions stored ----

  /** `xs` are the elements of `ys` at the positions `at`, which increase. */
  ghost predicate PickedFrom(xs: seq<Version>, ys: seq<Version>, at: seq<nat>) {
    && |at| == |xs|
    && (forall k :: 0 <= k < |at| ==> at[k] < |ys| && xs[k] == ys[at[k]])
    && (forall k, l :: 0 <= k < l < |at| ==> at[k] < at[l])
  }

  lemma PickBounds(xs: seq<Version>, ys: seq<Version>, at: seq<nat>)
    requires PickedFrom(xs, ys, at)
    ensures |at| == |xs| && (forall k :: 0 <= k < |at| ==> at[k] < |ys|) && forall i :: i in at ==> i < |ys|
  {}

  lemma PickNothing(ctx: Clock)
    ensures PickedFrom(Survivors(ctx, []), [], []) && AtUncovered(ctx, [], [])
  {}

  lemma PickOneMore(xs: seq<Version>, ys: seq<Version>, at: seq<nat>, y: Version)
    requires PickedFrom(xs, ys, at)
    ensures PickedFrom(xs, ys + [y], at) && PickedFrom(xs + [y], ys + [y], at + [|ys|])
    ensures |ys| !in at
  {}

  /** The positions are those of the versions the context does not cover. */
  ghost predicate AtUncovered(ctx: Clock, versions: seq<Version>, at: seq<nat>) {
    forall i :: 0 <= i < |versions| ==> (i in at <==> !Leq(versions[i].clock, ctx))
  }

  lemma UncoveredOneMore(ctx: Clock, versions: seq<Version>, at: seq<nat>, last: Version)
    requires AtUncovered(ctx, versions, at) && |versions| !in at
    ensures AtUncovered(ctx, versions + [last], if Leq(last.clock, ctx) then at else at + [|versions|])
  {
    hide Leq;
  }

  lemma SurvivorsOneMore(ctx: Clock, versions: seq<Version>, last: Version)
    ensures Survivors(ctx, versions + [last]) ==
            if Leq(last.clock, ctx) then Survivors(ctx, versions) else Survivors(ctx, versions) + [last]
  {
    hide Leq;
    assert (versions + [last])[..|versions|] == versions;
  }

  lemma {:induction false} SurvivorsPicked(ctx: Clock, versions: seq<Version>) returns (at: seq<nat>)
    ensures PickedFrom(Survivors(ctx, versions), versions, at) && AtUncovered(ctx, versions, at)
    decreases |versions|
  {
    hide Leq, PickedFrom, AtUncovered, Survivors;
    at := [];
    PickNothing(ctx);
    if versions != [] {
      var fewer, last := versions[..|versions| - 1], versions[|versions| - 1];
      assert versions == fewer + [last];
      at := SurvivorsPicked(ctx, fewer);
      PickOneMore(Survivors(ctx, fewer), fewer, at, last);
      UncoveredOneMore(ctx, fewer, at, last);
      SurvivorsOneMore(ctx, fewer, last);
      if !Leq(last.clock, ctx) { at := at + [|fewer|]; }
    }
  }

  function Positions(before: seq<nat>, at: seq<nat>): (r: seq<nat>)
    requires forall k :: 0 <= k < |at| ==> at[k] < |before|
    ensures |r| == |at| && (forall k :: 0 <= k < |at| ==> r[k] == before[at[k]]) && forall i :: i in r ==> i in before
  {
    if at == [] then [] else Positions(before, at[..|at| - 1]) + [before[at[|at| - 1]]]
  }

  ghost predicate OlderThan(i: nat, at: seq<nat>) {
    forall j :: j in at ==> i < j
  }

  lemma PickLatest(xs: seq<Version>, ys: seq<Version>, all: seq<nat>, drop: nat)
    requires PickedFrom(xs, ys, all) && drop <= |xs|
    ensures PickedFrom(xs[drop..], ys, all[drop..])
    ensures forall i :: i in all && i !in all[drop..] ==> OlderThan(i, all[drop..])
  {
    assert all == all[..drop] + all[drop..];
  }

  /** One write: the versions that stay keep their order before the new one, and one that leaves although the
      context does not cover it is older than every one that stays. */
  lemma OneWritePicks(versions: seq<Version>, ctx: Clock, author: Pid, value: seq<bv8>) returns (at: seq<nat>)
    ensures var after := Written(versions, ctx, author, value);
            after != [] && PickedFrom(after[..|after| - 1], versions, at)
    ensures forall i :: 0 <= i < |versions| && i !in at && !Leq(versions[i].clock, ctx) ==> OlderThan(i, at)
  {
    var all := SurvivorsPicked(ctx, versions);
    var survivors, after := Survivors(ctx, versions), Written(versions, ctx, author, value);
    assert |all| == |survivors|;
    hide Leq, PickedFrom, OlderThan;
    var drop := if |survivors| < MAX_SIBLINGS_PER_KEY then 0 else |survivors| + 1 - MAX_SIBLINGS_PER_KEY;
    at := all[drop..];
    assert after[..|after| - 1] == survivors[drop..];
    PickLatest(survivors, versions, all, drop);
  }

  lemma ComposePicks(xs: seq<Version>, ys: seq<Version>, zs: seq<Version>, at: seq<nat>, before: seq<nat>)
    requires PickedFrom(xs, ys, at) && PickedFrom(ys, zs, before)
    ensures PickedFrom(xs, zs, Positions(before, at))
  {}

  lemma OlderAlso(before: seq<nat>, at: seq<nat>, k: nat, last: nat)
    requires k < |before| && k !in at && forall j :: 0 <= j < |at| ==> k < at[j] < |before|
    requires (forall i, j :: 0 <= i < j < |before| ==> before[i] < before[j])
    requires forall i :: 0 <= i < |before| ==> before[i] < last
    ensures OlderThan(before[k], Positions(before, at) + [last])
  {}

  /** One write, by the positions among all versions issued. */
  lemma OneMorePick(versions: seq<Version>, issued: seq<Version>, before: seq<nat>, op: WriteOp)
    returns (after: seq<nat>)
    requires PickedFrom(versions, issued, before)
    ensures PickedFrom(Written(versions, op.ctx, op.author, op.value),
                       issued + [NewVersion(op.ctx, versions, op.author, op.value)], after)
    ensures after != [] && after[|after| - 1] == |issued| && forall i :: i in after && i != |issued| ==> i in before
    ensures forall i :: i in before && i !in after ==> i < |issued|
    ensures forall i :: i in before && i !in after && !Leq(issued[i].clock, op.ctx) ==> OlderThan(i, after)
  {
    hide PickedFrom, OlderThan, Written, NewVersion, Leq;
    var at := OneWritePicks(versions, op.ctx, op.author, op.value);
    var stored := Written(versions, op.ctx, op.author, op.value);
    WhatLeaves(versions, op.ctx, op.author, op.value);
    PickBounds(versions, issued, before);
    PickBounds(stored[..|stored| - 1], versions, at);
    after := Positions(before, at) + [|issued|];
    ComposePicks(stored[..|stored| - 1], versions, issued, at, before);
    PickOneMore(stored[..|stored| - 1], issued, Positions(before, at), stored[|stored| - 1]);
    assert stored[..|stored| - 1] + [stored[|stored| - 1]] == stored;
    forall i | i in before && i !in after && !Leq(issued[i].clock, op.ctx) ensures OlderThan(i, after) {
      StaysOlder(versions, issued, before, at, i, op.ctx);
    }
  }

  /** Over any writes the versions stored stand in the order they were issued. With the positions of those stored
      before the last write come those after it: a version that leaves although the context does not cover it was
      issued before every version that stays. */
  lemma OldestLeaveFirst(ops: seq<WriteOp>, before: seq<nat>) returns (after: seq<nat>)
    requires ops != [] && PickedFrom(AfterWrites(ops[..|ops| - 1]), Issued(ops[..|ops| - 1]), before)
    ensures PickedFrom(AfterWrites(ops), Issued(ops), after) && |Issued(ops)| == |ops|
    ensures after != [] && after[|after| - 1] == |ops| - 1
    ensures forall i :: i in after && i != |ops| - 1 ==> i in before
    ensures forall i :: i in before && i !in after ==> i < |ops|
    ensures forall i :: i in before && i !in after && !Leq(Issued(ops)[i].clock, ops[|ops| - 1].ctx) ==>
              OlderThan(i, after)
  {
    var init, op := ops[..|ops| - 1], ops[|ops| - 1];
    IssuedLength(init);
    hide PickedFrom, OlderThan, Written, NewVersion;
    after := OneMorePick(AfterWrites(init), Issued(init), before, op);
  }

  lemma StaysOlder(versions: seq<Version>, issued: seq<Version>, before: seq<nat>, at: seq<nat>, i: nat, ctx: Clock)
    requires PickedFrom(versions, issued, before) && i in before && forall j :: 0 <= j < |at| ==> at[j] < |before|
    requires i !in Positions(before, at) && !Leq(issued[i].clock, ctx)
    requires forall i :: 0 <= i < |versions| && i !in at && !Leq(versions[i].clock, ctx) ==> OlderThan(i, at)
    ensures OlderThan(i, Positions(before, at) + [|issued|])
  {
    var k: nat :| k < |before| && before[k] == i;
    LeftUncovered(versions, issued, before, at, k, ctx);
    OlderAlso(before, at, k, |issued|);
  }

  lemma LeftUncovered(versions: seq<Version>, issued: seq<Version>, before: seq<nat>, at: seq<nat>, k: nat, ctx: Clock)
    requires PickedFrom(versions, issued, before) && k < |before| && forall j :: 0 <= j < |at| ==> at[j] < |before|
    requires before[k] !in Positions(before, at) && !Leq(issued[before[k]].clock, ctx)
    requires forall i :: 0 <= i < |versions| && i !in at && !Leq(versions[i].clock, ctx) ==> OlderThan(i, at)
    ensures k !in at && forall j :: 0 <= j < |at| ==> k < at[j]
  {
    assert versions[k] == issued[before[k]];
    forall j | 0 <= j < |at| ensures k < at[j] { assert at[j] in at; }
  }

  lemma {:induction false} IssuedLength(ops: seq<WriteOp>)
    ensures |Issued(ops)| == |ops|
  {
    if ops != [] { IssuedLength(ops[..|ops| - 1]); }
  }

  lemma {:induction false} StoredInOrder(ops: seq<WriteOp>) returns (at: seq<nat>)
    ensures PickedFrom(AfterWrites(ops), Issued(ops), at)
    decreases |ops|
  {
    at := [];
    if ops != [] {
      var before := StoredInOrder(ops[..|ops| - 1]);
      at := OldestLeaveFirst(ops, before);
    }
  }

  /** No write had to trim. */
  ghost predicate BelowCap(ops: seq<WriteOp>) {
    ops == [] ||
    (BelowCap(ops[..|ops| - 1]) &&
     |Survivors(ops[|ops| - 1].ctx, AfterWrites(ops[..|ops| - 1]))| < MAX_SIBLINGS_PER_KEY)
  }

  ghost predicate CoveredBySome(c: Clock, versions: seq<Version>) {
    exists v :: v in versions && Leq(c, v.clock)
  }

  /** Below the cap no write is ever lost: some stored version covers it. */
  lemma {:induction false} NoWriteIsLost(ops: seq<WriteOp>, v: Version)
    requires BelowCap(ops) && v in Issued(ops)
    ensures CoveredBySome(v.clock, AfterWrites(ops))
  {
    var init, op := ops[..|ops| - 1], ops[|ops| - 1];
    var before := AfterWrites(init);
    if v in Issued(init) {
      NoWriteIsLost(init, v);
      StillCovered(v.clock, before, op, AfterWrites(ops));
    } else {
      NewestIsStored(before, op);
    }
  }

  lemma NewestIsStored(before: seq<Version>, op: WriteOp)
    ensures CoveredBySome(NewVersion(op.ctx, before, op.author, op.value).clock,
                          Written(before, op.ctx, op.author, op.value))
  {
    var after := Written(before, op.ctx, op.author, op.value);
    WhatLeaves(before, op.ctx, op.author, op.value);
    assert after[|after| - 1] in after;
    assert Leq(after[|after| - 1].clock, after[|after| - 1].clock);
  }

  lemma StillCovered(c: Clock, before: seq<Version>, op: WriteOp, after: seq<Version>)
    requires CoveredBySome(c, before) && after == Written(before, op.ctx, op.author, op.value)
    requires |Survivors(op.ctx, before)| < MAX_SIBLINGS_PER_KEY
    ensures CoveredBySome(c, after)
  {
    var v :| v in before && Leq(c, v.clock);
    KeptOrCovered(before, op, v, after);
    var w :| w in after && Leq(v.clock, w.clock);
    LeqTransitive(c, v.clock, w.clock);
  }

  lemma KeptOrCovered(before: seq<Version>, op: WriteOp, v: Version, after: seq<Version>)
    requires v in before && after == Written(before, op.ctx, op.author, op.value)
    requires |Survivors(op.ctx, before)| < MAX_SIBLINGS_PER_KEY
    ensures CoveredBySome(v.clock, after)
  {
    WhatLeaves(before, op.ctx, op.author, op.value);
    if Leq(v.clock, op.ctx) {
      NewVersionCovers(before, op.ctx, op.author, op.value, v);
      assert after[|after| - 1] in after;
    } else {
      assert v in after && Leq(v.clock, v.clock);
    }
  }

  lemma LeqTransitive(a: Clock, b: Clock, c: Clock)
    requires Leq(a, b) && Leq(b, c)
    ensures Leq(a, c)
  {}

  // ---- Siblings need not be concurrent ----

  /** The writer has seen nothing newer of its own, and no sibling is concurrent with its context. */
  ghost predicate PlainlyStale(versions: seq<Version>, ctx: Clock, author: Pid) {
    forall v :: v in versions && !Leq(v.clock, ctx) ==> Leq(ctx, v.clock) && Get(v.clock, author) <= Get(ctx, author)
  }

  /** The design has all stored siblings pairwise concurrent. A write keeps its new version concurrent with
      every survivor exactly when each survivor is strictly newer than the context and holds nothing of the
      author's beyond it: the merged clock of a concurrent sibling covers that sibling. */
  lemma NewSiblingConcurrent(versions: seq<Version>, ctx: Clock, author: Pid, value: seq<bv8>)
    ensures (forall v :: v in Survivors(ctx, versions) ==>
               OrderOf(NewVersion(ctx, versions, author, value).clock, v.clock) == Concurrent)
            <==> PlainlyStale(versions, ctx, author)
  {
    var clock := NewVersion(ctx, versions, author, value).clock;
    SurvivorsHold(ctx, versions);
    if PlainlyStale(versions, ctx, author) {
      NothingMerged(ctx, versions);
      forall v | v in Survivors(ctx, versions) ensures OrderOf(clock, v.clock) == Concurrent {
        StaleIsConcurrent(ctx, v.clock, author);
      }
    } else {
      var v :| v in versions && !Leq(v.clock, ctx) && !(Leq(ctx, v.clock) && Get(v.clock, author) <= Get(ctx, author));
      if Leq(ctx, v.clock) {
        if forall u :: u in Survivors(ctx, versions) ==> OrderOf(clock, u.clock) == Concurrent {
          SurvivorsNewer(versions, ctx, author, value);
          NothingMerged(ctx, versions);
          AuthorIsAhead(ctx, v.clock, author);
        }
      } else {
        NewVersionCovers(versions, ctx, author, value, v);
      }
    }
  }

  /** When the new version is concurrent with all survivors, none was concurrent with the context. */
  lemma SurvivorsNewer(versions: seq<Version>, ctx: Clock, author: Pid, value: seq<bv8>)
    requires forall u :: u in Survivors(ctx, versions) ==>
               OrderOf(NewVersion(ctx, versions, author, value).clock, u.clock) == Concurrent
    ensures forall u :: u in versions ==> OrderOf(ctx, u.clock) != Concurrent
  {
    SurvivorsHold(ctx, versions);
    forall u | u in versions ensures OrderOf(ctx, u.clock) != Concurrent {
      NewVersionCovers(versions, ctx, author, value, u);
    }
  }

  lemma {:induction false} NothingMerged(ctx: Clock, versions: seq<Version>)
    requires forall v :: v in versions ==> OrderOf(ctx, v.clock) != Concurrent
    ensures MergedClock(ctx, versions) == ctx
  {
    if versions != [] {
      assert versions[|versions| - 1] in versions;
      NothingMerged(ctx, versions[..|versions| - 1]);
    }
  }

  lemma StaleIsConcurrent(ctx: Clock, c: Clock, author: Pid)
    requires Leq(ctx, c) && !Leq(c, ctx) && Get(c, author) <= Get(ctx, author)
    ensures OrderOf(Ticked(ctx, author), c) == Concurrent
  {}

  lemma AuthorIsAhead(ctx: Clock, c: Clock, author: Pid)
    requires Leq(ctx, c) && Get(c, author) > Get(ctx, author)
    ensures Leq(Ticked(ctx, author), c)
  {}

  /** A context that lacks the author's write and has one of its own, next to that write. */
  lemma UnseenIsConcurrent(a: Pid, b: Pid)
    requires a != b
    ensures OrderOf(map[b := 1], Ticked(map[], a)) == Concurrent
  {
    var ctx, c := map[b := 1], Ticked(map[], a);
    assert Get(c, a) == 1 && Get(ctx, a) == 0 && Get(ctx, b) == 1 && Get(c, b) == 0;
  }

  lemma OneSurvivor(ctx: Clock, v: Version)
    requires !Leq(v.clock, ctx)
    ensures Survivors(ctx, [v]) == [v]
  {
    assert [v][..0] == [];
  }

  /** Two writers who have not seen each other: the second version covers the first, and both are stored. */
  lemma ConcurrentSiblingIsCovered(a: Pid, b: Pid)
    requires a != b
    ensures var ops := [WriteOp(map[], a, []), WriteOp(map[b := 1], b, [])];
            var versions := AfterWrites(ops);
            |versions| == 2 && OrderOf(versions[0].clock, versions[1].clock) == HappenedBefore
  {
    var first, second := WriteOp(map[], a, []), WriteOp(map[b := 1], b, []);
    var v := Version([], Ticked(map[], a), a);
    assert [first][..0] == [];
    FirstWrite(map[], a, []);
    assert AfterWrites([first]) == [v];
    UnseenIsConcurrent(a, b);
    OneSurvivor(second.ctx, v);
    var w := NewVersion(second.ctx, [v], b, []);
    NewVersionCovers([v], second.ctx, b, [], v);
    assert Get(w.clock, b) > 1 && Get(v.clock, b) == 0;
    assert Written([v], second.ctx, b, []) == [v, w];
    assert [first, second][..1] == [first];
  }
}
