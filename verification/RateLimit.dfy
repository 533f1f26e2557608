/** The token bucket with lazy refill and eviction of idle buckets, over real time and real tokens. */
module RateLimits {

  const IDLE_LIMIT := 3600.0

  datatype Client = Client(ip: string)

  datatype Bucket = Bucket(tokens: real, last: real)

  datatype Config = Config(rate: real, burst: real)

  datatype Step = Request(client: Client, now: real) | Collect(now: real)

  predicate ValidConfig(c: Config) {
    c.rate >= 0.0 && c.burst >= 0.0
  }

  function Min(x: real, y: real): real {
    if x < y then x else y
  }

  /** The tokens that flow in over a time. */
  function Flow(rate: real, time: real): real {
    time * rate
  }

  /** The tokens of a bucket once it is refilled at `now`. */
  function Refilled(c: Config, b: Bucket, now: real): real {
    Min(b.tokens + Flow(c.rate, now - b.last), c.burst)
  }

  /** What a client can spend at `now`; without a bucket it has the whole burst. */
  function Level(c: Config, buckets: map<Client, Bucket>, client: Client, now: real): real {
    if client in buckets then Refilled(c, buckets[client], now) else c.burst
  }

  function Charged(c: Config, buckets: map<Client, Bucket>, client: Client, now: real): map<Client, Bucket> {
    var level := Level(c, buckets, client, now);
    buckets[client := Bucket(if level < 1.0 then level else level - 1.0, now)]
  }

  predicate Idle(b: Bucket, now: real) {
    b.last < now - IDLE_LIMIT
  }

  function Collected(buckets: map<Client, Bucket>, now: real): map<Client, Bucket> {
    map client | client in buckets && !Idle(buckets[client], now) :: buckets[client]
  }

  class RateLimiter {
    const config: Config
    var buckets: map<Client, Bucket>

    constructor (config: Config)
      ensures this.config == config && buckets == map[]
    {
      this.config := config;
      buckets := map[];
    }

    method Allow(client: Client, now: real) returns (allowed: bool)
      modifies this
      ensures allowed == (Level(config, old(buckets), client, now) >= 1.0)
      ensures buckets == Charged(config, old(buckets), client, now)
      ensures forall k :: k != client ==> (k in buckets <==> k in old(buckets))
                                          && (k in buckets ==> buckets[k] == old(buckets)[k])
      ensures client in buckets && buckets[client].last == now
      ensures var had := if client in old(buckets)
                         then old(buckets)[client].tokens + (now - old(buckets)[client].last) * config.rate
                         else config.burst;
              var level := if had > config.burst then config.burst else had;
              allowed == (level >= 1.0) && buckets[client].tokens == level - if allowed then 1.0 else 0.0
    {
      if client !in buckets {
        buckets := buckets[client := Bucket(config.burst, now)];
      }
      var b := buckets[client];
      var elapsed := now - b.last;
      NoTime(config.rate, elapsed);
      var tokens := b.tokens + Flow(config.rate, elapsed);
      if tokens > config.burst {
        tokens := config.burst;
      }
      allowed := tokens >= 1.0;
      buckets := buckets[client := Bucket(if allowed then tokens - 1.0 else tokens, now)];
    }

    method CollectIdle(now: real)
      modifies this
      ensures buckets == Collected(old(buckets), now)
      ensures forall k :: k in buckets <==> k in old(buckets) && old(buckets)[k].last >= now - 3600.0
      ensures forall k :: k in buckets ==> buckets[k] == old(buckets)[k]
    {
      var todo := buckets.Keys;
      while todo != {}
        invariant todo <= buckets.Keys
        invariant forall k :: k in buckets <==> k in old(buckets) && (k in todo || !Idle(old(buckets)[k], now))
        invariant forall k :: k in buckets ==> buckets[k] == old(buckets)[k]
      {
        var k :| k in todo;
        todo := todo - {k};
        if Idle(buckets[k], now) {
          buckets := buckets - {k};
        }
      }
    }
  }

  // ---- Runs ----

  function After(c: Config, buckets: map<Client, Bucket>, s: Step): map<Client, Bucket> {
    match s
    case Request(client, now) => Charged(c, buckets, client, now)
    case Collect(now) => Collected(buckets, now)
  }

  predicate Granted(c: Config, buckets: map<Client, Bucket>, s: Step) {
    s.Request? && Level(c, buckets, s.client, s.now) >= 1.0
  }

  /** How many requests of the client are granted. */
  function Count(c: Config, buckets: map<Client, Bucket>, steps: seq<Step>, client: Client): nat
    decreases |steps|
  {
    if steps == [] then 0
    else
      Count(c, After(c, buckets, steps[0]), steps[1..], client)
      + Granting(c, buckets, steps[0], client)
  }

  /** Time does not run backwards. */
  predicate Ordered(start: real, steps: seq<Step>)
    decreases |steps|
  {
    steps == [] || (start <= steps[0].now && Ordered(steps[0].now, steps[1..]))
  }

  function End(start: real, steps: seq<Step>): real {
    if steps == [] then start else steps[|steps| - 1].now
  }

  ghost predicate WellKept(c: Config, buckets: map<Client, Bucket>, now: real) {
    forall k :: k in buckets ==> 0.0 <= buckets[k].tokens <= c.burst && buckets[k].last <= now
  }

  lemma NoTime(rate: real, x: real)
    ensures x == 0.0 ==> Flow(rate, x) == 0.0
  {}

  lemma Gain(rate: real, x: real, y: real)
    requires rate >= 0.0 && x <= y
    ensures Flow(rate, x) <= Flow(rate, y) && Flow(rate, y) == Flow(rate, x) + Flow(rate, y - x)
  {}

  lemma Product(x: real, y: real)
    requires x >= 0.0 && y >= 0.0
    ensures Flow(x, y) >= 0.0
  {}

  lemma LevelBounds(c: Config, buckets: map<Client, Bucket>, client: Client, now: real, later: real)
    requires ValidConfig(c) && WellKept(c, buckets, now) && now <= later
    ensures 0.0 <= Level(c, buckets, client, now) <= Level(c, buckets, client, later) <= c.burst
    ensures Level(c, buckets, client, later) <= Level(c, buckets, client, now) + Flow(c.rate, later - now)
  {
    Product(c.rate, later - now);
    if client in buckets {
      var b := buckets[client];
      var x, y := now - b.last, later - b.last;
      Product(c.rate, x);
      Gain(c.rate, x, y);
      assert y - x == later - now;
    }
  }

  lemma StaysWellKept(c: Config, buckets: map<Client, Bucket>, now: real, s: Step)
    requires ValidConfig(c) && WellKept(c, buckets, now) && now <= s.now
    ensures WellKept(c, After(c, buckets, s), s.now)
  {
    if s.Request? {
      LevelBounds(c, buckets, s.client, now, s.now);
    }
  }

  /** A bucket idle for long enough is full again: removing it changes nothing. */
  lemma IdleIsFull(c: Config, b: Bucket, now: real, later: real)
    requires ValidConfig(c) && c.burst <= Flow(c.rate, IDLE_LIMIT) && b.tokens >= 0.0
    requires Idle(b, now) && now <= later
    ensures Refilled(c, b, later) == c.burst
  {
    var idle := later - b.last;
    Gain(c.rate, IDLE_LIMIT, idle);
  }

  ghost predicate SameLevels(c: Config, a: map<Client, Bucket>, b: map<Client, Bucket>, now: real) {
    forall k, t :: t >= now ==> Level(c, a, k, t) == Level(c, b, k, t)
  }

  /** Eviction is invisible when an hour refills a bucket. */
  lemma CollectIsInvisible(c: Config, buckets: map<Client, Bucket>, now: real)
    requires ValidConfig(c) && c.burst <= Flow(c.rate, IDLE_LIMIT) && WellKept(c, buckets, now)
    ensures SameLevels(c, buckets, Collected(buckets, now), now)
  {
    forall k, t | t >= now ensures Level(c, buckets, k, t) == Level(c, Collected(buckets, now), k, t) {
      if k in buckets && Idle(buckets[k], now) { IdleIsFull(c, buckets[k], now, t); }
    }
  }

  /** The answers to the requests, in order. */
  function Answers(c: Config, buckets: map<Client, Bucket>, steps: seq<Step>): seq<bool>
    decreases |steps|
  {
    if steps == [] then []
    else
      (if steps[0].Request? then [Granted(c, buckets, steps[0])] else [])
      + Answers(c, After(c, buckets, steps[0]), steps[1..])
  }

  function Requests(steps: seq<Step>): seq<Step> {
    if steps == [] then [] else (if steps[0].Request? then [steps[0]] else []) + Requests(steps[1..])
  }

  lemma SameAfterRequest(c: Config, a: map<Client, Bucket>, b: map<Client, Bucket>, now: real, s: Step)
    requires SameLevels(c, a, b, now) && s.Request? && now <= s.now
    ensures Granted(c, a, s) == Granted(c, b, s) && SameLevels(c, After(c, a, s), After(c, b, s), s.now)
  {
    assert Level(c, a, s.client, s.now) == Level(c, b, s.client, s.now);
    forall k, t | t >= s.now ensures Level(c, After(c, a, s), k, t) == Level(c, After(c, b, s), k, t) {
      if k != s.client { assert Level(c, a, k, t) == Level(c, b, k, t); }
    }
  }

  /** Clients get the same answers with eviction running at any times as without it. */
  lemma {:induction false} EvictionIsInvisible(c: Config, a: map<Client, Bucket>, b: map<Client, Bucket>, now: real,
                                               steps: seq<Step>)
    requires ValidConfig(c) && c.burst <= Flow(c.rate, IDLE_LIMIT)
    requires WellKept(c, a, now) && SameLevels(c, a, b, now) && Ordered(now, steps)
    ensures Answers(c, a, steps) == Answers(c, b, Requests(steps))
    decreases |steps|
  {
    if steps != [] {
      var s, rest := steps[0], steps[1..];
      StaysWellKept(c, a, now, s);
      if s.Request? {
        SameAfterRequest(c, a, b, now, s);
        EvictionIsInvisible(c, After(c, a, s), After(c, b, s), s.now, rest);
        assert Requests(steps) == [s] + Requests(rest);
        assert ([s] + Requests(rest))[1..] == Requests(rest);
      } else {
        CollectedSame(c, a, b, now, s.now);
        EvictionIsInvisible(c, After(c, a, s), b, s.now, rest);
        assert Requests(steps) == Requests(rest);
      }
    }
  }

  lemma CollectedSame(c: Config, a: map<Client, Bucket>, b: map<Client, Bucket>, now: real, later: real)
    requires ValidConfig(c) && c.burst <= Flow(c.rate, IDLE_LIMIT) && WellKept(c, a, now) && now <= later
    requires SameLevels(c, a, b, now)
    ensures SameLevels(c, Collected(a, later), b, later)
  {
    assert WellKept(c, a, later);
    CollectIsInvisible(c, a, later);
    forall k, t | t >= later ensures Level(c, Collected(a, later), k, t) == Level(c, b, k, t) {
      assert Level(c, a, k, t) == Level(c, b, k, t);
      assert Level(c, a, k, t) == Level(c, Collected(a, later), k, t);
    }
  }

  /** A burst below one token grants nothing, so there is nothing for eviction to change. */
  lemma {:induction false} NothingIsGranted(c: Config, a: map<Client, Bucket>, b: map<Client, Bucket>, steps: seq<Step>)
    requires c.burst < 1.0
    ensures Answers(c, a, steps) == Answers(c, b, Requests(steps))
    decreases |steps|
  {
    if steps != [] {
      var s, rest := steps[0], steps[1..];
      if s.Request? {
        NothingIsGranted(c, After(c, a, s), After(c, b, s), rest);
        AnswersOfRequest(c, b, s, Requests(rest));
      } else {
        NothingIsGranted(c, After(c, a, s), b, rest);
        assert Requests(steps) == Requests(rest);
      }
    }
  }

  lemma AnswersOfRequest(c: Config, a: map<Client, Bucket>, s: Step, rest: seq<Step>)
    requires s.Request?
    ensures Answers(c, a, [s] + rest) == [Granted(c, a, s)] + Answers(c, After(c, a, s), rest)
    ensures Requests([s] + rest) == [s] + Requests(rest)
  {
    assert ([s] + rest)[1..] == rest;
  }

  lemma AnswersOfCollect(c: Config, a: map<Client, Bucket>, now: real, rest: seq<Step>)
    ensures Answers(c, a, [Collect(now)] + rest) == Answers(c, Collected(a, now), rest)
    ensures Requests([Collect(now)] + rest) == Requests(rest)
  {
    assert ([Collect(now)] + rest)[1..] == rest;
  }

  lemma Differ(u: bool, v: bool, us: seq<bool>, vs: seq<bool>)
    requires u != v || us != vs
    ensures [u] + us != [v] + vs
  {
    assert ([u] + us)[0] == u && ([v] + vs)[0] == v;
    assert ([u] + us)[1..] == us && ([v] + vs)[1..] == vs;
  }

  /** Two states that answer a request differently, or whose successors answer the rest differently. */
  lemma DifferAfter(c: Config, a: map<Client, Bucket>, b: map<Client, Bucket>, s: Step, rest: seq<Step>,
                    rest': seq<Step>)
    requires s.Request?
    requires Granted(c, a, s) != Granted(c, b, s)
             || Answers(c, After(c, a, s), rest) != Answers(c, After(c, b, s), rest')
    ensures Answers(c, a, [s] + rest) != Answers(c, b, [s] + rest')
  {
    AnswersOfRequest(c, a, s, rest);
    AnswersOfRequest(c, b, s, rest');
    Differ(Granted(c, a, s), Granted(c, b, s), Answers(c, After(c, a, s), rest), Answers(c, After(c, b, s), rest'));
  }

  // ---- A run in which eviction shows ----

  /** The client's bucket was last charged at `now` and left with `x`. */
  predicate Left(c: Config, buckets: map<Client, Bucket>, client: Client, x: real, now: real) {
    client in buckets && buckets[client] == Bucket(x, now) && 0.0 <= x <= c.burst
  }

  lemma ChargeAt(c: Config, buckets: map<Client, Bucket>, client: Client, x: real, now: real, later: real, level: real)
    requires ValidConfig(c) && Left(c, buckets, client, x, now) && now <= later
    requires level == Min(x + Flow(c.rate, later - now), c.burst)
    ensures var s := Request(client, later);
            && (Granted(c, buckets, s) <==> level >= 1.0)
            && Left(c, After(c, buckets, s), client, if level < 1.0 then level else level - 1.0, later)
  {
    Product(c.rate, later - now);
  }

  /** The time in which a missing amount flows in. */
  lemma Wait(rate: real, amount: real)
    requires rate > 0.0 && amount >= 0.0
    ensures amount / rate >= 0.0 && Flow(rate, amount / rate) == amount
  {
    Quotient(amount, rate);
  }

  lemma Quotient(x: real, y: real)
    requires y > 0.0 && x >= 0.0
    ensures x / y >= 0.0 && (x / y) * y == x
  {}

  /** A time beyond the idle limit in which less than the burst flows in. */
  lemma LongWait(rate: real, burst: real) returns (time: real)
    requires rate > 0.0 && burst > Flow(rate, IDLE_LIMIT)
    ensures time > IDLE_LIMIT && 0.0 <= Flow(rate, time) < burst
  {
    var half := (burst - Flow(rate, IDLE_LIMIT)) / 2.0;
    var more := half / rate;
    Wait(rate, half);
    NoTime(rate, more);
    time := IDLE_LIMIT + more;
    assert time - IDLE_LIMIT == more;
    Gain(rate, IDLE_LIMIT, time);
    Product(rate, IDLE_LIMIT);
  }

  /** Two buckets with different contents, however close, are told apart by requests. */
  lemma {:induction false} Distinguish(c: Config, a: map<Client, Bucket>, b: map<Client, Bucket>, client: Client,
                                       x: real, y: real, now: real) returns (steps: seq<Step>)
    requires ValidConfig(c) && c.rate > 0.0 && c.burst >= 1.0 && x < y
    requires Left(c, a, client, x, now) && Left(c, b, client, y, now)
    ensures Ordered(now, steps) && Requests(steps) == steps && Answers(c, a, steps) != Answers(c, b, steps)
    decreases y.Floor
  {
    NoTime(c.rate, now - now);
    if y >= 1.0 {
      var s := Request(client, now);
      ChargeAt(c, a, client, x, now, now, x);
      ChargeAt(c, b, client, y, now, now, y);
      var rest := [];
      if x >= 1.0 {
        rest := Distinguish(c, After(c, a, s), After(c, b, s), client, x - 1.0, y - 1.0, now);
      }
      steps := [s] + rest;
      assert steps[1..] == rest;
      DifferAfter(c, a, b, s, rest, rest);
    } else {
      steps := ToldApartLater(c, a, b, client, x, y, now);
    }
  }

  lemma ToldApartLater(c: Config, a: map<Client, Bucket>, b: map<Client, Bucket>, client: Client, x: real, y: real,
                       now: real) returns (steps: seq<Step>)
    requires ValidConfig(c) && c.rate > 0.0 && c.burst >= 1.0 && x < y < 1.0
    requires Left(c, a, client, x, now) && Left(c, b, client, y, now)
    ensures Ordered(now, steps) && Requests(steps) == steps && Answers(c, a, steps) != Answers(c, b, steps)
  {
    Wait(c.rate, 1.0 - y);
    var time := (1.0 - y) / c.rate;
    var s := Request(client, now + time);
    assert now + time - now == time;
    ChargeAt(c, a, client, x, now, now + time, x + (1.0 - y));
    ChargeAt(c, b, client, y, now, now + time, 1.0);
    steps := [s];
    assert [s] + [] == [s];
    DifferAfter(c, a, b, s, [], []);
  }

  ghost predicate EvictionShows(c: Config, buckets: map<Client, Bucket>, start: real, steps: seq<Step>) {
    Ordered(start, steps) && Answers(c, buckets, steps) != Answers(c, buckets, Requests(steps))
  }

  /** An empty bucket, idle for just over an hour, then evicted: not full, but replaced by a full one. */
  lemma ShowsAfterIdling(c: Config, buckets: map<Client, Bucket>, client: Client, now: real) returns (steps: seq<Step>)
    requires ValidConfig(c) && c.rate > 0.0 && c.burst >= 1.0 && c.burst > Flow(c.rate, IDLE_LIMIT)
    requires Left(c, buckets, client, 0.0, now)
    ensures EvictionShows(c, buckets, now, steps)
  {
    var time := LongWait(c.rate, c.burst);
    var later, level := now + time, Flow(c.rate, time);
    assert later - now == time;
    var s, evicted := Request(client, later), Collected(buckets, later);
    ChargeAt(c, buckets, client, 0.0, now, later, level);
    assert client !in evicted && Left(c, After(c, evicted, s), client, c.burst - 1.0, later);
    var rest := [];
    if level >= 1.0 {
      rest := Distinguish(c, After(c, buckets, s), After(c, evicted, s), client, level - 1.0, c.burst - 1.0, later);
    }
    steps := [Collect(later)] + ([s] + rest);
    assert steps[1..] == [s] + rest && ([s] + rest)[1..] == rest;
    AnswersOfCollect(c, buckets, later, [s] + rest);
    AnswersOfRequest(c, buckets, s, rest);
    DifferAfter(c, buckets, evicted, s, rest, rest);
  }

  /** Without refill a spent bucket stays spent until it is evicted. */
  lemma ShowsWithoutRefill(c: Config, buckets: map<Client, Bucket>, client: Client, x: real, now: real)
    returns (steps: seq<Step>)
    requires c.rate == 0.0 && c.burst >= 1.0 && x < 1.0 && Left(c, buckets, client, x, now)
    ensures EvictionShows(c, buckets, now, steps)
  {
    var later := now + IDLE_LIMIT + 1.0;
    var s, evicted := Request(client, later), Collected(buckets, later);
    ChargeAt(c, buckets, client, x, now, later, x);
    assert client !in evicted;
    steps := [Collect(later)] + ([s] + []);
    assert steps[1..] == [s] && [s] + [] == [s];
    AnswersOfCollect(c, buckets, later, [s] + []);
    AnswersOfRequest(c, buckets, s, []);
    DifferAfter(c, buckets, evicted, s, [], []);
  }

  /** From any content of the bucket: spend it, let it run empty, and idle. */
  lemma {:induction false} ShowsFrom(c: Config, buckets: map<Client, Bucket>, client: Client, x: real, now: real)
    returns (steps: seq<Step>)
    requires ValidConfig(c) && c.burst >= 1.0 && c.burst > Flow(c.rate, IDLE_LIMIT)
    requires Left(c, buckets, client, x, now)
    ensures EvictionShows(c, buckets, now, steps)
    decreases x.Floor
  {
    if x < 1.0 && c.rate == 0.0 {
      steps := ShowsWithoutRefill(c, buckets, client, x, now);
    } else {
      var time := if x >= 1.0 then 0.0 else (1.0 - x) / c.rate;
      if x < 1.0 { Wait(c.rate, 1.0 - x); }
      NoTime(c.rate, time);
      var s, level := Request(client, now + time), if x >= 1.0 then x else 1.0;
      assert now + time - now == time;
      ChargeAt(c, buckets, client, x, now, now + time, level);
      var rest;
      if x >= 1.0 {
        rest := ShowsFrom(c, After(c, buckets, s), client, x - 1.0, now);
      } else {
        rest := ShowsAfterIdling(c, After(c, buckets, s), client, now + time);
      }
      steps := [s] + rest;
      assert steps[1..] == rest;
      AnswersOfRequest(c, buckets, s, rest);
      DifferAfter(c, buckets, buckets, s, rest, Requests(rest));
    }
  }

  /** Eviction never shows in the answers exactly when an hour refills a bucket, or the burst is below one
      token so that nothing is ever granted. */
  lemma EvictionShowsExactly(c: Config, start: real)
    requires ValidConfig(c)
    ensures (forall steps :: !EvictionShows(c, map[], start, steps))
            <==> c.burst <= Flow(c.rate, IDLE_LIMIT) || c.burst < 1.0
  {
    if c.burst <= Flow(c.rate, IDLE_LIMIT) || c.burst < 1.0 {
      forall steps ensures !EvictionShows(c, map[], start, steps) {
        if c.burst < 1.0 {
          NothingIsGranted(c, map[], map[], steps);
        } else if Ordered(start, steps) {
          EvictionIsInvisible(c, map[], map[], start, steps);
        }
      }
    } else {
      var client := Client("a");
      var s := Request(client, start);
      var after := After(c, map[], s);
      assert Left(c, after, client, c.burst - 1.0, start);
      var rest := ShowsFrom(c, after, client, c.burst - 1.0, start);
      AnswersOfRequest(c, map[], s, rest);
      DifferAfter(c, map[], map[], s, rest, Requests(rest));
      assert ([s] + rest)[1..] == rest;
      assert EvictionShows(c, map[], start, [s] + rest);
    }
  }

  /** Either an hour refills a bucket, or nothing is evicted. */
  predicate EvictionSafe(c: Config, steps: seq<Step>) {
    c.burst <= Flow(c.rate, IDLE_LIMIT) || forall s :: s in steps ==> s.Request?
  }

  function Granting(c: Config, buckets: map<Client, Bucket>, s: Step, client: Client): nat {
    if Granted(c, buckets, s) && s.client == client then 1 else 0
  }

  /** What is granted never exceeds what there was and what has flowed in. */
  lemma {:induction false} Budget(c: Config, buckets: map<Client, Bucket>, start: real, steps: seq<Step>,
                                  client: Client)
    requires ValidConfig(c) && EvictionSafe(c, steps)
    requires WellKept(c, buckets, start) && Ordered(start, steps)
    ensures Count(c, buckets, steps, client) as real
            <= Level(c, buckets, client, start) + Flow(c.rate, End(start, steps) - start)
    decreases |steps|
  {
    if steps == [] {
      LevelBounds(c, buckets, client, start, start);
    } else {
      Budget(c, After(c, buckets, steps[0]), steps[0].now, steps[1..], client) by {
        StaysWellKept(c, buckets, start, steps[0]);
      }
      BudgetMore(c, buckets, start, steps, client);
    }
  }

  lemma BudgetMore(c: Config, buckets: map<Client, Bucket>, start: real, steps: seq<Step>, client: Client)
    requires ValidConfig(c) && EvictionSafe(c, steps)
    requires WellKept(c, buckets, start) && Ordered(start, steps) && steps != []
    requires Count(c, After(c, buckets, steps[0]), steps[1..], client) as real
             <= Level(c, After(c, buckets, steps[0]), client, steps[0].now)
                + Flow(c.rate, End(steps[0].now, steps[1..]) - steps[0].now)
    ensures Count(c, buckets, steps, client) as real
            <= Level(c, buckets, client, start) + Flow(c.rate, End(start, steps) - start)
  {
    var s, rest := steps[0], steps[1..];
    assert EvictionSafe(c, [s]) by { assert s in steps; }
    BudgetStep(c, buckets, start, s, client);
    AddUp(Count(c, After(c, buckets, s), rest, client), Granting(c, buckets, s, client),
          Level(c, After(c, buckets, s), client, s.now), Level(c, buckets, client, start), c, start, s.now,
          End(s.now, rest));
    assert End(start, steps) == End(s.now, rest);
  }

  lemma AddUp(later: nat, first: nat, after: real, before: real, c: Config, start: real, mid: real, end: real)
    requires later as real <= after + Flow(c.rate, end - mid)
    requires first as real + after <= before + Flow(c.rate, mid - start)
    ensures (later + first) as real <= before + Flow(c.rate, end - start)
  {}

  lemma BudgetStep(c: Config, buckets: map<Client, Bucket>, start: real, s: Step, client: Client)
    requires ValidConfig(c) && EvictionSafe(c, [s]) && WellKept(c, buckets, start) && start <= s.now
    ensures Granting(c, buckets, s, client) as real + Level(c, After(c, buckets, s), client, s.now)
            <= Level(c, buckets, client, start) + Flow(c.rate, s.now - start)
  {
    LevelBounds(c, buckets, client, start, s.now);
    LevelAfter(c, buckets, start, s, client);
  }

  lemma SpentLevel(c: Config, buckets: map<Client, Bucket>, client: Client, tokens: real, now: real)
    requires tokens <= c.burst
    ensures Level(c, buckets[client := Bucket(tokens, now)], client, now) == tokens
  {}

  /** A granted request costs its client one token; nothing else changes a level. */
  lemma LevelAfter(c: Config, buckets: map<Client, Bucket>, now: real, s: Step, client: Client)
    requires ValidConfig(c) && EvictionSafe(c, [s]) && WellKept(c, buckets, now) && now <= s.now
    ensures Level(c, After(c, buckets, s), client, s.now)
            == Level(c, buckets, client, s.now) - Granting(c, buckets, s, client) as real
  {
    LevelBounds(c, buckets, client, now, s.now);
    match s
    case Request(k, t) =>
      LevelBounds(c, buckets, k, now, t);
      var level := Level(c, buckets, k, t);
      SpentLevel(c, buckets, k, if level < 1.0 then level else level - 1.0, t);
    case Collect(t) =>
      assert s in [s];
      assert WellKept(c, buckets, t);
      CollectIsInvisible(c, buckets, t);
      assert Level(c, buckets, client, t) == Level(c, Collected(buckets, t), client, t);
  }

  lemma {:induction false} NothingCounts(c: Config, buckets: map<Client, Bucket>, start: real, steps: seq<Step>,
                                         client: Client)
    requires c.burst < 1.0 && Ordered(start, steps)
    ensures Count(c, buckets, steps, client) == 0 && start <= End(start, steps)
    decreases |steps|
  {
    if steps != [] {
      NothingCounts(c, After(c, buckets, steps[0]), steps[0].now, steps[1..], client);
    }
  }

  /** In any window a client is granted at most the burst plus what the rate yields over the window, if
      eviction cannot show or does not happen. */
  lemma WindowBound(c: Config, buckets: map<Client, Bucket>, start: real, steps: seq<Step>, client: Client)
    requires ValidConfig(c) && (EvictionSafe(c, steps) || c.burst < 1.0)
    requires WellKept(c, buckets, start) && Ordered(start, steps)
    ensures Count(c, buckets, steps, client) as real <= c.burst + Flow(c.rate, End(start, steps) - start)
  {
    if c.burst < 1.0 {
      NothingCounts(c, buckets, start, steps, client);
      Product(c.rate, End(start, steps) - start);
    } else {
      Budget(c, buckets, start, steps, client);
      LevelBounds(c, buckets, client, start, start);
    }
  }

  // ---- Where the bound fails ----

  lemma Cons(c: Config, buckets: map<Client, Bucket>, s: Step, rest: seq<Step>, client: Client, now: real)
    ensures Count(c, buckets, [s] + rest, client) ==
            Count(c, After(c, buckets, s), rest, client) + Granting(c, buckets, s, client)
    ensures Ordered(now, [s] + rest) <==> now <= s.now && Ordered(s.now, rest)
    ensures End(now, [s] + rest) == End(s.now, rest)
  {
    assert ([s] + rest)[1..] == rest;
  }

  /** What flows in from `now` to `end` flows in before or after `mid`. */
  lemma FlowSplits(rate: real, now: real, mid: real, end: real)
    ensures Flow(rate, end - now) == Flow(rate, mid - now) + Flow(rate, end - mid)
  {}

  /** The client spends all it has and all that flows in; `again`: then it idles, is evicted, and spends a whole
      burst more. */
  lemma {:induction false} Spend(c: Config, buckets: map<Client, Bucket>, client: Client, x: real, now: real,
                                 again: bool) returns (steps: seq<Step>)
    requires ValidConfig(c) && c.rate > 0.0 && c.burst >= 1.0 && c.burst > Flow(c.rate, IDLE_LIMIT)
    requires Left(c, buckets, client, x, now)
    ensures Ordered(now, steps)
    ensures Count(c, buckets, steps, client) as real >= x + Flow(c.rate, End(now, steps) - now)
    ensures again ==> Count(c, buckets, steps, client) as real > x + Flow(c.rate, End(now, steps) - now)
    decreases again, x.Floor, if x > 0.0 then 2 else 1
  {
    if x == 0.0 && !again {
      steps := [];
      NoTime(c.rate, End(now, steps) - now);
    } else if x == 0.0 {
      steps := SpendAgain(c, buckets, client, now);
    } else {
      var level := if x >= 1.0 then x else 1.0;
      if x < 1.0 { Wait(c.rate, 1.0 - x); }
      var time := if x >= 1.0 then 0.0 else (1.0 - x) / c.rate;
      NoTime(c.rate, time);
      var s := Request(client, now + time);
      assert now + time - now == time && Flow(c.rate, time) == level - x;
      ChargeAt(c, buckets, client, x, now, now + time, level);
      var rest := Spend(c, After(c, buckets, s), client, level - 1.0, now + time, again);
      steps := [s] + rest;
      Cons(c, buckets, s, rest, client, now);
      FlowSplits(c.rate, now, now + time, End(now + time, rest));
    }
  }

  lemma SpendAgain(c: Config, buckets: map<Client, Bucket>, client: Client, now: real) returns (steps: seq<Step>)
    requires ValidConfig(c) && c.rate > 0.0 && c.burst >= 1.0 && c.burst > Flow(c.rate, IDLE_LIMIT)
    requires Left(c, buckets, client, 0.0, now)
    ensures Ordered(now, steps)
    ensures Count(c, buckets, steps, client) as real > Flow(c.rate, End(now, steps) - now)
    decreases true, 0, 0
  {
    var time := LongWait(c.rate, c.burst);
    var later := now + time;
    assert later - now == time;
    var s, evicted := Request(client, later), Collected(buckets, later);
    assert client !in evicted && Left(c, After(c, evicted, s), client, c.burst - 1.0, later);
    var rest := Spend(c, After(c, evicted, s), client, c.burst - 1.0, later, false);
    steps := [Collect(later)] + ([s] + rest);
    Cons(c, evicted, s, rest, client, later);
    Cons(c, buckets, Collect(later), [s] + rest, client, now);
    FlowSplits(c.rate, now, later, End(later, rest));
  }

  /** The same without refill: whole tokens are spent, and after an eviction as many as the burst has. */
  lemma {:induction false} SpendWhole(c: Config, buckets: map<Client, Bucket>, client: Client, x: real, now: real,
                                      again: bool) returns (steps: seq<Step>)
    requires ValidConfig(c) && c.rate == 0.0 && c.burst >= 1.0 && Left(c, buckets, client, x, now)
    ensures Ordered(now, steps)
    ensures Count(c, buckets, steps, client) == x.Floor + if again then c.burst.Floor else 0
    decreases again, x.Floor
  {
    if x >= 1.0 {
      var s := Request(client, now);
      ChargeAt(c, buckets, client, x, now, now, x);
      var rest := SpendWhole(c, After(c, buckets, s), client, x - 1.0, now, again);
      steps := [s] + rest;
      Cons(c, buckets, s, rest, client, now);
    } else if again {
      var later := now + IDLE_LIMIT + 1.0;
      var s, evicted := Request(client, later), Collected(buckets, later);
      assert client !in evicted && Left(c, After(c, evicted, s), client, c.burst - 1.0, later);
      var rest := SpendWhole(c, After(c, evicted, s), client, c.burst - 1.0, later, false);
      steps := [Collect(later)] + ([s] + rest);
      Cons(c, evicted, s, rest, client, later);
      Cons(c, buckets, Collect(later), [s] + rest, client, now);
    } else {
      steps := [];
    }
  }

  predicate Exceeds(c: Config, start: real, steps: seq<Step>, client: Client) {
    Ordered(start, steps) &&
    Count(c, map[], steps, client) as real > c.burst + Flow(c.rate, End(start, steps) - start)
  }

  lemma SomeWindowExceeds(c: Config, client: Client, start: real) returns (steps: seq<Step>)
    requires ValidConfig(c) && c.burst >= 1.0 && c.burst > Flow(c.rate, IDLE_LIMIT)
    ensures Exceeds(c, start, steps, client)
  {
    var s := Request(client, start);
    var after, rest := After(c, map[], s), [];
    assert Left(c, after, client, c.burst - 1.0, start);
    if c.rate > 0.0 {
      rest := Spend(c, after, client, c.burst - 1.0, start, true);
    } else {
      rest := SpendWhole(c, after, client, c.burst - 1.0, start, true);
      assert (c.burst - 1.0).Floor == c.burst.Floor - 1;
    }
    steps := [s] + rest;
    Cons(c, map[], s, rest, client, start);
  }

  /** No window of any run from an empty limiter grants more than the burst and what the rate yields exactly when
      an hour refills a bucket, or nothing is ever granted. */
  lemma WindowBoundExactly(c: Config, start: real)
    requires ValidConfig(c)
    ensures (forall steps, client :: !Exceeds(c, start, steps, client))
            <==> c.burst <= Flow(c.rate, IDLE_LIMIT) || c.burst < 1.0
  {
    if c.burst <= Flow(c.rate, IDLE_LIMIT) || c.burst < 1.0 {
      forall steps, client ensures !Exceeds(c, start, steps, client) {
        if Ordered(start, steps) { WindowBound(c, map[], start, steps, client); }
      }
    } else {
      var steps := SomeWindowExceeds(c, Client("a"), start);
    }
  }
}
