/**
 The token bucket limiter: `tokenBucket.allowN`, the per-key buckets of
 `TokenBucketRateLimiter`, and the background clean-up of idle buckets. Tokens
 and times are reals; the clock is an input that never goes back.
 */
module TokenBucket {
  import opened Common
  import opened Eviction

  /** What `allowN` reads and writes of a bucket, besides its counters. */
  datatype Bucket = Bucket(tokens: real, lastFill: real, rate: real, burst: nat, lastSeen: real)

  function Min(a: real, b: real): real {
    if a < b then a else b
  }

  /** Tokens earned between two times. */
  function Earned(rate: real, since: real, until: real): real {
    (until - since) * rate
  }

  /** The tokens of a bucket refilled at `now`. */
  function Refill(b: Bucket, now: real): real {
    Min(b.burst as real, b.tokens + Earned(b.rate, b.lastFill, now))
  }

  predicate Allowed(b: Bucket, c: Call) {
    Refill(b, c.now) >= c.n as real
  }

  /** The bucket after `allowN(c.n)` at `c.now`. */
  function AfterCall(b: Bucket, c: Call): Bucket {
    var refilled := Refill(b, c.now);
    b.(tokens := if refilled >= c.n as real then refilled - c.n as real else refilled,
       lastFill := c.now, lastSeen := c.now)
  }

  function NewBucket(rate: real, burst: nat, now: real): Bucket {
    Bucket(burst as real, now, rate, burst, now)
  }

  ghost predicate Valid(b: Bucket) {
    0.0 <= b.tokens <= b.burst as real && 0.0 <= b.rate
  }

  /** The calls of one bucket see a clock that does not go back. */
  ghost predicate Ordered(calls: seq<Call>, from: real) {
    calls != [] ==> from <= calls[0].now && Ordered(calls[1..], calls[0].now)
  }

  /** Requests admitted by the calls made in [s, t]. */
  function Admitted(b: Bucket, calls: seq<Call>, s: real, t: real): real
    decreases |calls|
  {
    if calls == [] then 0.0
    else
      (if Allowed(b, calls[0]) && s <= calls[0].now <= t then calls[0].n as real else 0.0)
      + Admitted(AfterCall(b, calls[0]), calls[1..], s, t)
  }

  lemma EarnedNonNegative(rate: real, since: real, until: real)
    requires rate >= 0.0 && since <= until
    ensures Earned(rate, since, until) >= 0.0
  {
  }

  lemma EarnedSplits(rate: real, a: real, b: real, c: real)
    ensures Earned(rate, a, c) == Earned(rate, a, b) + Earned(rate, b, c)
  {
  }

  /** Every call keeps 0 <= tokens <= burst. */
  lemma CallKeepsValid(b: Bucket, c: Call)
    requires Valid(b) && b.lastFill <= c.now
    ensures Valid(AfterCall(b, c))
  {
    EarnedNonNegative(b.rate, b.lastFill, c.now);
  }

  /** Nothing is admitted in an interval that ended before the calls. */
  lemma {:induction false} NoneAfter(b: Bucket, calls: seq<Call>, s: real, t: real, from: real)
    requires Ordered(calls, from) && t < from
    ensures Admitted(b, calls, s, t) == 0.0
    decreases |calls|
  {
    if calls == [] {
    } else {
      NoneAfter(AfterCall(b, calls[0]), calls[1..], s, t, calls[0].now);
    }
  }

  /** What one call admits comes out of the tokens, old or newly earned. */
  lemma CallSpendsTokens(b: Bucket, c: Call)
    ensures AfterCall(b, c).tokens + (if Allowed(b, c) then c.n as real else 0.0) == Refill(b, c.now)
    ensures Refill(b, c.now) <= b.burst as real
    ensures Refill(b, c.now) <= b.tokens + Earned(b.rate, b.lastFill, c.now)
  {
  }

  /** From now on, a bucket admits at most its tokens and what it earns up to `t`. */
  lemma {:induction false} AdmittedFromTokens(b: Bucket, calls: seq<Call>, s: real, t: real)
    requires Valid(b) && Ordered(calls, b.lastFill) && b.lastFill <= t
    ensures Admitted(b, calls, s, t) <= b.tokens + Earned(b.rate, b.lastFill, t)
    decreases |calls|
  {
    EarnedNonNegative(b.rate, b.lastFill, t);
    if calls == [] {
    } else {
      var c := calls[0];
      var b' := AfterCall(b, c);
      CallKeepsValid(b, c);
      if t < c.now {
        NoneAfter(b', calls[1..], s, t, c.now);
      } else {
        var rest := Admitted(b', calls[1..], s, t);
        var spent := if Allowed(b, c) then c.n as real else 0.0;
        CallSpendsTokens(b, c);
        calc <= {
          Admitted(b, calls, s, t);
          spent + rest;
          { AdmittedFromTokens(b', calls[1..], s, t); }
          spent + (b'.tokens + Earned(b.rate, c.now, t));
          Refill(b, c.now) + Earned(b.rate, c.now, t);
          b.tokens + Earned(b.rate, b.lastFill, c.now) + Earned(b.rate, c.now, t);
          { EarnedSplits(b.rate, b.lastFill, c.now, t); }
          b.tokens + Earned(b.rate, b.lastFill, t);
        }
      }
    }
  }

  /**
   The quantitative bound: over any run of one bucket and any interval [s, t],
   however the calls fall, at most burst + rate * (t - s) requests are admitted.
   */
  lemma {:induction false} AdmittedWithinInterval(b: Bucket, calls: seq<Call>, s: real, t: real)
    requires Valid(b) && Ordered(calls, b.lastFill) && s <= t
    ensures Admitted(b, calls, s, t) <= b.burst as real + Earned(b.rate, s, t)
    decreases |calls|
  {
    EarnedNonNegative(b.rate, s, t);
    if calls == [] {
    } else {
      var c := calls[0];
      var b' := AfterCall(b, c);
      CallKeepsValid(b, c);
      if c.now < s {
        AdmittedWithinInterval(b', calls[1..], s, t);
      } else if t < c.now {
        NoneAfter(b', calls[1..], s, t, c.now);
      } else {
        var rest := Admitted(b', calls[1..], s, t);
        var spent := if Allowed(b, c) then c.n as real else 0.0;
        CallSpendsTokens(b, c);
        calc <= {
          Admitted(b, calls, s, t);
          spent + rest;
          { AdmittedFromTokens(b', calls[1..], s, t); }
          spent + (b'.tokens + Earned(b.rate, c.now, t));
          b.burst as real + Earned(b.rate, c.now, t);
          { EarnedNonNegative(b.rate, s, c.now); EarnedSplits(b.rate, s, c.now, t); }
          b.burst as real + Earned(b.rate, s, t);
        }
      }
    }
  }

  // ---- The exact law ----

  /** The bucket after a run of calls. */
  function AfterCalls(b: Bucket, calls: seq<Call>): Bucket
    decreases |calls|
  {
    if calls == [] then b else AfterCall(AfterCalls(b, Front(calls)), Last(calls))
  }

  lemma {:induction false} AfterCallsHead(b: Bucket, calls: seq<Call>)
    requires calls != []
    ensures AfterCalls(b, calls) == AfterCalls(AfterCall(b, calls[0]), calls[1..])
    decreases |calls|
  {
    if |calls| == 1 {
      assert Front(calls) == [];
    } else {
      AfterCallsHead(b, Front(calls));
      assert Front(calls)[1..] == Front(calls[1..]) && Last(calls) == Last(calls[1..]);
    }
  }

  /** What one call admits in [s, t]. */
  function Share(b: Bucket, c: Call, s: real, t: real): real {
    if Allowed(b, c) && s <= c.now <= t then c.n as real else 0.0
  }

  lemma {:induction false} AdmittedLast(b: Bucket, calls: seq<Call>, s: real, t: real)
    requires calls != []
    ensures Admitted(b, calls, s, t) ==
            Admitted(b, Front(calls), s, t) + Share(AfterCalls(b, Front(calls)), Last(calls), s, t)
    decreases |calls|
  {
    var front := Front(calls);
    if |calls| == 1 {
      assert front == [] && calls[1..] == [];
    } else {
      AdmittedLast(AfterCall(b, calls[0]), calls[1..], s, t);
      AfterCallsHead(b, front);
      assert front[0] == calls[0] && front[1..] == Front(calls[1..]) && Last(calls) == Last(calls[1..]);
    }
  }

  /** Calls up to `end` do not see how far beyond it the interval reaches. */
  lemma {:induction false} AdmittedUpTo(b: Bucket, calls: seq<Call>, start: real, end: real, s: real, t: real)
    requires OrderedFrom(calls, start, end) && end <= t
    ensures Admitted(b, calls, s, t) == Admitted(b, calls, s, end)
    ensures Admitted(b, calls, s, t) >= 0.0 && (end < s ==> Admitted(b, calls, s, t) == 0.0)
    decreases |calls|
  {
    if calls == [] {
    } else {
      var front, now := Front(calls), Last(calls).now;
      AdmittedUpTo(b, front, start, now, s, t);
      AdmittedUpTo(b, front, start, now, s, end);
      AdmittedLast(b, calls, s, t);
      AdmittedLast(b, calls, s, end);
    }
  }

  lemma {:induction false} AfterCallsKeeps(b: Bucket, calls: seq<Call>, end: real)
    requires OrderedFrom(calls, b.lastFill, end)
    ensures AfterCalls(b, calls).rate == b.rate && AfterCalls(b, calls).burst == b.burst
    ensures AfterCalls(b, calls).lastFill == (if calls == [] then b.lastFill else Last(calls).now) <= end
    decreases |calls|
  {
    if calls == [] {
    } else {
      AfterCallsKeeps(b, Front(calls), Last(calls).now);
    }
  }

  /** Tokens held and admissions since any `s` never exceed what was there and was earned since. */
  lemma {:induction false} TokensAtMost(b: Bucket, calls: seq<Call>, s: real, t: real)
    requires b == NewBucket(b.rate, b.burst, b.lastFill) && b.rate >= 0.0
    requires OrderedFrom(calls, b.lastFill, t) && s <= t
    ensures Refill(AfterCalls(b, calls), t) + Admitted(b, calls, s, t) <= b.burst as real + Earned(b.rate, s, t)
    decreases |calls|
  {
    EarnedNonNegative(b.rate, s, t);
    AfterCallsKeeps(b, calls, t);
    if calls == [] {
    } else {
      var front, c := Front(calls), Last(calls);
      if s <= c.now {
        TokensAtMost(b, front, s, c.now);
        LastCall(b, calls, s, t);
        EarnedSplits(b.rate, s, c.now, t);
      } else {
        AdmittedUpTo(b, calls, b.lastFill, c.now, s, t);
      }
    }
  }

  /** The tokens at `t` and the admissions since `s`, by what they were at the last call. */
  lemma LastCall(b: Bucket, calls: seq<Call>, s: real, t: real)
    requires calls != [] && OrderedFrom(calls, b.lastFill, t) && s <= Last(calls).now
    ensures var front, now := Front(calls), Last(calls).now;
            Refill(AfterCalls(b, calls), t) + Admitted(b, calls, s, t) ==
            Min(b.burst as real + Admitted(b, calls, s, t),
                Refill(AfterCalls(b, front), now) + Admitted(b, front, s, now) + Earned(b.rate, now, t))
  {
    var front, c := Front(calls), Last(calls);
    AfterCallsKeeps(b, front, c.now);
    CallSpendsTokens(AfterCalls(b, front), c);
    AdmittedLast(b, calls, s, t);
    AdmittedUpTo(b, front, b.lastFill, c.now, s, t);
  }

  /** And for some `s` they are exactly that. */
  lemma {:induction false} TokensExactly(b: Bucket, calls: seq<Call>, t: real) returns (s: real)
    requires b == NewBucket(b.rate, b.burst, b.lastFill) && b.rate >= 0.0
    requires OrderedFrom(calls, b.lastFill, t)
    ensures b.lastFill <= s <= t
    ensures Refill(AfterCalls(b, calls), t) + Admitted(b, calls, s, t) == b.burst as real + Earned(b.rate, s, t)
    decreases |calls|
  {
    AfterCallsKeeps(b, calls, t);
    OrderedSpan(calls, b.lastFill, t);
    NewBucketIsFull(b.rate, b.burst, b.lastFill, t);
    if Refill(AfterCalls(b, calls), t) == b.burst as real {
      s := t;
      TokensAtMost(b, calls, t, t);
      AdmittedUpTo(b, calls, b.lastFill, t, t, t);
    } else {
      var front, c := Front(calls), Last(calls);
      s := TokensExactly(b, front, c.now);
      LastCall(b, calls, s, t);
      EarnedSplits(b.rate, s, c.now, t);
    }
  }

  lemma NewBucketIsFull(rate: real, burst: nat, made: real, t: real)
    requires rate >= 0.0 && made <= t
    ensures Refill(NewBucket(rate, burst, made), t) == burst as real
  {
    EarnedNonNegative(rate, made, t);
  }

  /** Requests admitted over a span of time, and `n` more, are beyond a burst and what the rate earns. */
  ghost predicate Over(admitted: real, n: nat, burst: nat, rate: real, span: real) {
    admitted + n as real > burst as real + span * rate
  }

  lemma OverIff(admitted: real, n: nat, burst: nat, rate: real, s: real, t: real)
    ensures Over(admitted, n, burst, rate, t - s) <==> admitted + n as real > burst as real + Earned(rate, s, t)
  {
  }

  lemma AllowedIsWithin(b: Bucket, calls: seq<Call>, c: Call, s: real)
    requires b == NewBucket(b.rate, b.burst, b.lastFill) && b.rate >= 0.0
    requires OrderedFrom(calls, b.lastFill, c.now) && s <= c.now && Allowed(AfterCalls(b, calls), c)
    ensures Admitted(b, calls, s, c.now) + c.n as real <= b.burst as real + Earned(b.rate, s, c.now)
  {
    TokensAtMost(b, calls, s, c.now);
  }

  lemma DeniedIsBeyond(b: Bucket, calls: seq<Call>, c: Call) returns (s: real)
    requires b == NewBucket(b.rate, b.burst, b.lastFill) && b.rate >= 0.0
    requires OrderedFrom(calls, b.lastFill, c.now) && !Allowed(AfterCalls(b, calls), c)
    ensures b.lastFill <= s <= c.now
    ensures Admitted(b, calls, s, c.now) + c.n as real > b.burst as real + Earned(b.rate, s, c.now)
  {
    s := TokensExactly(b, calls, c.now);
  }

  /**
   The law of the bucket over any run: a call is denied if and only if since some
   moment the requests admitted, with this call, would exceed burst + rate * time.
   Whatever has been earned is given out.
   */
  lemma DeniedIff(rate: real, burst: nat, made: real, calls: seq<Call>, c: Call)
    requires rate >= 0.0 && OrderedFrom(calls, made, c.now)
    ensures var b := NewBucket(rate, burst, made);
            !Allowed(AfterCalls(b, calls), c) <==>
            exists s :: made <= s <= c.now && Over(Admitted(b, calls, s, c.now), c.n, burst, rate, c.now - s)
  {
    var b := NewBucket(rate, burst, made);
    if Allowed(AfterCalls(b, calls), c) {
      forall s | made <= s <= c.now ensures !Over(Admitted(b, calls, s, c.now), c.n, burst, rate, c.now - s) {
        AllowedIsWithin(b, calls, c, s);
        OverIff(Admitted(b, calls, s, c.now), c.n, burst, rate, s, c.now);
      }
    } else {
      var s := DeniedIsBeyond(b, calls, c);
      OverIff(Admitted(b, calls, s, c.now), c.n, burst, rate, s, c.now);
    }
  }

  // ---- The limiter: one bucket per key, and clean-up ----

  datatype Rule = Rule(requestsPerSecond: nat, burstSize: nat)

  type Rate = r: real | 0.0 <= r

  /** What does not change during a run: the defaults, the rules per key, the clean-up interval. */
  datatype Config = Config(defaultRate: Rate, defaultBurst: nat, perKey: map<Key, Rule>, cleanupInterval: real) {
    function RateFor(key: Key): Rate {
      if key in perKey then perKey[key].requestsPerSecond as real else defaultRate
    }

    function Burst(key: Key): nat {
      if key in perKey then perKey[key].burstSize else defaultBurst
    }
  }

  type Buckets = map<Key, Bucket>

  datatype Op = Request(key: Key, call: Call) | Cleanup(at: real) {
    function Time(): real {
      if Request? then call.now else at
    }
  }

  /** `getBucket`. */
  function BucketFor(cfg: Config, bs: Buckets, key: Key, now: real): Bucket {
    if key in bs then bs[key] else NewBucket(cfg.RateFor(key), cfg.Burst(key), now)
  }

  /** `cleanup`: drop the buckets last seen before the cut-off. */
  function CleanUp(cfg: Config, bs: Buckets, now: real): Buckets {
    map key | key in bs && !(bs[key].lastSeen < now - cfg.cleanupInterval) :: bs[key]
  }

  function AfterOp(cfg: Config, bs: Buckets, op: Op): Buckets {
    match op
    case Request(key, call) => bs[key := AfterCall(BucketFor(cfg, bs, key, call.now), call)]
    case Cleanup(now) => CleanUp(cfg, bs, now)
  }

  /** The answers of a run, with clean-up or as if it never ran. */
  function Answers(cfg: Config, bs: Buckets, ops: seq<Op>, evict: bool): seq<bool>
    decreases |ops|
  {
    if ops == [] then []
    else
      match ops[0]
      case Request(key, call) =>
        [Allowed(BucketFor(cfg, bs, key, call.now), call)]
        + Answers(cfg, AfterOp(cfg, bs, ops[0]), ops[1..], evict)
      case Cleanup(now) =>
        Answers(cfg, if evict then CleanUp(cfg, bs, now) else bs, ops[1..], evict)
  }

  ghost predicate OrderedOps(ops: seq<Op>, from: real) {
    ops != [] ==> from <= ops[0].Time() && OrderedOps(ops[1..], ops[0].Time())
  }

  ghost predicate Generous(cfg: Config, key: Key) {
    cfg.RateFor(key) * cfg.cleanupInterval >= cfg.Burst(key) as real
  }

  /** Buckets as requests leave them, under unchanged rules. */
  ghost predicate Proper(cfg: Config, key: Key, b: Bucket) {
    Valid(b) && b.lastFill == b.lastSeen && b.rate == cfg.RateFor(key) && b.burst == cfg.Burst(key)
  }

  ghost predicate Regular(cfg: Config, key: Key, b: Bucket, now: real) {
    Proper(cfg, key, b) && b.lastSeen <= now
  }

  ghost predicate Full(b: Bucket, now: real) {
    b.tokens + Earned(b.rate, b.lastFill, now) >= b.burst as real
  }

  /** A deleted bucket was full, so nothing distinguishes it from a new one. */
  ghost predicate Same(cfg: Config, evicted: Buckets, kept: Buckets, now: real) {
    forall key :: key in kept || key in evicted ==>
      && key in kept && Regular(cfg, key, kept[key], now)
      && (if key in evicted then evicted[key] == kept[key] else Full(kept[key], now))
  }

  lemma FullStays(b: Bucket, now: real, later: real)
    requires Full(b, now) && now <= later && b.rate >= 0.0
    ensures Full(b, later)
  {
    EarnedSplits(b.rate, b.lastFill, now, later);
    EarnedNonNegative(b.rate, now, later);
  }

  lemma SameLater(cfg: Config, evicted: Buckets, kept: Buckets, now: real, later: real)
    requires Same(cfg, evicted, kept, now) && now <= later
    ensures Same(cfg, evicted, kept, later)
  {
    forall key | key in kept && key !in evicted ensures Full(kept[key], later) {
      FullStays(kept[key], now, later);
    }
  }

  /** An idle bucket of a generous rule has filled up again by the time it is dropped. */
  lemma IdleIsFull(cfg: Config, key: Key, b: Bucket, now: real)
    requires Proper(cfg, key, b) && Generous(cfg, key)
    requires b.lastSeen < now - cfg.cleanupInterval
    ensures Full(b, now)
  {
    var due := b.lastFill + cfg.cleanupInterval;
    EarnedSplits(b.rate, b.lastFill, due, now);
    EarnedNonNegative(b.rate, due, now);
    assert Earned(b.rate, b.lastFill, due) == cfg.RateFor(key) * cfg.cleanupInterval;
  }

  lemma CleanupKeepsSame(cfg: Config, evicted: Buckets, kept: Buckets, now: real)
    requires Same(cfg, evicted, kept, now)
    requires forall key :: Generous(cfg, key)
    ensures Same(cfg, CleanUp(cfg, evicted, now), kept, now)
  {
    forall key | key in evicted && key !in CleanUp(cfg, evicted, now) ensures Full(kept[key], now) {
      IdleIsFull(cfg, key, kept[key], now);
    }
  }

  /** A request finds the same tokens on both sides. */
  lemma RequestKeepsSame(cfg: Config, evicted: Buckets, kept: Buckets, op: Op)
    requires op.Request? && Same(cfg, evicted, kept, op.call.now)
    ensures Allowed(BucketFor(cfg, evicted, op.key, op.call.now), op.call) ==
            Allowed(BucketFor(cfg, kept, op.key, op.call.now), op.call)
    ensures Same(cfg, AfterOp(cfg, evicted, op), AfterOp(cfg, kept, op), op.call.now)
  {
    var key, now := op.key, op.call.now;
    var b1, b2 := BucketFor(cfg, evicted, key, now), BucketFor(cfg, kept, key, now);
    assert Refill(b1, now) == Refill(b2, now);
    CallKeepsValid(b2, op.call);
  }

  lemma {:induction false} SameAnswers(cfg: Config, evicted: Buckets, kept: Buckets, ops: seq<Op>, now: real)
    requires Same(cfg, evicted, kept, now) && OrderedOps(ops, now)
    requires forall key :: Generous(cfg, key)
    ensures Answers(cfg, evicted, ops, true) == Answers(cfg, kept, ops, false)
    decreases |ops|
  {
    if ops == [] {
    } else {
      var op := ops[0];
      SameLater(cfg, evicted, kept, now, op.Time());
      match op
      case Request(_, _) =>
        RequestKeepsSame(cfg, evicted, kept, op);
        SameAnswers(cfg, AfterOp(cfg, evicted, op), AfterOp(cfg, kept, op), ops[1..], op.Time());
      case Cleanup(at) =>
        CleanupKeepsSame(cfg, evicted, kept, at);
        SameAnswers(cfg, CleanUp(cfg, evicted, at), kept, ops[1..], at);
    }
  }

  /** A stingy rule leaves a moment after the interval at which a drained bucket is not yet full. */
  lemma NotYetFull(rate: real, burst: real, interval: real) returns (now: real)
    requires rate >= 0.0 && interval >= 0.0 && rate * interval < burst
    ensures now > interval && now * rate < burst
  {
    if rate == 0.0 {
      now := interval + 1.0;
    } else {
      var full := burst / rate;
      assert full * rate == burst;
      assert interval < full by {
        if full <= interval {
          EarnedNonNegative(rate, full, interval);
          assert false;
        }
      }
      now := (interval + full) / 2.0;
      assert now * rate == (interval * rate + full * rate) / 2.0;
    }
  }

  /** The answers to a burst, a clean-up at `now`, and another burst at `now`. */
  function BurstTwice(key: Key, burst: nat, now: real): seq<Op> {
    [Request(key, Call(burst, 0.0)), Cleanup(now), Request(key, Call(burst, now))]
  }

  lemma BurstTwiceAnswers(cfg: Config, key: Key, now: real, evict: bool)
    requires cfg.cleanupInterval >= 0.0 && now > cfg.cleanupInterval
    requires now * cfg.RateFor(key) < cfg.Burst(key) as real
    ensures Answers(cfg, map[], BurstTwice(key, cfg.Burst(key), now), evict) == [true, evict]
  {
    var rate, burst := cfg.RateFor(key), cfg.Burst(key);
    var ops := BurstTwice(key, burst, now);
    var bs := AfterOp(cfg, map[], ops[0]);
    var after := if evict then CleanUp(cfg, bs, now) else bs;
    assert ops[1..][1..] == [ops[2]] && [ops[2]][1..] == [];
    assert Refill(NewBucket(rate, burst, 0.0), 0.0) == burst as real;
    assert bs[key] == Bucket(0.0, 0.0, rate, burst, 0.0);
    assert Refill(NewBucket(rate, burst, now), now) == burst as real;
    assert Refill(bs[key], now) <= now * rate;
    assert key in after <==> !evict;
    calc {
      Answers(cfg, map[], ops, evict);
      [true] + Answers(cfg, bs, ops[1..], evict);
      [true] + Answers(cfg, after, ops[1..][1..], evict);
      [true] + ([evict] + Answers(cfg, AfterOp(cfg, after, ops[2]), [], evict));
      [true, evict];
    }
  }

  /** Drain a bucket, let it be dropped before it has filled up, ask for a full burst again. */
  lemma CleanupShows(cfg: Config, key: Key) returns (ops: seq<Op>)
    requires cfg.cleanupInterval >= 0.0 && !Generous(cfg, key)
    ensures OrderedOps(ops, 0.0)
    ensures Answers(cfg, map[], ops, true) != Answers(cfg, map[], ops, false)
  {
    var now := NotYetFull(cfg.RateFor(key), cfg.Burst(key) as real, cfg.cleanupInterval);
    ops := BurstTwice(key, cfg.Burst(key), now);
    BurstTwiceAnswers(cfg, key, now, true);
    BurstTwiceAnswers(cfg, key, now, false);
    assert [true, true][1] != [true, false][1];
    assert ops[1..][1..] == [ops[2]] && [ops[2]][1..] == [];
    assert OrderedOps([], now) && OrderedOps([ops[2]], now) && OrderedOps(ops[1..], 0.0);
  }

  /**
   Clean-up is invisible, on every sequence of requests and clean-ups, exactly
   when every key earns a full burst within the clean-up interval.
   */
  lemma EvictionInvisibleIff(cfg: Config)
    requires cfg.cleanupInterval >= 0.0
    ensures (forall ops :: OrderedOps(ops, 0.0) ==>
               Answers(cfg, map[], ops, true) == Answers(cfg, map[], ops, false))
            <==> (forall key :: Generous(cfg, key))
  {
    if forall key :: Generous(cfg, key) {
      forall ops | OrderedOps(ops, 0.0)
        ensures Answers(cfg, map[], ops, true) == Answers(cfg, map[], ops, false)
      {
        SameAnswers(cfg, map[], map[], ops, 0.0);
      }
    } else {
      var key :| !Generous(cfg, key);
      var ops := CleanupShows(cfg, key);
    }
  }

  // ---- The limiter with requests and clean-up interleaved ----

  function TokenLimiter(cfg: Config): Limiter<Bucket> {
    Limiter((key: Key, now: real) => NewBucket(cfg.RateFor(key), cfg.Burst(key), now),
            (key: Key, b: Bucket, c: Call) => Allowed(b, c),
            (key: Key, b: Bucket, c: Call) => AfterCall(b, c),
            (b: Bucket) => b.lastSeen,
            cfg.cleanupInterval)
  }

  ghost function ProperOf(cfg: Config): (Key, Bucket) -> bool {
    (key: Key, b: Bucket) => Proper(cfg, key, b)
  }

  /** A full bucket is as good as new. */
  lemma FullIsAsNew(cfg: Config, key: Key, b: Bucket, now: real)
    requires Proper(cfg, key, b) && Full(b, now)
    ensures AsNew(TokenLimiter(cfg), key, b, now)
  {
    var L := TokenLimiter(cfg);
    forall c: Call | now <= c.now
      ensures L.allowed(key, b, c) == L.allowed(key, L.make(key, c.now), c)
      ensures L.use(key, b, c) == L.use(key, L.make(key, c.now), c)
    {
      FullStays(b, now, c.now);
      assert Refill(b, c.now) == Refill(NewBucket(b.rate, b.burst, c.now), c.now);
    }
  }

  lemma TokenLimiterIsSane(cfg: Config)
    ensures Sane(TokenLimiter(cfg), ProperOf(cfg))
  {
    var L, regular := TokenLimiter(cfg), ProperOf(cfg);
    forall key: Key, made: real
      ensures regular(key, L.make(key, made)) && L.lastSeen(L.make(key, made)) == made
      ensures AsNew(L, key, L.make(key, made), made)
    {
      FullIsAsNew(cfg, key, L.make(key, made), made);
    }
    forall key: Key, b: Bucket, c: Call | regular(key, b) && L.lastSeen(b) <= c.now
      ensures regular(key, L.use(key, b, c)) && L.lastSeen(L.use(key, b, c)) == c.now
    {
      CallKeepsValid(b, c);
    }
  }

  lemma GenerousForgets(cfg: Config, key: Key)
    requires Generous(cfg, key)
    ensures Forgets(TokenLimiter(cfg), ProperOf(cfg), key)
  {
    forall b: Bucket, now: real | Proper(cfg, key, b) && b.lastSeen < now - cfg.cleanupInterval
      ensures AsNew(TokenLimiter(cfg), key, b, now)
    {
      IdleIsFull(cfg, key, b, now);
      FullIsAsNew(cfg, key, b, now);
    }
  }

  lemma NoBurstIsStateless(cfg: Config, key: Key)
    requires cfg.Burst(key) == 0
    ensures Stateless(TokenLimiter(cfg), ProperOf(cfg), key)
  {
    forall b: Bucket, c: Call | Proper(cfg, key, b) && b.lastSeen <= c.now
      ensures Allowed(b, c) == Allowed(NewBucket(cfg.RateFor(key), cfg.Burst(key), c.now), c)
    {
      EarnedNonNegative(b.rate, b.lastFill, c.now);
    }
  }

  /** A burst at `t` empties a bucket made at zero. */
  lemma BurstExhausts(cfg: Config, key: Key, t: real)
    requires cfg.Burst(key) > 0 && t >= 0.0
    ensures Exhausts(TokenLimiter(cfg), key, cfg.Burst(key), t)
  {
    var rate, burst := cfg.RateFor(key), cfg.Burst(key);
    EarnedNonNegative(rate, 0.0, t);
    assert Refill(NewBucket(rate, burst, 0.0), t) == burst as real;
    assert Refill(NewBucket(rate, burst, t), t) == burst as real;
  }

  lemma SlowRuleShows(cfg: Config, key: Key, d: Discipline) returns (es: seq<Event>)
    requires cfg.cleanupInterval >= 0.0 && !Generous(cfg, key)
    ensures Shows(TokenLimiter(cfg), es, key, d)
  {
    var rate, burst := cfg.RateFor(key), cfg.Burst(key);
    var t := NotYetFull(rate, burst as real, cfg.cleanupInterval);
    var used := AfterCall(NewBucket(rate, burst, 0.0), Call(burst, 0.0));
    assert used == Bucket(0.0, 0.0, rate, burst, 0.0);
    assert Refill(used, t) <= t * rate;
    assert Refill(NewBucket(rate, burst, t), t) == burst as real;
    es := SlowShows(TokenLimiter(cfg), key, d, burst, burst, t);
  }

  /**
   Clean-up interleaved with requests in any way that `d` allows is invisible to a
   key exactly when the key earns a full burst within the clean-up interval and,
   unless it never admits anything, no request of the key overlaps with a deletion:
   none uses it between the check and the delete, none has found it and not yet
   used it.
   */
  lemma InterleavedEvictionIff(cfg: Config, key: Key, d: Discipline)
    requires cfg.cleanupInterval >= 0.0
    ensures Invisible(TokenLimiter(cfg), key, d) <==>
            Generous(cfg, key) && (d == STRICT || cfg.Burst(key) == 0)
  {
    var L, t := TokenLimiter(cfg), cfg.cleanupInterval + 1.0;
    TokenLimiterIsSane(cfg);
    if !Generous(cfg, key) {
      var es := SlowRuleShows(cfg, key, d);
    } else if cfg.Burst(key) == 0 {
      NoBurstIsStateless(cfg, key);
      StatelessIsInvisible(L, key, d, ProperOf(cfg));
    } else if d == STRICT {
      GenerousForgets(cfg, key);
      ForgettingIsInvisible(L, key, ProperOf(cfg));
    } else {
      BurstExhausts(cfg, key, t);
      if d.lateUse {
        var es := LateUseShows(L, key, d, cfg.Burst(key), t);
      } else {
        var es := PendingShows(L, key, d, cfg.Burst(key), t);
      }
    }
  }

  /** A request that nothing comes between is the atomic step. */
  lemma AtomicRequest(cfg: Config, s: State<Bucket>, t: Thread, key: Key, call: Call)
    requires Tabled(s) && s.next !in s.objects
    requires forall j, k :: j in s.table && k in s.table && s.table[j] == s.table[k] ==> j == k
    ensures var L := TokenLimiter(cfg);
            var s' := UseStep(L, FindStep(L, s, t, key, call.now), t, key, call);
            && Tabled(s') && Values(s') == AfterOp(cfg, Values(s), Request(key, call))
            && s'.log == s.log + [Outcome(key, call, Allowed(BucketFor(cfg, Values(s), key, call.now), call))]
  {
    FindThenUse(TokenLimiter(cfg), s, t, key, call);
  }

  /** Requests admitted in [s, t], by the answers given. */
  function AdmittedIn(outcomes: seq<Outcome>, s: real, t: real): real {
    if outcomes == [] then 0.0
    else
      var o := outcomes[0];
      (if o.ok && s <= o.call.now <= t then o.call.n as real else 0.0) + AdmittedIn(outcomes[1..], s, t)
  }

  lemma {:induction false} PlayedIsAdmitted(cfg: Config, key: Key, b: Bucket, calls: seq<Call>, end: real,
                                            s: real, t: real)
    requires OrderedFrom(calls, b.lastFill, end)
    ensures Ordered(calls, b.lastFill)
    ensures AdmittedIn(Play(TokenLimiter(cfg), key, b, calls).0, s, t) == Admitted(b, calls, s, t)
    decreases |calls|
  {
    if calls == [] {
    } else {
      PlayHead(TokenLimiter(cfg), key, b, calls);
      OrderedHead(calls, b.lastFill, end);
      PlayedIsAdmitted(cfg, key, AfterCall(b, calls[0]), calls[1..], end, s, t);
    }
  }

  /**
   The limiter's bound per key: with clean-up running, undisturbed, a key that
   earns a full burst within the clean-up interval is admitted at most
   burst + rate * (t - s) requests in any interval [s, t] of any run.
   */
  lemma AdmittedPerKey(cfg: Config, es: seq<Event>, key: Key, s: real, t: real)
    requires Generous(cfg, key) && s <= t
    requires Legal(TokenLimiter(cfg), es) && Obeys(TokenLimiter(cfg), es, key, STRICT)
    ensures AdmittedIn(OfKey(After(TokenLimiter(cfg), es, true).log, key), s, t)
            <= cfg.Burst(key) as real + Earned(cfg.RateFor(key), s, t)
  {
    var L := TokenLimiter(cfg);
    TokenLimiterIsSane(cfg);
    GenerousForgets(cfg, key);
    var made := AnswersOfOneObject(L, es, key, ProperOf(cfg));
    var b := NewBucket(cfg.RateFor(key), cfg.Burst(key), made);
    PlayedIsAdmitted(cfg, key, b, CallsOf(es, key), After(L, es, true).clock, s, t);
    AdmittedWithinInterval(b, CallsOf(es, key), s, t);
  }

  lemma {:induction false} PlayedIsAfter(cfg: Config, key: Key, b: Bucket, calls: seq<Call>)
    ensures Play(TokenLimiter(cfg), key, b, calls).1 == AfterCalls(b, calls)
    decreases |calls|
  {
    if calls == [] {
    } else {
      PlayedIsAfter(cfg, key, b, Front(calls));
    }
  }

  /** Since some moment, with this call, more than a burst and what the rate earned since. */
  ghost predicate Beyond(before: seq<Outcome>, c: Call, rate: real, burst: nat) {
    exists s :: s <= c.now && Over(AdmittedIn(before, s, c.now), c.n, burst, rate, c.now - s)
  }

  /** The same law for the answers of one bucket. */
  lemma PlayedDeniedIff(cfg: Config, key: Key, made: real, calls: seq<Call>, c: Call)
    requires OrderedFrom(calls, made, c.now)
    ensures var rate, burst := cfg.RateFor(key), cfg.Burst(key);
            var (before, b) := Play(TokenLimiter(cfg), key, NewBucket(rate, burst, made), calls);
            !Allowed(b, c) <==> Beyond(before, c, rate, burst)
  {
    var rate, burst := cfg.RateFor(key), cfg.Burst(key);
    var b := NewBucket(rate, burst, made);
    var before := Play(TokenLimiter(cfg), key, b, calls).0;
    PlayedIsAfter(cfg, key, b, calls);
    if Allowed(AfterCalls(b, calls), c) {
      forall s | s <= c.now ensures !Over(AdmittedIn(before, s, c.now), c.n, burst, rate, c.now - s) {
        AllowedIsWithin(b, calls, c, s);
        PlayedIsAdmitted(cfg, key, b, calls, c.now, s, c.now);
        OverIff(Admitted(b, calls, s, c.now), c.n, burst, rate, s, c.now);
      }
    } else {
      var s := DeniedIsBeyond(b, calls, c);
      PlayedIsAdmitted(cfg, key, b, calls, c.now, s, c.now);
      OverIff(Admitted(b, calls, s, c.now), c.n, burst, rate, s, c.now);
    }
  }

  /**
   The law of the limiter per key: with clean-up running, undisturbed, the k-th
   request of a key is denied if and only if since some moment the requests
   admitted for the key, with this one, would exceed its burst and its earnings,
   by the rule of the key or, without one, by the defaults.
   */
  lemma DeniedPerKeyIff(cfg: Config, es: seq<Event>, key: Key, k: nat)
    requires Generous(cfg, key)
    requires Legal(TokenLimiter(cfg), es) && Obeys(TokenLimiter(cfg), es, key, STRICT)
    requires k < |OfKey(After(TokenLimiter(cfg), es, true).log, key)|
    ensures var answers := OfKey(After(TokenLimiter(cfg), es, true).log, key);
            var rate := if key in cfg.perKey then cfg.perKey[key].requestsPerSecond as real else cfg.defaultRate;
            var burst := if key in cfg.perKey then cfg.perKey[key].burstSize else cfg.defaultBurst;
            !answers[k].ok <==> Beyond(answers[..k], answers[k].call, rate, burst)
  {
    var L, calls := TokenLimiter(cfg), CallsOf(es, key);
    TokenLimiterIsSane(cfg);
    GenerousForgets(cfg, key);
    var made := AnswersOfOneObject(L, es, key, ProperOf(cfg));
    PlayLength(L, key, NewBucket(cfg.RateFor(key), cfg.Burst(key), made), calls);
    PlayedAnswerIff(cfg, key, made, calls, After(L, es, true).clock, k);
  }

  lemma PlayedAnswerIff(cfg: Config, key: Key, made: real, calls: seq<Call>, end: real, k: nat)
    requires OrderedFrom(calls, made, end) && k < |calls|
    ensures var rate, burst := cfg.RateFor(key), cfg.Burst(key);
            var answers := Play(TokenLimiter(cfg), key, NewBucket(rate, burst, made), calls).0;
            && |answers| == |calls| && answers[k].call == calls[k]
            && (!answers[k].ok <==> Beyond(answers[..k], calls[k], rate, burst))
  {
    PlayAt(TokenLimiter(cfg), key, NewBucket(cfg.RateFor(key), cfg.Burst(key), made), calls, k);
    OrderedUpTo(calls, made, end, k);
    PlayedDeniedIff(cfg, key, made, calls[..k], calls[k]);
  }

  // ---- The objects ----

  /** `tokenBucket`, with its counters. */
  class LiveBucket {
    const rate: real
    const burst: nat
    var tokens: real
    var lastFill: real
    var lastSeen: real
    var requests: nat
    var allowed: nat
    var rejected: nat

    ghost function State(): Bucket
      reads this
    {
      Bucket(tokens, lastFill, rate, burst, lastSeen)
    }

    ghost predicate Live()
      reads this
    {
      Valid(State()) && requests == allowed + rejected
    }

    constructor (rate: real, burst: nat, now: real)
      requires rate >= 0.0
      ensures Live() && State() == NewBucket(rate, burst, now)
    {
      this.rate, this.burst := rate, burst;
      tokens, lastFill, lastSeen := burst as real, now, now;
      requests, allowed, rejected := 0, 0, 0;
    }

    method AllowN(n: nat, now: real) returns (ok: bool)
      requires Live() && lastFill <= now
      modifies this
      ensures Live()
      ensures State() == AfterCall(old(State()), Call(n, now))
      ensures ok == Allowed(old(State()), Call(n, now))
      ensures requests == old(requests) + n
      ensures allowed == old(allowed) + if ok then n else 0
    {
      CallKeepsValid(State(), Call(n, now));
      tokens := Min(burst as real, tokens + Earned(rate, lastFill, now));
      lastFill := now;
      requests := requests + n;
      lastSeen := now;
      if tokens >= n as real {
        tokens := tokens - n as real;
        allowed := allowed + n;
        return true;
      }
      rejected := rejected + n;
      return false;
    }
  }
}
