/**
 The sliding window limiter: `slidingWindow.allowN`, the per-key windows of
 `SlidingWindowRateLimiter`, and the background clean-up of idle windows.
 */
module SlidingWindow {
  import opened Common
  import opened Eviction

  /** `requests` are the admission times still remembered, oldest first. */
  datatype Window = Window(requests: seq<real>, lastSeen: real)

  /** Window length and limit, fixed for a key during a run. */
  datatype Limit = Limit(size: real, max: int)

  /** The times later than `cutoff`, in order. */
  function Prune(requests: seq<real>, cutoff: real): seq<real> {
    Filter(requests, (t: real) => t > cutoff)
  }

  function Copies(now: real, n: nat): seq<real> {
    seq(n, _ => now)
  }

  predicate Allowed(w: Window, l: Limit, c: Call) {
    |Prune(w.requests, c.now - l.size)| + c.n <= l.max
  }

  function AfterCall(w: Window, l: Limit, c: Call): Window {
    var valid := Prune(w.requests, c.now - l.size);
    Window(if |valid| + c.n <= l.max then valid + Copies(c.now, c.n) else valid, c.now)
  }

  function NewWindow(now: real): Window {
    Window([], now)
  }

  // ---- One window over a whole run ----

  function After(l: Limit, start: real, calls: seq<Call>): Window {
    if calls == [] then NewWindow(start) else AfterCall(After(l, start, Front(calls)), l, Last(calls))
  }

  /** Every admission of the run, never pruned. */
  ghost function History(l: Limit, start: real, calls: seq<Call>): seq<real> {
    if calls == [] then []
    else
      History(l, start, Front(calls)) +
      if Allowed(After(l, start, Front(calls)), l, Last(calls)) then Copies(Last(calls).now, Last(calls).n) else []
  }

  ghost predicate Ordered(start: real, calls: seq<Call>) {
    calls != [] ==>
      Ordered(start, Front(calls)) &&
      (if |calls| == 1 then start else calls[|calls| - 2].now) <= Last(calls).now
  }

  /** Admissions inside the interval (x, x + size]. */
  function Within(times: seq<real>, x: real, size: real): seq<real> {
    Filter(times, (t: real) => x < t <= x + size)
  }

  lemma {:induction false} PrunePrune(s: seq<real>, early: real, late: real)
    requires early <= late
    ensures Prune(Prune(s, early), late) == Prune(s, late)
  {
    if s == [] {
    } else {
      var head := if s[0] > early then [s[0]] else [];
      PrunePrune(s[1..], early, late);
      FilterConcat(head, Prune(s[1..], early), (t: real) => t > late);
      assert Prune(head, late) == if s[0] > late then [s[0]] else [] by {
        assert head[|head|..] == [] && [s[0]][1..] == [];
      }
    }
  }

  lemma {:induction false} PruneAll(s: seq<real>, cutoff: real)
    requires forall i :: 0 <= i < |s| ==> s[i] > cutoff
    ensures Prune(s, cutoff) == s
  {
    if s == [] {
    } else {
      PruneAll(s[1..], cutoff);
      assert [s[0]] + s[1..] == s;
    }
  }

  lemma {:induction false} PruneNone(s: seq<real>, cutoff: real)
    requires forall i :: 0 <= i < |s| ==> s[i] <= cutoff
    ensures Prune(s, cutoff) == []
  {
    if s == [] {
    } else {
      PruneNone(s[1..], cutoff);
    }
  }

  lemma {:induction false} WithinPruned(s: seq<real>, x: real, size: real, cutoff: real)
    requires cutoff <= x
    ensures |Within(s, x, size)| <= |Prune(s, cutoff)|
  {
    if s == [] {
    } else {
      WithinPruned(s[1..], x, size, cutoff);
    }
  }

  lemma {:induction false} WithinNone(s: seq<real>, x: real, size: real)
    requires forall i :: 0 <= i < |s| ==> !(x < s[i] <= x + size)
    ensures Within(s, x, size) == []
  {
    if s == [] {
    } else {
      WithinNone(s[1..], x, size);
    }
  }

  /** Pruning never drops a request still inside a later window. */
  lemma {:induction false} WindowIsRecentHistory(l: Limit, start: real, calls: seq<Call>)
    requires l.size > 0.0 && Ordered(start, calls)
    ensures After(l, start, calls).lastSeen == if calls == [] then start else Last(calls).now
    ensures After(l, start, calls).requests ==
            Prune(History(l, start, calls), After(l, start, calls).lastSeen - l.size)
  {
    if calls == [] {
    } else {
      WindowIsRecentHistory(l, start, Front(calls));
      var w, h, c := After(l, start, Front(calls)), History(l, start, Front(calls)), Last(calls);
      var cutoff := c.now - l.size;
      PrunePrune(h, w.lastSeen - l.size, cutoff);
      FilterConcat(h, Copies(c.now, c.n), (t: real) => t > cutoff);
      PruneAll(Copies(c.now, c.n), cutoff);
      assert h + [] == h;
    }
  }

  /**
   The quantitative bound: over the whole run, every interval (x, x + size], not
   only the windows that end at a call, contains at most `max` admissions, or none.
   */
  lemma {:induction false} AtMostMaxInEveryWindow(l: Limit, start: real, calls: seq<Call>, x: real)
    requires Ordered(start, calls)
    ensures |Within(History(l, start, calls), x, l.size)| <= l.max ||
            Within(History(l, start, calls), x, l.size) == []
  {
    if l.size <= 0.0 {
      WithinNone(History(l, start, calls), x, l.size);
    } else if calls != [] {
      AtMostMaxInEveryWindow(l, start, Front(calls), x);
      var w, h, c := After(l, start, Front(calls)), History(l, start, Front(calls)), Last(calls);
      var h' := History(l, start, calls);
      if Allowed(w, l, c) {
        if x < c.now <= x + l.size {
          WindowIsRecentHistory(l, start, calls);
          WithinPruned(h', x, l.size, c.now - l.size);
        } else {
          FilterConcat(h, Copies(c.now, c.n), (t: real) => x < t <= x + l.size);
          WithinNone(Copies(c.now, c.n), x, l.size);
          assert Within(h, x, l.size) + [] == Within(h, x, l.size);
        }
      } else {
        assert h' == h;
      }
    }
  }

  // ---- The exact law ----

  lemma {:induction false} WithinIsPrune(s: seq<real>, x: real, size: real)
    requires forall i :: 0 <= i < |s| ==> s[i] <= x + size
    ensures Within(s, x, size) == Prune(s, x)
  {
    if s == [] {
    } else {
      WithinIsPrune(s[1..], x, size);
    }
  }

  lemma {:induction false} OrderedFromStart(start: real, calls: seq<Call>, end: real)
    requires OrderedFrom(calls, start, end)
    ensures Ordered(start, calls)
    decreases |calls|
  {
    if calls == [] {
    } else {
      OrderedFromStart(start, Front(calls), Last(calls).now);
      assert |calls| > 1 ==> Last(Front(calls)) == calls[|calls| - 2];
    }
  }

  lemma {:induction false} PruneBounded(s: seq<real>, cutoff: real, bound: real)
    requires forall i :: 0 <= i < |s| ==> s[i] <= bound
    ensures forall i :: 0 <= i < |Prune(s, cutoff)| ==> Prune(s, cutoff)[i] <= bound
  {
    if s == [] {
    } else {
      PruneBounded(s[1..], cutoff, bound);
      var rest := Prune(s[1..], cutoff);
      assert Prune(s, cutoff) == if s[0] > cutoff then [s[0]] + rest else rest;
    }
  }

  /** Nothing remembered, and nothing in the history, is later than the last call. */
  lemma {:induction false} NothingLater(l: Limit, start: real, calls: seq<Call>, end: real)
    requires OrderedFrom(calls, start, end)
    ensures forall i :: 0 <= i < |History(l, start, calls)| ==> History(l, start, calls)[i] <= end
    ensures forall i :: 0 <= i < |After(l, start, calls).requests| ==> After(l, start, calls).requests[i] <= end
    ensures After(l, start, calls).lastSeen <= end
    decreases |calls|
  {
    if calls == [] {
    } else {
      var c := Last(calls);
      NothingLater(l, start, Front(calls), c.now);
      PruneBounded(After(l, start, Front(calls)).requests, c.now - l.size, c.now);
    }
  }

  /** What counts at a call is the whole history inside the window that ends there. */
  lemma CountsRecent(l: Limit, start: real, calls: seq<Call>, now: real)
    requires OrderedFrom(calls, start, now)
    ensures |Prune(After(l, start, calls).requests, now - l.size)| ==
            |Within(History(l, start, calls), now - l.size, l.size)|
  {
    var w, h, x := After(l, start, calls), History(l, start, calls), now - l.size;
    NothingLater(l, start, calls, now);
    if l.size > 0.0 {
      OrderedFromStart(start, calls, now);
      WindowIsRecentHistory(l, start, calls);
      PrunePrune(h, w.lastSeen - l.size, x);
      WithinIsPrune(h, x, l.size);
    } else {
      PruneNone(w.requests, x);
      WithinNone(h, x, l.size);
    }
  }

  /**
   The law of the window over any run: a call is admitted if and only if it and all
   admissions of the whole run in the window that ends at it are within the limit.
   */
  lemma AdmittedIff(l: Limit, start: real, calls: seq<Call>, c: Call)
    requires OrderedFrom(calls, start, c.now)
    ensures Allowed(After(l, start, calls), l, c) <==>
            |Within(History(l, start, calls), c.now - l.size, l.size)| + c.n <= l.max
  {
    CountsRecent(l, start, calls, c.now);
  }

  // ---- The limiter: one window per key, and clean-up ----

  /** A rule for one key; a window of zero or less means the default window. */
  datatype Rule = Rule(requestsPerSecond: int, windowSize: real)

  /** Go's conversion of a float to an int, toward zero. */
  function Truncate(x: real): int {
    if x >= 0.0 then x.Floor else -(-x).Floor
  }

  /** What does not change during a run: the default limit, the rules per key, the clean-up interval. */
  datatype Config = Config(default: Limit, perKey: map<Key, Rule>, cleanupInterval: real) {
    /** `getWindowSize` and `getMaxRequests`. */
    function LimitFor(key: Key): Limit {
      if key !in perKey then default
      else
        var rule := perKey[key];
        Limit(if rule.windowSize > 0.0 then rule.windowSize else default.size,
              if rule.requestsPerSecond > 0 then Truncate(rule.requestsPerSecond as real * rule.windowSize)
              else default.max)
    }
  }

  type Windows = map<Key, Window>

  datatype Op = Request(key: Key, call: Call) | Cleanup(at: real) {
    function Time(): real {
      if Request? then call.now else at
    }
  }

  /** `getWindow`. */
  function WindowFor(ws: Windows, key: Key, now: real): Window {
    if key in ws then ws[key] else NewWindow(now)
  }

  function CleanUp(cfg: Config, ws: Windows, now: real): Windows {
    map key | key in ws && !(ws[key].lastSeen < now - cfg.cleanupInterval) :: ws[key]
  }

  function AfterOp(cfg: Config, ws: Windows, op: Op): Windows {
    match op
    case Request(key, call) => ws[key := AfterCall(WindowFor(ws, key, call.now), cfg.LimitFor(key), call)]
    case Cleanup(now) => CleanUp(cfg, ws, now)
  }

  /** The answers of a run, with clean-up or as if it never ran. */
  function Answers(cfg: Config, ws: Windows, ops: seq<Op>, evict: bool): seq<bool>
    decreases |ops|
  {
    if ops == [] then []
    else
      match ops[0]
      case Request(key, call) =>
        [Allowed(WindowFor(ws, key, call.now), cfg.LimitFor(key), call)]
        + Answers(cfg, AfterOp(cfg, ws, ops[0]), ops[1..], evict)
      case Cleanup(now) =>
        Answers(cfg, if evict then CleanUp(cfg, ws, now) else ws, ops[1..], evict)
  }

  ghost predicate OrderedOps(ops: seq<Op>, from: real) {
    ops != [] ==> from <= ops[0].Time() && OrderedOps(ops[1..], ops[0].Time())
  }

  /** No memory that matters is lost: the window is over, or nothing is ever admitted. */
  ghost predicate Forgettable(cfg: Config, key: Key) {
    cfg.LimitFor(key).size <= cfg.cleanupInterval || cfg.LimitFor(key).max <= 0
  }

  ghost predicate Proper(w: Window) {
    forall i :: 0 <= i < |w.requests| ==> w.requests[i] <= w.lastSeen
  }

  ghost predicate Regular(w: Window, now: real) {
    Proper(w) && w.lastSeen <= now
  }

  /** A deleted window has nothing left inside the key's window length. */
  ghost predicate Stale(w: Window, l: Limit, now: real) {
    forall i :: 0 <= i < |w.requests| ==> w.requests[i] <= now - l.size
  }

  ghost predicate Same(cfg: Config, evicted: Windows, kept: Windows, now: real) {
    forall key :: key in kept || key in evicted ==>
      && key in kept && Regular(kept[key], now)
      && (cfg.LimitFor(key).max <= 0 ==> kept[key].requests == [])
      && (if key in evicted then evicted[key] == kept[key] else Stale(kept[key], cfg.LimitFor(key), now))
  }

  lemma CleanupKeepsSame(cfg: Config, evicted: Windows, kept: Windows, now: real)
    requires Same(cfg, evicted, kept, now)
    requires forall key :: Forgettable(cfg, key)
    ensures Same(cfg, CleanUp(cfg, evicted, now), kept, now)
  {
    forall key | key in evicted && key !in CleanUp(cfg, evicted, now)
      ensures Stale(kept[key], cfg.LimitFor(key), now)
    {
      assert Forgettable(cfg, key);
    }
  }

  lemma CallKeepsRegular(w: Window, l: Limit, c: Call)
    requires Regular(w, c.now) && (l.max <= 0 ==> w.requests == [])
    ensures Regular(AfterCall(w, l, c), c.now)
    ensures l.max <= 0 ==> AfterCall(w, l, c).requests == []
  {
    PruneBounded(w.requests, c.now - l.size, c.now);
  }

  /** A request finds the same remembered times on both sides. */
  lemma SameWindow(cfg: Config, evicted: Windows, kept: Windows, key: Key, now: real)
    requires Same(cfg, evicted, kept, now)
    ensures var cutoff := now - cfg.LimitFor(key).size;
            Prune(WindowFor(evicted, key, now).requests, cutoff) == Prune(WindowFor(kept, key, now).requests, cutoff)
    ensures Regular(WindowFor(kept, key, now), now)
    ensures cfg.LimitFor(key).max <= 0 ==> WindowFor(kept, key, now).requests == []
  {
    if key in kept && key !in evicted {
      PruneNone(kept[key].requests, now - cfg.LimitFor(key).size);
    }
  }

  lemma RequestKeepsSame(cfg: Config, evicted: Windows, kept: Windows, op: Op)
    requires op.Request? && Same(cfg, evicted, kept, op.call.now)
    ensures Allowed(WindowFor(evicted, op.key, op.call.now), cfg.LimitFor(op.key), op.call) ==
            Allowed(WindowFor(kept, op.key, op.call.now), cfg.LimitFor(op.key), op.call)
    ensures Same(cfg, AfterOp(cfg, evicted, op), AfterOp(cfg, kept, op), op.call.now)
  {
    SameWindow(cfg, evicted, kept, op.key, op.call.now);
    CallKeepsRegular(WindowFor(kept, op.key, op.call.now), cfg.LimitFor(op.key), op.call);
    var evicted', kept' := AfterOp(cfg, evicted, op), AfterOp(cfg, kept, op);
    assert evicted'[op.key] == kept'[op.key];
    forall key | key in kept' || key in evicted'
      ensures key in kept' && Regular(kept'[key], op.call.now)
      ensures cfg.LimitFor(key).max <= 0 ==> kept'[key].requests == []
      ensures if key in evicted' then evicted'[key] == kept'[key]
              else Stale(kept'[key], cfg.LimitFor(key), op.call.now)
    {
      if key != op.key {
        assert key in kept && kept'[key] == kept[key];
      }
    }
  }

  lemma {:induction false} SameAnswers(cfg: Config, evicted: Windows, kept: Windows, ops: seq<Op>, now: real)
    requires Same(cfg, evicted, kept, now) && OrderedOps(ops, now)
    requires forall key :: Forgettable(cfg, key)
    ensures Answers(cfg, evicted, ops, true) == Answers(cfg, kept, ops, false)
    decreases |ops|
  {
    if ops == [] {
    } else {
      var op := ops[0];
      assert Same(cfg, evicted, kept, op.Time());
      match op
      case Request(_, _) =>
        RequestKeepsSame(cfg, evicted, kept, op);
        SameAnswers(cfg, AfterOp(cfg, evicted, op), AfterOp(cfg, kept, op), ops[1..], op.Time());
      case Cleanup(at) =>
        CleanupKeepsSame(cfg, evicted, kept, at);
        SameAnswers(cfg, CleanUp(cfg, evicted, at), kept, ops[1..], at);
    }
  }

  /** Use up the limit, let the window be dropped while it still counts, ask for one more. */
  function OneMore(key: Key, max: nat, now: real): seq<Op> {
    [Request(key, Call(max, 0.0)), Cleanup(now), Request(key, Call(1, now))]
  }

  lemma OneMoreAnswers(cfg: Config, key: Key, now: real, evict: bool)
    requires cfg.cleanupInterval >= 0.0 && cfg.LimitFor(key).max > 0
    requires cfg.cleanupInterval < now < cfg.LimitFor(key).size
    ensures Answers(cfg, map[], OneMore(key, cfg.LimitFor(key).max, now), evict) == [true, evict]
  {
    var l := cfg.LimitFor(key);
    var ops := OneMore(key, l.max, now);
    var ws := AfterOp(cfg, map[], ops[0]);
    var after := if evict then CleanUp(cfg, ws, now) else ws;
    assert ops[1..][1..] == [ops[2]] && [ops[2]][1..] == [];
    assert Prune([], 0.0 - l.size) == [];
    assert ws[key] == Window(Copies(0.0, l.max), 0.0) by {
      assert [] + Copies(0.0, l.max) == Copies(0.0, l.max);
    }
    PruneAll(Copies(0.0, l.max), now - l.size);
    assert Prune([], now - l.size) == [];
    assert key in after <==> !evict;
    calc {
      Answers(cfg, map[], ops, evict);
      [true] + Answers(cfg, ws, ops[1..], evict);
      [true] + Answers(cfg, after, ops[1..][1..], evict);
      [true] + ([evict] + Answers(cfg, AfterOp(cfg, after, ops[2]), [], evict));
      [true, evict];
    }
  }

  /**
   Clean-up is invisible, on every sequence of requests and clean-ups, exactly
   when for every key its window is no longer than the clean-up interval or its
   limit admits nothing.
   */
  lemma EvictionInvisibleIff(cfg: Config)
    requires cfg.cleanupInterval >= 0.0
    ensures (forall ops :: OrderedOps(ops, 0.0) ==>
               Answers(cfg, map[], ops, true) == Answers(cfg, map[], ops, false))
            <==> (forall key :: Forgettable(cfg, key))
  {
    if forall key :: Forgettable(cfg, key) {
      forall ops | OrderedOps(ops, 0.0)
        ensures Answers(cfg, map[], ops, true) == Answers(cfg, map[], ops, false)
      {
        SameAnswers(cfg, map[], map[], ops, 0.0);
      }
    } else {
      var key :| !Forgettable(cfg, key);
      var now := (cfg.cleanupInterval + cfg.LimitFor(key).size) / 2.0;
      var ops := OneMore(key, cfg.LimitFor(key).max, now);
      OneMoreAnswers(cfg, key, now, true);
      OneMoreAnswers(cfg, key, now, false);
      assert [true, true][1] != [true, false][1];
      assert ops[1..][1..] == [ops[2]] && [ops[2]][1..] == [];
      assert OrderedOps([], now) && OrderedOps([ops[2]], now) && OrderedOps(ops[1..], 0.0);
    }
  }

  // ---- The limiter with requests and clean-up interleaved ----

  function WindowLimiter(cfg: Config): Limiter<Window> {
    Limiter((key: Key, now: real) => NewWindow(now),
            (key: Key, w: Window, c: Call) => Allowed(w, cfg.LimitFor(key), c),
            (key: Key, w: Window, c: Call) => AfterCall(w, cfg.LimitFor(key), c),
            (w: Window) => w.lastSeen,
            cfg.cleanupInterval)
  }

  ghost function ProperOf(cfg: Config): (Key, Window) -> bool {
    (key: Key, w: Window) => Proper(w) && (cfg.LimitFor(key).max <= 0 ==> w.requests == [])
  }

  lemma StaleCall(w: Window, l: Limit, now: real, c: Call)
    requires Stale(w, l, now) && now <= c.now
    ensures Allowed(w, l, c) == Allowed(NewWindow(c.now), l, c)
    ensures AfterCall(w, l, c) == AfterCall(NewWindow(c.now), l, c)
  {
    PruneNone(w.requests, c.now - l.size);
    PruneNone([], c.now - l.size);
  }

  /** A window with nothing left inside is as good as new. */
  lemma StaleIsAsNew(cfg: Config, key: Key, w: Window, now: real)
    requires Stale(w, cfg.LimitFor(key), now)
    ensures AsNew(WindowLimiter(cfg), key, w, now)
  {
    forall c: Call | now <= c.now
      ensures Allowed(w, cfg.LimitFor(key), c) == Allowed(NewWindow(c.now), cfg.LimitFor(key), c)
      ensures AfterCall(w, cfg.LimitFor(key), c) == AfterCall(NewWindow(c.now), cfg.LimitFor(key), c)
    {
      StaleCall(w, cfg.LimitFor(key), now, c);
    }
  }

  lemma WindowLimiterIsSane(cfg: Config)
    ensures Sane(WindowLimiter(cfg), ProperOf(cfg))
  {
    var L, regular := WindowLimiter(cfg), ProperOf(cfg);
    forall key: Key, made: real
      ensures regular(key, L.make(key, made)) && L.lastSeen(L.make(key, made)) == made
      ensures AsNew(L, key, L.make(key, made), made)
    {
      StaleIsAsNew(cfg, key, L.make(key, made), made);
    }
    forall key: Key, w: Window, c: Call | regular(key, w) && L.lastSeen(w) <= c.now
      ensures regular(key, L.use(key, w, c)) && L.lastSeen(L.use(key, w, c)) == c.now
    {
      CallKeepsRegular(w, cfg.LimitFor(key), c);
    }
  }

  lemma ForgettableForgets(cfg: Config, key: Key)
    requires Forgettable(cfg, key)
    ensures Forgets(WindowLimiter(cfg), ProperOf(cfg), key)
  {
    forall w: Window, now: real | ProperOf(cfg)(key, w) && w.lastSeen < now - cfg.cleanupInterval
      ensures AsNew(WindowLimiter(cfg), key, w, now)
    {
      StaleIsAsNew(cfg, key, w, now);
    }
  }

  /** Nothing is remembered: the limit admits nothing, or the window has no length. */
  ghost predicate Memoryless(cfg: Config, key: Key) {
    cfg.LimitFor(key).max <= 0 || cfg.LimitFor(key).size <= 0.0
  }

  lemma MemorylessIsStateless(cfg: Config, key: Key)
    requires Memoryless(cfg, key)
    ensures Stateless(WindowLimiter(cfg), ProperOf(cfg), key)
  {
    var l := cfg.LimitFor(key);
    forall w: Window, c: Call | ProperOf(cfg)(key, w) && w.lastSeen <= c.now
      ensures Allowed(w, l, c) == Allowed(NewWindow(c.now), l, c)
    {
      PruneNone(w.requests, c.now - l.size);
      PruneNone([], c.now - l.size);
    }
  }

  lemma LimitExhausts(cfg: Config, key: Key, t: real)
    requires !Memoryless(cfg, key)
    ensures Exhausts(WindowLimiter(cfg), key, cfg.LimitFor(key).max, t)
  {
    var l := cfg.LimitFor(key);
    PruneNone([], t - l.size);
    assert [] + Copies(t, l.max) == Copies(t, l.max);
    PruneAll(Copies(t, l.max), t - l.size);
  }

  lemma LongWindowShows(cfg: Config, key: Key, d: Discipline) returns (es: seq<Event>)
    requires cfg.cleanupInterval >= 0.0 && !Forgettable(cfg, key)
    ensures Shows(WindowLimiter(cfg), es, key, d)
  {
    var l := cfg.LimitFor(key);
    var t := (cfg.cleanupInterval + l.size) / 2.0;
    PruneNone([], 0.0 - l.size);
    PruneNone([], t - l.size);
    var used := AfterCall(NewWindow(0.0), l, Call(l.max, 0.0));
    assert used.requests == Copies(0.0, l.max) by {
      assert [] + Copies(0.0, l.max) == Copies(0.0, l.max);
    }
    PruneAll(used.requests, t - l.size);
    es := SlowShows(WindowLimiter(cfg), key, d, l.max, 1, t);
  }

  /**
   Clean-up interleaved with requests in any way that `d` allows is invisible to a
   key exactly when its window is within the clean-up interval or its limit admits
   nothing and, unless nothing is remembered at all, no request of the key overlaps
   with a deletion.
   */
  lemma InterleavedEvictionIff(cfg: Config, key: Key, d: Discipline)
    requires cfg.cleanupInterval >= 0.0
    ensures Invisible(WindowLimiter(cfg), key, d) <==>
            Forgettable(cfg, key) && (d == STRICT || Memoryless(cfg, key))
  {
    var L, t := WindowLimiter(cfg), cfg.cleanupInterval + 1.0;
    WindowLimiterIsSane(cfg);
    if !Forgettable(cfg, key) {
      var es := LongWindowShows(cfg, key, d);
    } else if Memoryless(cfg, key) {
      MemorylessIsStateless(cfg, key);
      StatelessIsInvisible(L, key, d, ProperOf(cfg));
    } else if d == STRICT {
      ForgettableForgets(cfg, key);
      ForgettingIsInvisible(L, key, ProperOf(cfg));
    } else {
      LimitExhausts(cfg, key, t);
      if d.lateUse {
        var es := LateUseShows(L, key, d, cfg.LimitFor(key).max, t);
      } else {
        var es := PendingShows(L, key, d, cfg.LimitFor(key).max, t);
      }
    }
  }

  /** A request that nothing comes between is the atomic step. */
  lemma AtomicRequest(cfg: Config, s: State<Window>, t: Thread, key: Key, call: Call)
    requires Tabled(s) && s.next !in s.objects
    requires forall j, k :: j in s.table && k in s.table && s.table[j] == s.table[k] ==> j == k
    ensures var L := WindowLimiter(cfg);
            var s' := UseStep(L, FindStep(L, s, t, key, call.now), t, key, call);
            && Tabled(s') && Values(s') == AfterOp(cfg, Values(s), Request(key, call))
            && s'.log == s.log +
                         [Outcome(key, call, Allowed(WindowFor(Values(s), key, call.now), cfg.LimitFor(key), call))]
  {
    FindThenUse(WindowLimiter(cfg), s, t, key, call);
  }

  /** The times of the admissions among the answers. */
  function Times(outcomes: seq<Outcome>): seq<real> {
    if outcomes == [] then []
    else
      var o := Last(outcomes);
      Times(Front(outcomes)) + if o.ok then Copies(o.call.now, o.call.n) else []
  }

  lemma TimesOne(outcomes: seq<Outcome>, o: Outcome)
    ensures Times(outcomes + [o]) == Times(outcomes) + if o.ok then Copies(o.call.now, o.call.n) else []
  {
    assert Front(outcomes + [o]) == outcomes;
  }

  lemma {:induction false} PlayedIsHistory(cfg: Config, key: Key, start: real, calls: seq<Call>)
    ensures Play(WindowLimiter(cfg), key, NewWindow(start), calls).1 == After(cfg.LimitFor(key), start, calls)
    ensures Times(Play(WindowLimiter(cfg), key, NewWindow(start), calls).0) == History(cfg.LimitFor(key), start, calls)
    decreases |calls|
  {
    if calls == [] {
    } else {
      PlayedIsHistory(cfg, key, start, Front(calls));
      var (outcomes, w) := Play(WindowLimiter(cfg), key, NewWindow(start), Front(calls));
      TimesOne(outcomes, Outcome(key, Last(calls), Allowed(w, cfg.LimitFor(key), Last(calls))));
    }
  }

  /**
   The limiter's bound per key: with clean-up running, undisturbed, a key whose
   window is within the clean-up interval has at most its limit of admissions, or
   none, in every interval of its window length, over any run.
   */
  lemma AdmittedPerKey(cfg: Config, es: seq<Event>, key: Key, x: real)
    requires Forgettable(cfg, key)
    requires Legal(WindowLimiter(cfg), es) && Obeys(WindowLimiter(cfg), es, key, STRICT)
    ensures var l := cfg.LimitFor(key);
            var inside := Within(Times(OfKey(Eviction.After(WindowLimiter(cfg), es, true).log, key)), x, l.size);
            |inside| <= l.max || inside == []
  {
    WindowLimiterIsSane(cfg);
    ForgettableForgets(cfg, key);
    var made := AnswersOfOneObject(WindowLimiter(cfg), es, key, ProperOf(cfg));
    OrderedFromStart(made, CallsOf(es, key), Eviction.After(WindowLimiter(cfg), es, true).clock);
    PlayedIsHistory(cfg, key, made, CallsOf(es, key));
    AtMostMaxInEveryWindow(cfg.LimitFor(key), made, CallsOf(es, key), x);
  }

  /** Admissions among the answers in the window of length `size` that ends at `now`. */
  function Recent(before: seq<Outcome>, now: real, size: real): nat {
    |Within(Times(before), now - size, size)|
  }

  /**
   The law of the limiter per key: with clean-up running, undisturbed, the k-th
   request of a key is admitted if and only if it and the admissions for the key in
   the window that ends at it are within the limit.
   */
  lemma AdmittedPerKeyIff(cfg: Config, es: seq<Event>, key: Key, k: nat)
    requires Forgettable(cfg, key)
    requires Legal(WindowLimiter(cfg), es) && Obeys(WindowLimiter(cfg), es, key, STRICT)
    requires k < |OfKey(Eviction.After(WindowLimiter(cfg), es, true).log, key)|
    ensures var answers := OfKey(Eviction.After(WindowLimiter(cfg), es, true).log, key);
            var c := answers[k].call;
            var size := if key in cfg.perKey && cfg.perKey[key].windowSize > 0.0 then cfg.perKey[key].windowSize
                        else cfg.default.size;
            answers[k].ok <==> Recent(answers[..k], c.now, size) + c.n <= cfg.LimitFor(key).max
  {
    var L, calls := WindowLimiter(cfg), CallsOf(es, key);
    WindowLimiterIsSane(cfg);
    ForgettableForgets(cfg, key);
    var made := AnswersOfOneObject(L, es, key, ProperOf(cfg));
    PlayLength(L, key, NewWindow(made), calls);
    PlayedAdmittedIff(cfg, key, made, calls, Eviction.After(L, es, true).clock, k);
  }

  lemma PlayedAdmittedIff(cfg: Config, key: Key, made: real, calls: seq<Call>, end: real, k: nat)
    requires OrderedFrom(calls, made, end) && k < |calls|
    ensures var answers := Play(WindowLimiter(cfg), key, NewWindow(made), calls).0;
            && |answers| == |calls| && answers[k].call == calls[k]
            && (answers[k].ok <==>
                Recent(answers[..k], calls[k].now, cfg.LimitFor(key).size) + calls[k].n <= cfg.LimitFor(key).max)
  {
    PlayAt(WindowLimiter(cfg), key, NewWindow(made), calls, k);
    OrderedUpTo(calls, made, end, k);
    PlayedIsHistory(cfg, key, made, calls[..k]);
    AdmittedIff(cfg.LimitFor(key), made, calls[..k], calls[k]);
  }

  /** A key without a rule has the default limit. */
  lemma DefaultLimit(cfg: Config, key: Key)
    requires key !in cfg.perKey
    ensures cfg.LimitFor(key) == cfg.default
  {
  }

  /** The key's rule never admits anything. */
  ghost predicate Blocked(cfg: Config, key: Key) {
    forall start: real, calls: seq<Call>, c: Call ::
      OrderedFrom(calls, start, c.now) && c.n >= 1 ==>
        !Allowed(After(cfg.LimitFor(key), start, calls), cfg.LimitFor(key), c)
  }

  /**
   A rule of a key blocks the key for good if and only if its rate times its own
   window is below one request, or, without a rate, the default limit is: a rate
   without a window length is multiplied by zero, although the window itself then
   falls back to the default.
   */
  lemma RuleBlocksIff(cfg: Config, key: Key)
    requires key in cfg.perKey
    ensures var rule := cfg.perKey[key];
            Blocked(cfg, key) <==>
            if rule.requestsPerSecond > 0 then rule.requestsPerSecond as real * rule.windowSize < 1.0
            else cfg.default.max < 1
  {
    RuleAtLeast(cfg, key, 1);
    BlockedIff(cfg, key);
  }

  /** The limit of a key with a rule is its rate times its own window, rounded down, or the default without a rate. */
  lemma RuleAtLeast(cfg: Config, key: Key, m: int)
    requires key in cfg.perKey && m >= 1
    ensures var rule := cfg.perKey[key];
            cfg.LimitFor(key).max >= m <==>
            if rule.requestsPerSecond > 0 then rule.requestsPerSecond as real * rule.windowSize >= m as real
            else cfg.default.max >= m
  {
    TruncateAtLeast(cfg.perKey[key].requestsPerSecond as real * cfg.perKey[key].windowSize, m);
  }

  lemma TruncateAtLeast(x: real, m: int)
    requires m >= 1
    ensures Truncate(x) >= m <==> x >= m as real
  {
  }

  lemma BlockedIff(cfg: Config, key: Key)
    ensures Blocked(cfg, key) <==> cfg.LimitFor(key).max < 1
  {
    var l := cfg.LimitFor(key);
    if l.max >= 1 {
      var calls: seq<Call>, c := [], Call(1, 0.0);
      PruneNone([], c.now - l.size);
      assert After(l, 0.0, calls) == NewWindow(0.0);
      assert OrderedFrom(calls, 0.0, c.now) && c.n >= 1 && Allowed(After(l, 0.0, calls), l, c);
    }
  }

  // ---- The objects ----

  /** `slidingWindow`, with its counters. */
  class LiveWindow {
    var requests: seq<real>
    var lastSeen: real
    var requested: nat
    var allowed: nat
    var rejected: nat

    ghost function State(): Window
      reads this
    {
      Window(requests, lastSeen)
    }

    constructor (now: real)
      ensures State() == NewWindow(now) && requested == allowed + rejected
    {
      requests, lastSeen := [], now;
      requested, allowed, rejected := 0, 0, 0;
    }

    method AllowN(n: nat, windowSize: real, maxRequests: int, now: real) returns (ok: bool)
      requires requested == allowed + rejected
      modifies this
      ensures requested == allowed + rejected && requested == old(requested) + n
      ensures State() == AfterCall(old(State()), Limit(windowSize, maxRequests), Call(n, now))
      ensures ok == Allowed(old(State()), Limit(windowSize, maxRequests), Call(n, now))
      ensures allowed == old(allowed) + if ok then n else 0
    {
      var cutoff := now - windowSize;
      var validRequests: seq<real> := [];
      var i := 0;
      assert requests[..0] == [] && requests[..|requests|] == requests;
      while i < |requests|
        invariant 0 <= i <= |requests|
        invariant validRequests == Prune(requests[..i], cutoff)
        modifies {}
      {
        assert requests[..i + 1] == requests[..i] + [requests[i]];
        FilterConcat(requests[..i], [requests[i]], (t: real) => t > cutoff);
        if requests[i] > cutoff {
          validRequests := validRequests + [requests[i]];
        }
        i := i + 1;
      }
      requests := validRequests;
      requested := requested + n;
      lastSeen := now;
      if |requests| + n <= maxRequests {
        var k := 0;
        while k < n
          invariant 0 <= k <= n
          invariant requests == validRequests + Copies(now, k)
          modifies this`requests
        {
          requests := requests + [now];
          k := k + 1;
          assert validRequests + Copies(now, k) == validRequests + Copies(now, k - 1) + [now];
        }
        allowed := allowed + n;
        return true;
      }
      rejected := rejected + n;
      return false;
    }
  }
}
