/**
 `MiddlewareChain.Apply`: bubble sort by descending priority, then wrap the
 handler from the last middleware to the first.
 */
module Middleware {
  import opened Sorting

  /** A middleware: its priority and a tag for its identity. */
  datatype Middleware = Middleware(priority: int, name: string)

  /** Larger priorities come first. */
  predicate Before(a: Middleware, b: Middleware) {
    a.priority > b.priority
  }

  lemma BeforeIsStrictWeak()
    ensures StrictWeak(Before)
  {
  }

  /** The handler a list of middlewares builds: the first one is outermost. */
  function Wrap<H>(apply: (Middleware, H) -> H, ms: seq<Middleware>, handler: H): H {
    if ms == [] then handler else apply(ms[0], Wrap(apply, ms[1..], handler))
  }

  /** From index `m` on, nothing has a larger priority than what stands before it. */
  ghost predicate Settled(s: seq<Middleware>, m: nat) {
    forall p, q :: m <= q < |s| && 0 <= p < q ==> s[p].priority >= s[q].priority
  }

  lemma SwapKeepsSettled(s: seq<Middleware>, m: nat, j: nat)
    requires Settled(s, m) && j + 1 < m <= |s|
    ensures Settled(s[j := s[j + 1]][j + 1 := s[j]], m)
  {
  }

  /** The inner loop: one more element, the smallest of the first `m`, reaches its place. */
  method BubblePass(a: array<Middleware>, m: nat)
    requires 0 < m <= a.Length && Settled(a[..], m)
    modifies a
    ensures Sort(Before, a[..]) == Sort(Before, old(a[..]))
    ensures Settled(a[..], m - 1)
  {
    BeforeIsStrictWeak();
    var j := 0;
    while j < m - 1
      invariant 0 <= j <= m - 1
      invariant Sort(Before, a[..]) == Sort(Before, old(a[..]))
      invariant Settled(a[..], m)
      invariant forall p :: 0 <= p < j ==> a[p].priority >= a[j].priority
    {
      if a[j].priority < a[j + 1].priority {
        ghost var before := a[..];
        a[j], a[j + 1] := a[j + 1], a[j];
        assert a[..] == before[j := before[j + 1]][j + 1 := before[j]];
        SwapKeepsSort(Before, before, j);
        SwapKeepsSettled(before, m, j);
      }
      j := j + 1;
    }
  }

  /** The bubble sort, in place. */
  method BubbleSort(a: array<Middleware>)
    modifies a
    ensures a[..] == Sort(Before, old(a[..]))
  {
    var i := 0;
    while i < a.Length - 1
      invariant 0 <= i <= a.Length && (a.Length > 0 ==> i <= a.Length - 1)
      invariant Sort(Before, a[..]) == Sort(Before, old(a[..]))
      invariant Settled(a[..], a.Length - i)
    {
      BubblePass(a, a.Length - i);
      i := i + 1;
    }
    assert Sorted(Before, a[..]);
    SortedIsFixed(Before, a[..]);
  }

  /** `Apply`: the registered list is copied, so it is not changed. */
  method Apply<H>(middlewares: seq<Middleware>, apply: (Middleware, H) -> H, handler: H) returns (current: H)
    ensures current == Wrap(apply, Sort(Before, middlewares), handler)
  {
    if |middlewares| == 0 {
      return handler;
    }
    var sortedMiddleware := new Middleware[|middlewares|](i requires 0 <= i < |middlewares| => middlewares[i]);
    assert sortedMiddleware[..] == middlewares;
    BubbleSort(sortedMiddleware);
    ghost var chain := sortedMiddleware[..];
    current := handler;
    var i := sortedMiddleware.Length;
    assert chain[i..] == [];
    while i > 0
      invariant 0 <= i <= |chain| == sortedMiddleware.Length && sortedMiddleware[..] == chain
      invariant current == Wrap(apply, chain[i..], handler)
    {
      i := i - 1;
      assert chain[i..][1..] == chain[i + 1..];
      current := apply(sortedMiddleware[i], current);
    }
    assert chain[0..] == chain;
  }

  // ---- What the composition means ----

  /** A handler as the chain of middlewares a request passes, outermost first. */
  function Trace(m: Middleware, inner: seq<Middleware>): seq<Middleware> {
    [m] + inner
  }

  lemma {:induction false} WrapTrace(ms: seq<Middleware>)
    ensures Wrap(Trace, ms, []) == ms
  {
    if ms == [] {
    } else {
      WrapTrace(ms[1..]);
      assert [ms[0]] + ms[1..] == ms;
    }
  }

  /** The middlewares of one priority, in order. */
  function OfPriority(ms: seq<Middleware>, priority: int): seq<Middleware> {
    if ms == [] then []
    else (if ms[0].priority == priority then [ms[0]] else []) + OfPriority(ms[1..], priority)
  }

  lemma {:induction false} OfPriorityArePeers(ms: seq<Middleware>, z: Middleware)
    ensures Peers(Before, ms, z) == OfPriority(ms, z.priority)
  {
    if ms == [] {
    } else {
      OfPriorityArePeers(ms[1..], z);
    }
  }

  /**
   A request passes every registered middleware once, those of higher priority
   first, and those of equal priority in the order they were registered.
   */
  lemma RequestOrder(middlewares: seq<Middleware>, priority: int)
    ensures var passed := Wrap(Trace, Sort(Before, middlewares), []);
            && multiset(passed) == multiset(middlewares)
            && (forall i, j :: 0 <= i < j < |passed| ==> passed[i].priority >= passed[j].priority)
            && OfPriority(passed, priority) == OfPriority(middlewares, priority)
  {
    BeforeIsStrictWeak();
    var sorted := Sort(Before, middlewares);
    WrapTrace(sorted);
    SortSorts(Before, middlewares);
    var z := Middleware(priority, "");
    SortIsStable(Before, middlewares, z);
    OfPriorityArePeers(sorted, z);
    OfPriorityArePeers(middlewares, z);
  }
}
