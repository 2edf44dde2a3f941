/**
 Replay protection of `TokenTransmissionGuard`: a transmission is accepted if it
 is fresh and its nonce has not been claimed; claimed nonces are forgotten after
 twice the maximum age. The freshness check, reading the time that will be stored
 with the nonce, and the claim are three steps, with other goroutines in between.
 Times are integers on a clock that never goes back.
 */
module NonceGuard {
  import opened Common

  type Time = int

  type Nonce = string

  type Thread = nat

  /** What a transmission carries that decides about it. */
  datatype Transmission = Transmission(nonce: Nonce, timestamp: Time, token: Option<string>)

  /**
   A validation that passed the freshness check at `checkedAt` and has not claimed
   yet; `stamp` is the time it will store, once it has read it.
   */
  datatype Pending = Pending(tx: Transmission, checkedAt: Time, stamp: Option<Time>)

  datatype Guard = Guard(maxAge: Time, clock: Time, nonceCache: map<Nonce, Time>, pending: map<Thread, Pending>)

  datatype Event =
    | Check(thread: Thread, tx: Transmission, now: Time)
    | Stamp(thread: Thread, now: Time)
    | Claim(thread: Thread, now: Time)
    | Evict(nonce: Nonce, now: Time)

  function NewGuard(maxAge: Time, start: Time): Guard {
    Guard(maxAge, start, map[], map[])
  }

  predicate Fresh(g: Guard, tx: Transmission, now: Time) {
    now - tx.timestamp <= g.maxAge
  }

  function CheckStep(g: Guard, thread: Thread, tx: Transmission, now: Time): Guard {
    g.(clock := now, pending := if Fresh(g, tx, now) then g.pending[thread := Pending(tx, now, None)] else g.pending)
  }

  function StampStep(g: Guard, thread: Thread, now: Time): Guard
    requires thread in g.pending
  {
    g.(clock := now, pending := g.pending[thread := g.pending[thread].(stamp := Some(now))])
  }

  /** `LoadOrStore` of the nonce, then the token: a claim without a token still burns the nonce. */
  function ClaimStep(g: Guard, thread: Thread, now: Time): Guard
    requires thread in g.pending && g.pending[thread].stamp.Some?
  {
    var nonce, stamp := g.pending[thread].tx.nonce, g.pending[thread].stamp.value;
    g.(clock := now, pending := g.pending - {thread},
       nonceCache := if nonce in g.nonceCache then g.nonceCache else g.nonceCache[nonce := stamp])
  }

  predicate Enabled(g: Guard, e: Event) {
    && g.clock <= e.now
    && match e
       case Check(thread, _, _) => thread !in g.pending
       case Stamp(thread, _) => thread in g.pending && g.pending[thread].stamp.None?
       case Claim(thread, _) => thread in g.pending && g.pending[thread].stamp.Some?
       case Evict(nonce, now) => nonce in g.nonceCache && g.nonceCache[nonce] < now - 2 * g.maxAge
  }

  function Next(g: Guard, e: Event): Guard
    requires Enabled(g, e)
  {
    match e
    case Check(thread, tx, now) => CheckStep(g, thread, tx, now)
    case Stamp(thread, now) => StampStep(g, thread, now)
    case Claim(thread, now) => ClaimStep(g, thread, now)
    case Evict(nonce, now) => g.(clock := now, nonceCache := g.nonceCache - {nonce})
  }

  /** The event returns the token of `tx` to its caller. */
  predicate Accepts(g: Guard, e: Event, tx: Transmission) {
    && e.Claim? && e.thread in g.pending && g.pending[e.thread].tx == tx && g.pending[e.thread].stamp.Some?
    && tx.nonce !in g.nonceCache && tx.token.Some?
  }

  function After(g: Guard, es: seq<Event>): Guard {
    if es == [] then g
    else
      var before := After(g, Front(es));
      if Enabled(before, Last(es)) then Next(before, Last(es)) else before
  }

  ghost predicate Legal(g: Guard, es: seq<Event>) {
    es == [] || (Legal(g, Front(es)) && Enabled(After(g, Front(es)), Last(es)))
  }

  /** No validation takes longer than `stall` from its freshness check to its claim. */
  ghost predicate Prompt(g: Guard, es: seq<Event>, stall: Time) {
    forall i :: 0 <= i < |es| && es[i].Claim? && es[i].thread in After(g, es[..i]).pending ==>
      es[i].now - After(g, es[..i]).pending[es[i].thread].checkedAt <= stall
  }

  ghost predicate AcceptedAt(g: Guard, es: seq<Event>, i: nat, tx: Transmission) {
    i < |es| && Accepts(After(g, es[..i]), es[i], tx)
  }

  /** The time stored with the nonce when event `i` accepts. */
  ghost function StampOf(g: Guard, es: seq<Event>, i: nat, tx: Transmission): Time
    requires AcceptedAt(g, es, i, tx)
  {
    After(g, es[..i]).pending[es[i].thread].stamp.value
  }

  // ---- At most once ----

  ghost predicate PendingFresh(g: Guard) {
    forall t :: t in g.pending ==> g.pending[t].checkedAt - g.pending[t].tx.timestamp <= g.maxAge
  }

  lemma {:induction false} RunPendingFresh(g: Guard, es: seq<Event>)
    requires Legal(g, es) && PendingFresh(g)
    ensures PendingFresh(After(g, es)) && After(g, es).maxAge == g.maxAge
  {
    if es == [] {
    } else {
      RunPendingFresh(g, Front(es));
    }
  }

  lemma {:induction false} LegalPrefix(g: Guard, es: seq<Event>, n: nat)
    requires Legal(g, es) && n <= |es|
    ensures Legal(g, es[..n]) && (n < |es| ==> Enabled(After(g, es[..n]), es[n]))
  {
    if n == |es| {
      assert es[..n] == es;
    } else {
      assert Front(es)[..n] == es[..n];
      if n == |es| - 1 {
        assert es[..n] == Front(es);
      } else {
        LegalPrefix(g, Front(es), n);
      }
    }
  }

  /** After a claim at `a` the nonce stays claimed until more than twice the age has passed. */
  ghost predicate Remembered(g: Guard, nonce: Nonce, a: Time) {
    (nonce in g.nonceCache && g.nonceCache[nonce] == a) || g.clock > a + 2 * g.maxAge
  }

  lemma {:induction false} StaysRemembered(g: Guard, es: seq<Event>, n: nat, nonce: Nonce, a: Time)
    requires Legal(g, es) && PendingFresh(g) && n <= |es| && Remembered(After(g, es[..n]), nonce, a)
    ensures Remembered(After(g, es), nonce, a)
    decreases |es|
  {
    if n == |es| {
      assert es[..n] == es;
    } else {
      assert Front(es)[..n] == es[..n];
      StaysRemembered(g, Front(es), n, nonce, a);
      RunPendingFresh(g, Front(es));
    }
  }

  lemma ClaimIsRemembered(g: Guard, es: seq<Event>, i: nat, tx: Transmission)
    requires Legal(g, es) && AcceptedAt(g, es, i, tx)
    ensures i + 1 <= |es| && Remembered(After(g, es[..i + 1]), tx.nonce, StampOf(g, es, i, tx))
  {
    LegalPrefix(g, es, i);
    assert Front(es[..i + 1]) == es[..i] && Last(es[..i + 1]) == es[i];
  }

  /**
   Eviction outlasts the freshness check: in every run whose validations stall at
   most `stall`, a transmission whose timestamp is at most maxAge - stall ahead of
   the time stored at its first acceptance is accepted once only.
   */
  lemma AcceptedAtMostOnce(g: Guard, es: seq<Event>, stall: Time, tx: Transmission, i: nat, j: nat)
    requires Legal(g, es) && PendingFresh(g) && Prompt(g, es, stall)
    requires i <= j && AcceptedAt(g, es, i, tx) && AcceptedAt(g, es, j, tx)
    requires tx.timestamp + stall <= StampOf(g, es, i, tx) + g.maxAge
    ensures i == j
  {
    if i < j {
      LegalPrefix(g, es, j);
      assert es[..j][..i + 1] == es[..i + 1] && es[..j][..i] == es[..i] && es[..j][i] == es[i];
      ClaimIsRemembered(g, es[..j], i, tx);
      StaysRemembered(g, es[..j], i + 1, tx.nonce, StampOf(g, es, i, tx));
      RunPendingFresh(g, es[..j]);
      assert false;
    }
  }

  // ---- What is accepted ----

  /** The nonce was claimed and not evicted since. */
  ghost predicate Claimed(g: Guard, es: seq<Event>, nonce: Nonce) {
    es != [] &&
    var before := After(g, Front(es));
    match Last(es)
    case Claim(thread, _) =>
      Claimed(g, Front(es), nonce) || (thread in before.pending && before.pending[thread].tx.nonce == nonce)
    case Evict(n, _) => n != nonce && Claimed(g, Front(es), nonce)
    case _ => Claimed(g, Front(es), nonce)
  }

  /** The transmission a thread found fresh and has not claimed yet. */
  function PassedCheck(es: seq<Event>, maxAge: Time, thread: Thread): Option<Transmission> {
    if es == [] then None
    else
      match Last(es)
      case Check(t, tx, now) =>
        if t != thread then PassedCheck(Front(es), maxAge, thread)
        else if now <= tx.timestamp + maxAge then Some(tx) else None
      case Claim(t, _) => if t == thread then None else PassedCheck(Front(es), maxAge, thread)
      case _ => PassedCheck(Front(es), maxAge, thread)
  }

  lemma {:induction false} RunHistory(g: Guard, es: seq<Event>, nonce: Nonce, thread: Thread)
    requires Legal(g, es) && g.nonceCache == map[] && g.pending == map[]
    ensures nonce in After(g, es).nonceCache <==> Claimed(g, es, nonce)
    ensures PassedCheck(es, g.maxAge, thread) ==
            if thread in After(g, es).pending then Some(After(g, es).pending[thread].tx) else None
    ensures After(g, es).maxAge == g.maxAge
  {
    if es == [] {
    } else {
      RunHistory(g, Front(es), nonce, thread);
    }
  }

  /**
   In every run a claim is accepted if and only if its thread found the transmission
   fresh, the transmission has a token, and its nonce is not claimed: fresh first
   uses are never refused.
   */
  lemma AcceptsIff(maxAge: Time, start: Time, es: seq<Event>, thread: Thread, now: Time, tx: Transmission)
    requires Legal(NewGuard(maxAge, start), es)
    requires Enabled(After(NewGuard(maxAge, start), es), Claim(thread, now))
    ensures Accepts(After(NewGuard(maxAge, start), es), Claim(thread, now), tx) <==>
            && PassedCheck(es, maxAge, thread) == Some(tx) && tx.token.Some?
            && !Claimed(NewGuard(maxAge, start), es, tx.nonce)
  {
    RunHistory(NewGuard(maxAge, start), es, tx.nonce, thread);
  }

  // ---- Exactly when ----

  /** Accept with stamp `a`, check again at the last fresh moment, evict and claim `stall` later. */
  function Replay(tx: Transmission, maxAge: Time, stall: Time, a: Time): seq<Event> {
    var checked := tx.timestamp + maxAge;
    [Check(0, tx, a), Stamp(0, a), Claim(0, a),
     Check(1, tx, checked), Evict(tx.nonce, checked + stall), Stamp(1, checked + stall), Claim(1, checked + stall)]
  }

  lemma Extend(g: Guard, es: seq<Event>, e: Event)
    requires Legal(g, es) && Enabled(After(g, es), e)
    ensures Legal(g, es + [e]) && After(g, es + [e]) == Next(After(g, es), e)
  {
    assert Front(es + [e]) == es;
  }

  /** The states of the replay run, one by one. */
  lemma ReplayStates(tx: Transmission, maxAge: Time, stall: Time, a: Time)
    requires maxAge >= 0 && stall >= 0 && tx.token.Some?
    requires a - tx.timestamp <= maxAge && tx.timestamp + stall > a + maxAge
    ensures var g, es := NewGuard(maxAge, a), Replay(tx, maxAge, stall, a);
            var checked := tx.timestamp + maxAge;
            && Legal(g, es)
            && After(g, es[..2]) == Guard(maxAge, a, map[], map[0 := Pending(tx, a, Some(a))])
            && After(g, es[..6]) ==
               Guard(maxAge, checked + stall, map[], map[1 := Pending(tx, checked, Some(checked + stall))])
  {
    var g, es := NewGuard(maxAge, a), Replay(tx, maxAge, stall, a);
    var checked := tx.timestamp + maxAge;
    assert es[..0] == [];
    Extend(g, es[..0], es[0]);
    assert es[..0] + [es[0]] == es[..1];
    Extend(g, es[..1], es[1]);
    assert es[..1] + [es[1]] == es[..2];
    assert After(g, es[..2]).pending == map[0 := Pending(tx, a, Some(a))];
    Extend(g, es[..2], es[2]);
    assert es[..2] + [es[2]] == es[..3];
    assert After(g, es[..3]) == Guard(maxAge, a, map[tx.nonce := a], map[]);
    Extend(g, es[..3], es[3]);
    assert es[..3] + [es[3]] == es[..4];
    Extend(g, es[..4], es[4]);
    assert es[..4] + [es[4]] == es[..5];
    assert After(g, es[..5]) == Guard(maxAge, checked + stall, map[], map[1 := Pending(tx, checked, None)]);
    Extend(g, es[..5], es[5]);
    assert es[..5] + [es[5]] == es[..6];
    Extend(g, es[..6], es[6]);
    assert es[..6] + [es[6]] == es;
  }

  lemma ReplayAcceptsTwice(tx: Transmission, maxAge: Time, stall: Time, a: Time)
    requires maxAge >= 0 && stall >= 0 && tx.token.Some?
    requires a - tx.timestamp <= maxAge && tx.timestamp + stall > a + maxAge
    ensures var g, es := NewGuard(maxAge, a), Replay(tx, maxAge, stall, a);
            && Legal(g, es) && Prompt(g, es, stall)
            && AcceptedAt(g, es, 2, tx) && StampOf(g, es, 2, tx) == a && AcceptedAt(g, es, 6, tx)
  {
    ReplayStates(tx, maxAge, stall, a);
  }

  /** A run in which `tx` is accepted by event `i`, which stores time `a`, and by event `j` no earlier. */
  ghost predicate AcceptedTwice(g: Guard, es: seq<Event>, stall: Time, a: Time, tx: Transmission, i: nat, j: nat) {
    && Legal(g, es) && PendingFresh(g) && Prompt(g, es, stall)
    && i <= j && AcceptedAt(g, es, i, tx) && AcceptedAt(g, es, j, tx) && StampOf(g, es, i, tx) == a
  }

  ghost predicate OnceInEveryRun(maxAge: Time, stall: Time, a: Time, tx: Transmission) {
    forall g: Guard, es, i, j :: g.maxAge == maxAge && AcceptedTwice(g, es, stall, a, tx, i, j) ==> i == j
  }

  /**
   For a transmission that is fresh at `a`: once accepted and stored with time `a`
   it is never accepted again, in any run whose validations stall at most `stall`,
   if and only if its timestamp plus that stall is at most maxAge ahead of `a`.
   */
  lemma AtMostOnceIff(maxAge: Time, stall: Time, a: Time, tx: Transmission)
    requires maxAge >= 0 && stall >= 0 && tx.token.Some? && a - tx.timestamp <= maxAge
    ensures OnceInEveryRun(maxAge, stall, a, tx) <==> tx.timestamp + stall <= a + maxAge
  {
    if tx.timestamp + stall <= a + maxAge {
      forall g: Guard, es, i, j | g.maxAge == maxAge && AcceptedTwice(g, es, stall, a, tx, i, j)
        ensures i == j
      {
        AcceptedAtMostOnce(g, es, stall, tx, i, j);
      }
    } else {
      ReplayAcceptsTwice(tx, maxAge, stall, a);
      assert AcceptedTwice(NewGuard(maxAge, a), Replay(tx, maxAge, stall, a), stall, a, tx, 2, 6);
    }
  }

  // ---- The object ----

  class TokenTransmissionGuard {
    const maxTransmissionAge: Time
    var nonceCache: map<Nonce, Time>

    constructor (maxAge: Time)
      ensures maxTransmissionAge == maxAge && nonceCache == map[]
    {
      maxTransmissionAge := maxAge;
      nonceCache := map[];
    }

    /** The claim, with the time read before it, and the token; None is an error. */
    method ClaimNonce(tx: Transmission, stamp: Time, ghost now: Time, ghost g: Guard, ghost thread: Thread)
      returns (token: Option<string>)
      requires g.nonceCache == nonceCache && thread in g.pending
      requires g.pending[thread].tx == tx && g.pending[thread].stamp == Some(stamp)
      modifies this
      ensures nonceCache == ClaimStep(g, thread, now).nonceCache
      ensures token == if Accepts(g, Claim(thread, now), tx) then tx.token else None
    {
      if tx.nonce in nonceCache {
        return None;
      }
      nonceCache := nonceCache[tx.nonce := stamp];
      return tx.token;
    }

    /** One tick of `cleanupNonces`: what goes is what `Evict` allows, and all of it. */
    method CleanupNonces(now: Time)
      modifies this
      ensures nonceCache == map n | n in old(nonceCache) &&
                                    !(old(nonceCache)[n] < now - 2 * maxTransmissionAge) :: old(nonceCache)[n]
    {
      var cutoff := now - maxTransmissionAge * 2;
      var keys := nonceCache.Keys;
      while keys != {}
        invariant keys <= nonceCache.Keys <= old(nonceCache).Keys
        invariant forall n :: n in nonceCache ==> nonceCache[n] == old(nonceCache)[n]
        invariant forall n :: n in nonceCache && n !in keys ==> !(nonceCache[n] < cutoff)
        invariant forall n :: n in old(nonceCache) && !(old(nonceCache)[n] < cutoff) ==> n in nonceCache
        decreases |keys|
      {
        var nonce :| nonce in keys;
        keys := keys - {nonce};
        if nonceCache[nonce] < cutoff {
          nonceCache := nonceCache - {nonce};
        }
      }
    }
  }
}
