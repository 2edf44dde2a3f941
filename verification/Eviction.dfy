/**
 Background eviction of per-key limiter objects, one event per lock region or
 map operation. Both rate limiters keep a concurrent map from keys to objects: a
 request finds the object of its key, made if missing, and uses it in a later
 step; the clean-up reads when an object was last seen, and deletes its key in a
 later step, whatever the key stands for by then.
 */
module Eviction {
  import opened Common

  type Key = string

  type Ref = nat

  type Thread = nat

  datatype Call = Call(n: nat, now: real)

  /** What a limiter does with the object of one key. */
  datatype Limiter<!O> = Limiter(
    make: (Key, real) -> O,
    allowed: (Key, O, Call) -> bool,
    use: (Key, O, Call) -> O,
    lastSeen: O -> real,
    interval: real)

  datatype Object<O> = Object(key: Key, value: O)

  datatype Found = Found(key: Key, ref: Ref)

  /** A key the clean-up found idle and is about to delete; `used` if it was used since. */
  datatype Doomed = Doomed(key: Key, used: bool)

  datatype Outcome = Outcome(key: Key, call: Call, ok: bool)

  /** `objects` are all objects ever made, `found` the requests between finding and using. */
  datatype State<O> = State(
    clock: real, objects: map<Ref, Object<O>>, next: Ref, table: map<Key, Ref>,
    found: map<Thread, Found>, doomed: Option<Doomed>, log: seq<Outcome>)

  datatype Event =
    | Find(thread: Thread, key: Key, made: real, now: real)
    | Use(thread: Thread, key: Key, n: nat, now: real)
    | Inspect(key: Key, started: real, now: real)
    | Delete(now: real)

  function Start<O>(): State<O> {
    State(0.0, map[], 0, map[], map[], None, [])
  }

  /** Load, or store a new object: it may have been made some time before it is stored. */
  function FindStep<O>(L: Limiter<O>, s: State<O>, t: Thread, key: Key, made: real): State<O> {
    if key in s.table then s.(found := s.found[t := Found(key, s.table[key])])
    else
      s.(objects := s.objects[s.next := Object(key, L.make(key, made))], next := s.next + 1,
         table := s.table[key := s.next], found := s.found[t := Found(key, s.next)])
  }

  /** `allowN` on the object that was found, in the table or not. */
  function UseStep<O>(L: Limiter<O>, s: State<O>, t: Thread, key: Key, c: Call): State<O>
    requires t in s.found && s.found[t].ref in s.objects
  {
    var ref := s.found[t].ref;
    var o := s.objects[ref].value;
    s.(objects := s.objects[ref := Object(key, L.use(key, o, c))], found := s.found - {t},
       doomed := if s.doomed.Some? && s.doomed.value.key == key then Some(Doomed(key, true)) else s.doomed,
       log := s.log + [Outcome(key, c, L.allowed(key, o, c))])
  }

  /** The clean-up looks at one key; its cut-off is from when it started. */
  function InspectStep<O>(L: Limiter<O>, s: State<O>, key: Key, started: real): State<O> {
    if key in s.table && s.table[key] in s.objects &&
       L.lastSeen(s.objects[s.table[key]].value) < started - L.interval
    then s.(doomed := Some(Doomed(key, false)))
    else s
  }

  function DeleteStep<O>(s: State<O>): State<O> {
    if s.doomed.None? then s else s.(table := s.table - {s.doomed.value.key}, doomed := None)
  }

  predicate Enabled<O>(s: State<O>, e: Event) {
    && s.clock <= e.now
    && match e
       case Find(t, _, made, now) => t !in s.found && made <= now
       case Use(t, key, _, _) => t in s.found && s.found[t].key == key && s.found[t].ref in s.objects
       case Inspect(_, started, now) => s.doomed.None? && started <= now
       case Delete(_) => s.doomed.Some?
  }

  /** The effect of an event, with clean-up or as if it did nothing. */
  function Next<O>(L: Limiter<O>, s: State<O>, e: Event, evict: bool): State<O> {
    var s' := s.(clock := e.now);
    match e
    case Find(t, key, made, _) => FindStep(L, s', t, key, made)
    case Use(t, key, n, now) =>
      if t in s.found && s.found[t].ref in s.objects then UseStep(L, s', t, key, Call(n, now)) else s'
    case Inspect(key, started, _) => if evict then InspectStep(L, s', key, started) else s'
    case Delete(_) => if evict then DeleteStep(s') else s'
  }

  function After<O>(L: Limiter<O>, es: seq<Event>, evict: bool): State<O> {
    if es == [] then Start() else Next(L, After(L, Front(es), evict), Last(es), evict)
  }

  ghost predicate Legal<O>(L: Limiter<O>, es: seq<Event>) {
    es == [] || (Legal(L, Front(es)) && Enabled(After(L, Front(es), true), Last(es)))
  }

  /** The answers to the requests of one key, in order. */
  function OfKey(log: seq<Outcome>, key: Key): seq<Outcome> {
    if log == [] then [] else OfKey(Front(log), key) + if Last(log).key == key then [Last(log)] else []
  }

  // ---- What overlaps with a deletion ----

  /** Which overlaps with a deletion are allowed: use since the check, and a request still to use what it found. */
  datatype Discipline = Discipline(lateUse: bool, pending: bool)

  const STRICT := Discipline(false, false)

  ghost predicate Undisturbed<O>(s: State<O>, e: Event, key: Key, d: Discipline) {
    e.Delete? && s.doomed.Some? && s.doomed.value.key == key ==>
      && (d.lateUse || !s.doomed.value.used)
      && (d.pending || forall t :: t in s.found ==> s.found[t].key != key)
  }

  /** Deletions of `key` overlap with its requests only as `d` allows. */
  ghost predicate Obeys<O>(L: Limiter<O>, es: seq<Event>, key: Key, d: Discipline) {
    es != [] ==> Obeys(L, Front(es), key, d) && Undisturbed(After(L, Front(es), true), Last(es), key, d)
  }

  /** Requests for `key` are answered as if nothing were ever deleted, in every such run. */
  ghost predicate Invisible<O>(L: Limiter<O>, key: Key, d: Discipline) {
    forall es :: Legal(L, es) && Obeys(L, es, key, d) ==>
      OfKey(After(L, es, true).log, key) == OfKey(After(L, es, false).log, key)
  }

  // ---- Limiters ----

  /** From `since` on, the object answers and changes like one made just then. */
  ghost predicate AsNew<O>(L: Limiter<O>, key: Key, o: O, since: real) {
    forall c: Call :: since <= c.now ==>
      && L.allowed(key, o, c) == L.allowed(key, L.make(key, c.now), c)
      && L.use(key, o, c) == L.use(key, L.make(key, c.now), c)
  }

  /** `regular` holds of the objects of a run. */
  ghost predicate Sane<O(!new)>(L: Limiter<O>, regular: (Key, O) -> bool) {
    && (forall key, made :: regular(key, L.make(key, made)) && L.lastSeen(L.make(key, made)) == made)
    && (forall key, made :: AsNew(L, key, L.make(key, made), made))
    && (forall key, o, c: Call :: regular(key, o) && L.lastSeen(o) <= c.now ==>
          regular(key, L.use(key, o, c)) && L.lastSeen(L.use(key, o, c)) == c.now)
  }

  /** By the time an object of the key is found idle, it is as good as new. */
  ghost predicate Forgets<O(!new)>(L: Limiter<O>, regular: (Key, O) -> bool, key: Key) {
    forall o, now: real :: regular(key, o) && L.lastSeen(o) < now - L.interval ==> AsNew(L, key, o, now)
  }

  /** Answers for the key do not depend on the object. */
  ghost predicate Stateless<O(!new)>(L: Limiter<O>, regular: (Key, O) -> bool, key: Key) {
    forall o, c: Call :: regular(key, o) && L.lastSeen(o) <= c.now ==>
      L.allowed(key, o, c) == L.allowed(key, L.make(key, c.now), c)
  }

  // ---- Every run ----

  /** References lead to objects of their key, and every object is regular. */
  ghost predicate Wired<O>(L: Limiter<O>, s: State<O>, regular: (Key, O) -> bool) {
    && (forall r :: r in s.objects ==>
          && r < s.next && regular(s.objects[r].key, s.objects[r].value)
          && L.lastSeen(s.objects[r].value) <= s.clock)
    && (forall k :: k in s.table ==> s.table[k] in s.objects && s.objects[s.table[k]].key == k)
    && (forall t :: t in s.found ==> s.found[t].ref in s.objects && s.objects[s.found[t].ref].key == s.found[t].key)
  }

  lemma WiredFind<O(!new)>(L: Limiter<O>, s: State<O>, t: Thread, key: Key, made: real, regular: (Key, O) -> bool)
    requires Sane(L, regular) && Wired(L, s, regular) && made <= s.clock
    ensures Wired(L, FindStep(L, s, t, key, made), regular)
  {
    assert regular(key, L.make(key, made)) && L.lastSeen(L.make(key, made)) == made;
  }

  lemma WiredUse<O(!new)>(L: Limiter<O>, s: State<O>, t: Thread, c: Call, regular: (Key, O) -> bool)
    requires Sane(L, regular) && Wired(L, s, regular) && t in s.found && c.now == s.clock
    ensures Wired(L, UseStep(L, s, t, s.found[t].key, c), regular)
  {
    var key, o := s.found[t].key, s.objects[s.found[t].ref].value;
    assert regular(key, L.use(key, o, c)) && L.lastSeen(L.use(key, o, c)) == c.now;
  }

  lemma WiredStep<O(!new)>(L: Limiter<O>, s: State<O>, e: Event, evict: bool, regular: (Key, O) -> bool)
    requires Sane(L, regular) && Wired(L, s, regular) && s.clock <= e.now
    requires e.Find? ==> e.made <= e.now
    requires e.Use? && e.thread in s.found ==> s.found[e.thread].key == e.key
    ensures Wired(L, Next(L, s, e, evict), regular)
  {
    var s' := s.(clock := e.now);
    assert Wired(L, s', regular);
    if e.Find? {
      WiredFind(L, s', e.thread, e.key, e.made, regular);
    } else if e.Use? && e.thread in s.found {
      WiredUse(L, s', e.thread, Call(e.n, e.now), regular);
    }
  }

  /** Both worlds have the same requests under way. */
  ghost predicate SameThreads<O>(s1: State<O>, s2: State<O>) {
    && s1.clock == s2.clock && s1.found.Keys == s2.found.Keys
    && (forall t :: t in s1.found ==> s1.found[t].key == s2.found[t].key)
    && (forall t :: t in s1.found ==> s1.found[t].ref in s1.objects && s2.found[t].ref in s2.objects)
  }

  lemma SameThreadsStep<O>(L: Limiter<O>, s1: State<O>, s2: State<O>, e: Event)
    requires SameThreads(s1, s2) && Enabled(s1, e)
    requires forall k :: k in s1.table ==> s1.table[k] in s1.objects
    requires forall k :: k in s2.table ==> s2.table[k] in s2.objects
    ensures SameThreads(Next(L, s1, e, true), Next(L, s2, e, false))
  {
    match e
    case Find(t, key, made, now) => SameThreadsFind(L, s1.(clock := now), s2.(clock := now), t, key, made);
    case Use(t, key, n, now) => SameThreadsUse(L, s1.(clock := now), s2.(clock := now), t, key, Call(n, now));
    case _ =>
  }

  lemma SameThreadsFind<O>(L: Limiter<O>, s1: State<O>, s2: State<O>, t: Thread, key: Key, made: real)
    requires SameThreads(s1, s2)
    requires forall k :: k in s1.table ==> s1.table[k] in s1.objects
    requires forall k :: k in s2.table ==> s2.table[k] in s2.objects
    ensures SameThreads(FindStep(L, s1, t, key, made), FindStep(L, s2, t, key, made))
  {
  }

  lemma SameThreadsUse<O>(L: Limiter<O>, s1: State<O>, s2: State<O>, t: Thread, key: Key, c: Call)
    requires SameThreads(s1, s2) && t in s1.found
    ensures SameThreads(UseStep(L, s1, t, key, c), UseStep(L, s2, t, key, c))
  {
  }

  lemma StepWired<O(!new)>(L: Limiter<O>, s1: State<O>, s2: State<O>, e: Event, regular: (Key, O) -> bool)
    requires Sane(L, regular) && Enabled(s1, e)
    requires Wired(L, s1, regular) && Wired(L, s2, regular) && SameThreads(s1, s2)
    ensures Wired(L, Next(L, s1, e, true), regular) && Wired(L, Next(L, s2, e, false), regular)
    ensures SameThreads(Next(L, s1, e, true), Next(L, s2, e, false))
  {
    WiredStep(L, s1, e, true, regular);
    WiredStep(L, s2, e, false, regular);
    SameThreadsStep(L, s1, s2, e);
  }

  lemma {:induction false} RunWired<O(!new)>(L: Limiter<O>, es: seq<Event>, regular: (Key, O) -> bool)
    requires Sane(L, regular) && Legal(L, es)
    ensures Wired(L, After(L, es, true), regular) && Wired(L, After(L, es, false), regular)
    ensures SameThreads(After(L, es, true), After(L, es, false))
  {
    if es == [] {
    } else {
      RunWired(L, Front(es), regular);
      StepWired(L, After(L, Front(es), true), After(L, Front(es), false), Last(es), regular);
    }
  }

  // ---- What the clean-up finds idle ----

  /** The object the event makes or uses. */
  ghost predicate Concerns<O>(s: State<O>, e: Event, ref: Ref) {
    || (e.Find? && e.key !in s.table && s.next == ref)
    || (e.Use? && e.thread in s.found && s.found[e.thread].ref == ref)
  }

  /** When the object was last made or used. */
  ghost function SeenAt<O>(L: Limiter<O>, es: seq<Event>, ref: Ref): Option<real> {
    if es == [] then None
    else if Concerns(After(L, Front(es), true), Last(es), ref) then
      Some(if Last(es).Find? then Last(es).made else Last(es).now)
    else SeenAt(L, Front(es), ref)
  }

  lemma SeenStep<O(!new)>(L: Limiter<O>, s: State<O>, e: Event, ref: Ref, regular: (Key, O) -> bool)
    requires Sane(L, regular) && Wired(L, s, regular) && Enabled(s, e) && ref in Next(L, s, e, true).objects
    ensures if Concerns(s, e, ref) then
              L.lastSeen(Next(L, s, e, true).objects[ref].value) == if e.Find? then e.made else e.now
            else ref in s.objects && Next(L, s, e, true).objects[ref] == s.objects[ref]
  {
    if e.Find? {
      assert L.lastSeen(L.make(e.key, e.made)) == e.made;
    } else if e.Use? {
      var key, o, c := e.key, s.objects[s.found[e.thread].ref].value, Call(e.n, e.now);
      assert regular(key, o) && L.lastSeen(L.use(key, o, c)) == c.now;
    }
  }

  lemma {:induction false} RunSeen<O(!new)>(L: Limiter<O>, es: seq<Event>, ref: Ref, regular: (Key, O) -> bool)
    requires Sane(L, regular) && Legal(L, es) && ref in After(L, es, true).objects
    ensures SeenAt(L, es, ref) == Some(L.lastSeen(After(L, es, true).objects[ref].value))
    decreases |es|
  {
    var s, e := After(L, Front(es), true), Last(es);
    RunWired(L, Front(es), regular);
    SeenStep(L, s, e, ref, regular);
    if !Concerns(s, e, ref) {
      RunSeen(L, Front(es), ref, regular);
    }
  }

  /**
   In every run the clean-up finds a key idle if and only if the object it stands
   for was last made or used more than the interval before the clean-up started.
   */
  lemma FoundIdleIff<O(!new)>(L: Limiter<O>, es: seq<Event>, key: Key, started: real, now: real,
                              regular: (Key, O) -> bool)
    requires Sane(L, regular) && Legal(L, es) && Enabled(After(L, es, true), Inspect(key, started, now))
    ensures var s := After(L, es, true);
            Next(L, s, Inspect(key, started, now), true).doomed == Some(Doomed(key, false)) <==>
            && key in s.table && SeenAt(L, es, s.table[key]).Some?
            && SeenAt(L, es, s.table[key]).value + L.interval < started
  {
    RunWired(L, es, regular);
    if key in After(L, es, true).table {
      RunSeen(L, es, After(L, es, true).table[key], regular);
    }
  }

  // ---- Undisturbed deletions do not show ----

  ghost predicate Alike<O>(L: Limiter<O>, key: Key, o1: O, o2: O, now: real) {
    o1 == o2 || (AsNew(L, key, o1, now) && AsNew(L, key, o2, now))
  }

  /** The object of a key that is in the table. */
  function ObjectOf<O>(s: State<O>, key: Key): O
    requires key in s.table && s.table[key] in s.objects
  {
    s.objects[s.table[key]].value
  }

  /** A key doomed and not used since is as good as new, and requests under way hold the object in the table. */
  ghost predicate Steady<O>(L: Limiter<O>, s: State<O>, key: Key)
    requires key in s.table ==> s.table[key] in s.objects
  {
    && (s.doomed.Some? && s.doomed.value.key == key && !s.doomed.value.used ==>
          key in s.table && AsNew(L, key, ObjectOf(s, key), s.clock))
    && (forall t :: t in s.found && s.found[t].key == key ==> key in s.table && s.found[t].ref == s.table[key])
  }

  /** The evicting and the keeping world agree about `key`. */
  ghost predicate Agree<O>(L: Limiter<O>, s1: State<O>, s2: State<O>, key: Key)
    requires (key in s1.table ==> s1.table[key] in s1.objects) && (key in s2.table ==> s2.table[key] in s2.objects)
  {
    && OfKey(s1.log, key) == OfKey(s2.log, key)
    && (key in s1.table ==> key in s2.table && Alike(L, key, ObjectOf(s1, key), ObjectOf(s2, key), s1.clock))
    && (key !in s1.table && key in s2.table ==> AsNew(L, key, ObjectOf(s2, key), s1.clock))
  }

  lemma OfKeyAppend(log: seq<Outcome>, o: Outcome, key: Key)
    ensures OfKey(log + [o], key) == OfKey(log, key) + if o.key == key then [o] else []
  {
    assert Front(log + [o]) == log;
  }

  /** The table leads to objects. */
  ghost predicate Tabled<O>(s: State<O>) {
    forall k :: k in s.table ==> s.table[k] in s.objects
  }

  /** The step from `s` to `s'` has nothing to do with `key`. */
  ghost predicate Untouched<O>(s: State<O>, s': State<O>, key: Key)
    requires Tabled(s) && Tabled(s')
  {
    && s.clock <= s'.clock && (key in s.table <==> key in s'.table)
    && (key in s.table ==> s'.table[key] == s.table[key] && ObjectOf(s', key) == ObjectOf(s, key))
    && (forall t :: t in s'.found && s'.found[t].key == key ==> t in s.found && s.found[t] == s'.found[t])
    && (s'.doomed.Some? && s'.doomed.value.key == key && !s'.doomed.value.used ==> s.doomed == s'.doomed)
    && OfKey(s.log, key) == OfKey(s'.log, key)
  }

  lemma SteadyFrame<O>(L: Limiter<O>, s: State<O>, s': State<O>, key: Key)
    requires Tabled(s) && Tabled(s') && Untouched(s, s', key) && Steady(L, s, key)
    ensures Steady(L, s', key)
  {
  }

  lemma AgreeFrame<O>(L: Limiter<O>, s1: State<O>, s1': State<O>, s2: State<O>, s2': State<O>, key: Key)
    requires Tabled(s1) && Tabled(s2) && Tabled(s1') && Tabled(s2')
    requires Untouched(s1, s1', key) && Untouched(s2, s2', key) && Agree(L, s1, s2, key)
    ensures Agree(L, s1', s2', key)
  {
  }

  /** The two worlds, seen from one key. */
  ghost predicate Linked<O>(L: Limiter<O>, s1: State<O>, s2: State<O>, key: Key) {
    && Tabled(s1) && Tabled(s2) && SameThreads(s1, s2)
    && Steady(L, s1, key) && Steady(L, s2, key) && Agree(L, s1, s2, key) && s2.doomed.None?
  }

  lemma LinkedFrame<O>(L: Limiter<O>, s1: State<O>, s1': State<O>, s2: State<O>, s2': State<O>, key: Key)
    requires Linked(L, s1, s2, key) && Tabled(s1') && Tabled(s2') && SameThreads(s1', s2') && s2'.doomed.None?
    requires Untouched(s1, s1', key) && Untouched(s2, s2', key)
    ensures Linked(L, s1', s2', key)
  {
    SteadyFrame(L, s1, s1', key);
    SteadyFrame(L, s2, s2', key);
    AgreeFrame(L, s1, s1', s2, s2', key);
  }

  lemma FindOther<O>(L: Limiter<O>, s: State<O>, e: Event, key: Key, evict: bool)
    requires Tabled(s) && e.Find? && e.key != key && s.clock <= e.now && s.next !in s.objects
    requires e.thread !in s.found
    ensures Tabled(Next(L, s, e, evict)) && Untouched(s, Next(L, s, e, evict), key)
  {
  }

  lemma UseOther<O>(L: Limiter<O>, s: State<O>, e: Event, key: Key, evict: bool)
    requires Tabled(s) && e.Use? && e.key != key && s.clock <= e.now
    requires e.thread in s.found && s.found[e.thread].ref in s.objects
    requires key in s.table ==> s.table[key] != s.found[e.thread].ref
    ensures Tabled(Next(L, s, e, evict)) && Untouched(s, Next(L, s, e, evict), key)
  {
    var c := Call(e.n, e.now);
    OfKeyAppend(s.log, Outcome(e.key, c, L.allowed(e.key, s.objects[s.found[e.thread].ref].value, c)), key);
  }

  lemma AsNewLater<O>(L: Limiter<O>, key: Key, o: O, since: real, later: real)
    requires AsNew(L, key, o, since) && since <= later
    ensures AsNew(L, key, o, later)
  {
  }

  lemma FindSteady<O>(L: Limiter<O>, s: State<O>, e: Event, key: Key, evict: bool)
    requires Tabled(s) && Steady(L, s, key) && e.Find? && e.key == key && s.clock <= e.now && s.next !in s.objects
    ensures var s' := Next(L, s, e, evict);
            && Tabled(s') && Steady(L, s', key) && key in s'.table && s'.log == s.log
            && ObjectOf(s', key) == if key in s.table then ObjectOf(s, key) else L.make(key, e.made)
  {
  }

  /** Finding the key itself: a new object in one world meets one as good as new in the other. */
  lemma FindKey<O(!new)>(L: Limiter<O>, s1: State<O>, s2: State<O>, e: Event, key: Key)
    requires Linked(L, s1, s2, key) && e.Find? && e.key == key && s1.clock <= e.now && e.made <= e.now
    requires AsNew(L, key, L.make(key, e.made), e.made)
    requires s1.next !in s1.objects && s2.next !in s2.objects
    requires SameThreads(Next(L, s1, e, true), Next(L, s2, e, false))
    ensures Linked(L, Next(L, s1, e, true), Next(L, s2, e, false), key)
  {
    AsNewLater(L, key, L.make(key, e.made), e.made, e.now);
    FindSteady(L, s1, e, key, true);
    FindSteady(L, s2, e, key, false);
  }

  lemma UseKey<O(!new)>(L: Limiter<O>, s1: State<O>, s2: State<O>, e: Event, key: Key)
    requires Linked(L, s1, s2, key) && Enabled(s1, e) && e.Use? && e.key == key
    requires SameThreads(Next(L, s1, e, true), Next(L, s2, e, false))
    ensures Linked(L, Next(L, s1, e, true), Next(L, s2, e, false), key)
  {
    var c, o1, o2 := Call(e.n, e.now), ObjectOf(s1, key), ObjectOf(s2, key);
    assert L.allowed(key, o1, c) == L.allowed(key, o2, c) && L.use(key, o1, c) == L.use(key, o2, c);
    OfKeyAppend(s1.log, Outcome(key, c, L.allowed(key, o1, c)), key);
    OfKeyAppend(s2.log, Outcome(key, c, L.allowed(key, o2, c)), key);
  }

  lemma InspectKey<O(!new)>(L: Limiter<O>, s1: State<O>, s2: State<O>, e: Event, key: Key, regular: (Key, O) -> bool)
    requires Linked(L, s1, s2, key) && Enabled(s1, e) && e.Inspect? && e.key == key
    requires Forgets(L, regular, key) && (key in s1.table ==> regular(key, ObjectOf(s1, key)))
    ensures Linked(L, Next(L, s1, e, true), Next(L, s2, e, false), key)
  {
    if key in s1.table && L.lastSeen(ObjectOf(s1, key)) < e.started - L.interval {
      AsNewLater(L, key, ObjectOf(s1, key), e.started, e.now);
    }
  }

  lemma DeleteKey<O(!new)>(L: Limiter<O>, s1: State<O>, s2: State<O>, e: Event, key: Key)
    requires Linked(L, s1, s2, key) && Enabled(s1, e) && e.Delete? && s1.doomed.value.key == key
    requires Undisturbed(s1, e, key, STRICT)
    ensures Linked(L, Next(L, s1, e, true), Next(L, s2, e, false), key)
  {
    AsNewLater(L, key, ObjectOf(s1, key), s1.clock, e.now);
    AsNewLater(L, key, ObjectOf(s2, key), s1.clock, e.now);
  }

  /** The event is about `key`. */
  predicate About<O>(s: State<O>, e: Event, key: Key) {
    if e.Delete? then s.doomed.Some? && s.doomed.value.key == key else e.key == key
  }

  lemma OtherUntouched<O>(L: Limiter<O>, s: State<O>, e: Event, key: Key, evict: bool)
    requires Tabled(s) && !About(s, e, key) && s.clock <= e.now && s.next !in s.objects
    requires e.Find? ==> e.thread !in s.found
    requires e.Use? ==> e.thread in s.found && s.found[e.thread].ref in s.objects
    requires e.Use? && key in s.table ==> s.table[key] != s.found[e.thread].ref
    ensures Tabled(Next(L, s, e, evict)) && Untouched(s, Next(L, s, e, evict), key)
  {
    if e.Find? {
      FindOther(L, s, e, key, evict);
    } else if e.Use? {
      UseOther(L, s, e, key, evict);
    }
  }

  lemma LinkedOther<O(!new)>(L: Limiter<O>, s1: State<O>, s2: State<O>, e: Event, key: Key, regular: (Key, O) -> bool)
    requires Enabled(s1, e) && !About(s1, e, key)
    requires Wired(L, s1, regular) && Wired(L, s2, regular) && Linked(L, s1, s2, key)
    ensures Linked(L, Next(L, s1, e, true), Next(L, s2, e, false), key)
  {
    SameThreadsStep(L, s1, s2, e);
    OtherUntouched(L, s1, e, key, true);
    OtherUntouched(L, s2, e, key, false);
    LinkedFrame(L, s1, Next(L, s1, e, true), s2, Next(L, s2, e, false), key);
  }

  lemma LinkedStep<O(!new)>(L: Limiter<O>, s1: State<O>, s2: State<O>, e: Event, key: Key, regular: (Key, O) -> bool)
    requires Sane(L, regular) && Forgets(L, regular, key) && Enabled(s1, e) && Undisturbed(s1, e, key, STRICT)
    requires Wired(L, s1, regular) && Wired(L, s2, regular) && Linked(L, s1, s2, key)
    ensures Linked(L, Next(L, s1, e, true), Next(L, s2, e, false), key)
  {
    if !About(s1, e, key) {
      LinkedOther(L, s1, s2, e, key, regular);
    } else {
      SameThreadsStep(L, s1, s2, e);
      match e
      case Find(_, _, _, _) => FindKey(L, s1, s2, e, key);
      case Use(_, _, _, _) => UseKey(L, s1, s2, e, key);
      case Inspect(_, _, _) => InspectKey(L, s1, s2, e, key, regular);
      case Delete(_) => DeleteKey(L, s1, s2, e, key);
    }
  }

  lemma {:induction false} RunLinked<O(!new)>(L: Limiter<O>, es: seq<Event>, key: Key, regular: (Key, O) -> bool)
    requires Sane(L, regular) && Forgets(L, regular, key) && Legal(L, es) && Obeys(L, es, key, STRICT)
    ensures Linked(L, After(L, es, true), After(L, es, false), key)
  {
    if es == [] {
    } else {
      RunLinked(L, Front(es), key, regular);
      RunWired(L, Front(es), regular);
      LinkedStep(L, After(L, Front(es), true), After(L, Front(es), false), Last(es), key, regular);
    }
  }

  /** If idle objects are as good as new, deletions that overlap with no request do not show. */
  lemma ForgettingIsInvisible<O(!new)>(L: Limiter<O>, key: Key, regular: (Key, O) -> bool)
    requires Sane(L, regular) && Forgets(L, regular, key)
    ensures Invisible(L, key, STRICT)
  {
    forall es | Legal(L, es) && Obeys(L, es, key, STRICT)
      ensures OfKey(After(L, es, true).log, key) == OfKey(After(L, es, false).log, key)
    {
      RunLinked(L, es, key, regular);
    }
  }

  // ---- Limiters without memory ----

  lemma {:induction false} RunStateless<O(!new)>(L: Limiter<O>, es: seq<Event>, key: Key, regular: (Key, O) -> bool)
    requires Sane(L, regular) && Stateless(L, regular, key) && Legal(L, es)
    ensures OfKey(After(L, es, true).log, key) == OfKey(After(L, es, false).log, key)
  {
    if es == [] {
    } else {
      RunStateless(L, Front(es), key, regular);
      RunWired(L, Front(es), regular);
      StatelessStep(L, After(L, Front(es), true), After(L, Front(es), false), Last(es), key, regular);
    }
  }

  lemma StatelessStep<O(!new)>(L: Limiter<O>, s1: State<O>, s2: State<O>, e: Event, key: Key, regular: (Key, O) -> bool)
    requires Stateless(L, regular, key) && Enabled(s1, e)
    requires Wired(L, s1, regular) && Wired(L, s2, regular) && SameThreads(s1, s2)
    requires OfKey(s1.log, key) == OfKey(s2.log, key)
    ensures OfKey(Next(L, s1, e, true).log, key) == OfKey(Next(L, s2, e, false).log, key)
  {
    if e.Use? {
      UseLogs(L, s1, e, true, key);
      UseLogs(L, s2, e, false, key);
    }
  }

  /** What a use adds to the log of `key`. */
  lemma UseLogs<O>(L: Limiter<O>, s: State<O>, e: Event, evict: bool, key: Key)
    requires e.Use? && e.thread in s.found && s.found[e.thread].ref in s.objects
    ensures var c := Call(e.n, e.now);
            OfKey(Next(L, s, e, evict).log, key) ==
            OfKey(s.log, key) +
            if e.key == key then [Outcome(key, c, L.allowed(key, s.objects[s.found[e.thread].ref].value, c))] else []
  {
    var c := Call(e.n, e.now);
    OfKeyAppend(s.log, Outcome(e.key, c, L.allowed(e.key, s.objects[s.found[e.thread].ref].value, c)), key);
  }

  lemma StatelessIsInvisible<O(!new)>(L: Limiter<O>, key: Key, d: Discipline, regular: (Key, O) -> bool)
    requires Sane(L, regular) && Stateless(L, regular, key)
    ensures Invisible(L, key, d)
  {
    forall es | Legal(L, es) && Obeys(L, es, key, d)
      ensures OfKey(After(L, es, true).log, key) == OfKey(After(L, es, false).log, key)
    {
      RunStateless(L, es, key, regular);
    }
  }

  // ---- Runs in which clean-up shows ----

  /** A run so far, and the two states it leads to. */
  ghost predicate Reaches<O>(L: Limiter<O>, es: seq<Event>, key: Key, d: Discipline, s1: State<O>, s2: State<O>) {
    Legal(L, es) && Obeys(L, es, key, d) && s1 == After(L, es, true) && s2 == After(L, es, false)
  }

  lemma Extend<O>(L: Limiter<O>, es: seq<Event>, e: Event, key: Key, d: Discipline, s1: State<O>, s2: State<O>)
    requires Reaches(L, es, key, d, s1, s2) && Enabled(s1, e) && Undisturbed(s1, e, key, d)
    ensures Reaches(L, es + [e], key, d, Next(L, s1, e, true), Next(L, s2, e, false))
  {
    assert Front(es + [e]) == es;
  }

  /** A run that `d` allows and in which a request of the key is answered differently. */
  ghost predicate Shows<O>(L: Limiter<O>, es: seq<Event>, key: Key, d: Discipline) {
    Legal(L, es) && Obeys(L, es, key, d) && OfKey(After(L, es, true).log, key) != OfKey(After(L, es, false).log, key)
  }

  lemma Differs<O>(L: Limiter<O>, es: seq<Event>, key: Key, d: Discipline, s1: State<O>, s2: State<O>)
    requires Reaches(L, es, key, d, s1, s2)
    requires s1.log != [] && s2.log != [] && Last(s1.log).key == key && Last(s2.log).key == key
    requires Last(s1.log) != Last(s2.log)
    ensures Shows(L, es, key, d)
  {
    assert Last(OfKey(s1.log, key)) == Last(s1.log) && Last(OfKey(s2.log, key)) == Last(s2.log);
  }

  /** The first request of a key, found and not yet used; the clock is at zero. */
  ghost predicate FirstFound<O>(L: Limiter<O>, s: State<O>, key: Key) {
    && s.clock == 0.0 && s.table == map[key := 0] && s.next == 1 && s.found == map[0 := Found(key, 0)]
    && 0 in s.objects && s.objects[0] == Object(key, L.make(key, 0.0)) && s.doomed.None? && s.log == []
  }

  lemma FirstFind<O>(L: Limiter<O>, key: Key, d: Discipline) returns (es: seq<Event>, s1: State<O>, s2: State<O>)
    ensures Reaches(L, es, key, d, s1, s2) && FirstFound(L, s1, key) && FirstFound(L, s2, key)
  {
    var e := Find(0, key, 0.0, 0.0);
    s1, s2 := Start(), Start();
    Extend(L, [], e, key, d, s1, s2);
    es, s1, s2 := [] + [e], Next(L, s1, e, true), Next(L, s2, e, false);
  }

  /** A burst, the clean-up once the object is idle, another burst at the same moment. */
  lemma SlowShows<O>(L: Limiter<O>, key: Key, d: Discipline, n: nat, m: nat, t: real) returns (es: seq<Event>)
    requires L.interval >= 0.0 && t > L.interval
    requires var used := L.use(key, L.make(key, 0.0), Call(n, 0.0));
             && L.lastSeen(used) == 0.0
             && L.allowed(key, used, Call(m, t)) != L.allowed(key, L.make(key, t), Call(m, t))
    ensures Shows(L, es, key, d)
  {
    var used := L.use(key, L.make(key, 0.0), Call(n, 0.0));
    var s1, s2;
    es, s1, s2 := FirstFind(L, key, d);
    Extend(L, es, Use(0, key, n, 0.0), key, d, s1, s2);
    var e := Use(0, key, n, 0.0);
    es, s1, s2 := es + [e], Next(L, s1, e, true), Next(L, s2, e, false);
    assert s1.objects[0].value == used && s2.objects[0].value == used && s1.found == map[] && s2.found == map[];
    e := Inspect(key, t, t);
    Extend(L, es, e, key, d, s1, s2);
    es, s1, s2 := es + [e], Next(L, s1, e, true), Next(L, s2, e, false);
    assert s1.doomed == Some(Doomed(key, false));
    e := Delete(t);
    Extend(L, es, e, key, d, s1, s2);
    es, s1, s2 := es + [e], Next(L, s1, e, true), Next(L, s2, e, false);
    assert key !in s1.table && key in s2.table && s2.table[key] == 0;
    es := FindAndUseDiffers(L, es, key, d, s1, s2, 0, m, t);
  }

  /** The key was deleted in one world; in the other its object answers a new request differently. */
  lemma FindAndUseDiffers<O>(L: Limiter<O>, es: seq<Event>, key: Key, d: Discipline, s1: State<O>, s2: State<O>,
                             th: Thread, m: nat, t: real) returns (all: seq<Event>)
    requires Reaches(L, es, key, d, s1, s2) && s1.clock <= t && s1.doomed.None?
    requires th !in s1.found && th !in s2.found
    requires key !in s1.table && key in s2.table && s2.table[key] in s2.objects
    requires L.allowed(key, ObjectOf(s2, key), Call(m, t)) != L.allowed(key, L.make(key, t), Call(m, t))
    ensures Shows(L, all, key, d)
  {
    var e, u := Find(th, key, t, t), Use(th, key, m, t);
    Extend(L, es, e, key, d, s1, s2);
    var f1, f2 := Next(L, s1, e, true), Next(L, s2, e, false);
    assert f1.objects[f1.found[th].ref].value == L.make(key, t);
    assert f2.objects[f2.found[th].ref].value == ObjectOf(s2, key);
    Extend(L, es + [e], u, key, d, f1, f2);
    all := es + [e] + [u];
    Differs(L, all, key, d, Next(L, f1, u, true), Next(L, f2, u, false));
  }

  /** The key can be used up in one call: it allows `n`, and then not `n` again. */
  ghost predicate Exhausts<O>(L: Limiter<O>, key: Key, n: nat, t: real) {
    var o, c := L.make(key, 0.0), Call(n, t);
    && L.lastSeen(o) == 0.0
    && L.allowed(key, L.make(key, t), c) && !L.allowed(key, L.use(key, o, c), c)
  }

  /** Found, found idle, used up, and then forgotten. */
  lemma LateUseShows<O>(L: Limiter<O>, key: Key, d: Discipline, n: nat, t: real) returns (es: seq<Event>)
    requires L.interval >= 0.0 && t > L.interval && Exhausts(L, key, n, t) && d.lateUse
    ensures Shows(L, es, key, d)
  {
    var s1, s2;
    es, s1, s2 := FirstFind(L, key, d);
    var e := Inspect(key, t, t);
    Extend(L, es, e, key, d, s1, s2);
    es, s1, s2 := es + [e], Next(L, s1, e, true), Next(L, s2, e, false);
    assert s1.doomed == Some(Doomed(key, false));
    e := Use(0, key, n, t);
    Extend(L, es, e, key, d, s1, s2);
    es, s1, s2 := es + [e], Next(L, s1, e, true), Next(L, s2, e, false);
    assert s1.found == map[] && s2.found == map[];
    assert s2.objects[0].value == L.use(key, L.make(key, 0.0), Call(n, t));
    e := Delete(t);
    Extend(L, es, e, key, d, s1, s2);
    es, s1, s2 := es + [e], Next(L, s1, e, true), Next(L, s2, e, false);
    assert key !in s1.table && key in s2.table && s2.table[key] == 0;
    es := FindAndUseDiffers(L, es, key, d, s1, s2, 0, n, t);
  }

  /** Found, deleted, found again: the two requests use different objects. */
  lemma PendingShows<O>(L: Limiter<O>, key: Key, d: Discipline, n: nat, t: real) returns (es: seq<Event>)
    requires L.interval >= 0.0 && t > L.interval && Exhausts(L, key, n, t) && d.pending
    ensures Shows(L, es, key, d)
  {
    var s1, s2;
    es, s1, s2 := FirstFind(L, key, d);
    var e := Inspect(key, t, t);
    Extend(L, es, e, key, d, s1, s2);
    es, s1, s2 := es + [e], Next(L, s1, e, true), Next(L, s2, e, false);
    assert s1.doomed == Some(Doomed(key, false));
    e := Delete(t);
    Extend(L, es, e, key, d, s1, s2);
    es, s1, s2 := es + [e], Next(L, s1, e, true), Next(L, s2, e, false);
    e := Use(0, key, n, t);
    Extend(L, es, e, key, d, s1, s2);
    es, s1, s2 := es + [e], Next(L, s1, e, true), Next(L, s2, e, false);
    assert s1.found == map[] && s2.found == map[] && key !in s1.table;
    assert s2.objects[0].value == L.use(key, L.make(key, 0.0), Call(n, t)) && s2.table[key] == 0;
    es := FindAndUseDiffers(L, es, key, d, s1, s2, 0, n, t);
  }

  // ---- What one key sees when nothing is deleted ----

  /** The answers of one object to its calls, and the object afterwards. */
  function Play<O>(L: Limiter<O>, key: Key, o: O, calls: seq<Call>): (seq<Outcome>, O) {
    if calls == [] then ([], o)
    else
      var (before, o') := Play(L, key, o, Front(calls));
      (before + [Outcome(key, Last(calls), L.allowed(key, o', Last(calls)))], L.use(key, o', Last(calls)))
  }

  function CallsOf(es: seq<Event>, key: Key): seq<Call> {
    if es == [] then []
    else
      CallsOf(Front(es), key) +
      if Last(es).Use? && Last(es).key == key then [Call(Last(es).n, Last(es).now)] else []
  }

  ghost predicate OrderedFrom(calls: seq<Call>, start: real, end: real) {
    if calls == [] then start <= end else OrderedFrom(Front(calls), start, Last(calls).now) && Last(calls).now <= end
  }

  lemma {:induction false} OrderedLater(calls: seq<Call>, start: real, end: real, later: real)
    requires OrderedFrom(calls, start, end) && end <= later
    ensures OrderedFrom(calls, start, later)
  {
  }

  /** All requests of the key went to one object, made at `made`, in the order of the run. */
  ghost predicate OneObject<O>(L: Limiter<O>, s: State<O>, key: Key, calls: seq<Call>, made: real) {
    var (outcomes, o) := Play(L, key, L.make(key, made), calls);
    && OfKey(s.log, key) == outcomes && OrderedFrom(calls, made, s.clock)
    && key in s.table && s.table[key] in s.objects && ObjectOf(s, key) == o
  }

  ghost predicate Unseen<O>(s: State<O>, key: Key, calls: seq<Call>) {
    key !in s.table && calls == [] && OfKey(s.log, key) == []
  }

  lemma PlayOne<O>(L: Limiter<O>, key: Key, o: O, calls: seq<Call>, c: Call)
    ensures Play(L, key, o, calls + [c]) ==
            var (before, o') := Play(L, key, o, calls);
            (before + [Outcome(key, c, L.allowed(key, o', c))], L.use(key, o', c))
  {
    assert Front(calls + [c]) == calls;
  }

  lemma {:induction false} PlayHead<O>(L: Limiter<O>, key: Key, o: O, calls: seq<Call>)
    requires calls != []
    ensures var c := calls[0];
            var (outcomes, o') := Play(L, key, L.use(key, o, c), calls[1..]);
            Play(L, key, o, calls) == ([Outcome(key, c, L.allowed(key, o, c))] + outcomes, o')
  {
    var c, rest := calls[0], calls[1..];
    if rest == [] {
      assert Front(calls) == [] && Last(calls) == c;
      assert Play(L, key, o, Front(calls)) == ([], o);
      var answer := [Outcome(key, c, L.allowed(key, o, c))];
      assert [] + answer == answer + [];
    } else {
      PlayHead(L, key, o, Front(calls));
      assert Front(calls)[0] == c && Front(calls)[1..] == Front(rest) && Last(calls) == Last(rest);
      var (outcomes, o') := Play(L, key, L.use(key, o, c), Front(rest));
      assert Play(L, key, o, Front(calls)) == ([Outcome(key, c, L.allowed(key, o, c))] + outcomes, o');
      var answer := [Outcome(key, Last(rest), L.allowed(key, o', Last(rest)))];
      assert [Outcome(key, c, L.allowed(key, o, c))] + outcomes + answer ==
             [Outcome(key, c, L.allowed(key, o, c))] + (outcomes + answer);
    }
  }

  /** An answer depends on the calls before it alone. */
  lemma {:induction false} PlayAt<O>(L: Limiter<O>, key: Key, o: O, calls: seq<Call>, k: nat)
    requires k < |calls|
    ensures |Play(L, key, o, calls).0| == |calls|
    ensures var (before, o') := Play(L, key, o, calls[..k]);
            && Play(L, key, o, calls).0[..k] == before
            && Play(L, key, o, calls).0[k] == Outcome(key, calls[k], L.allowed(key, o', calls[k]))
    decreases |calls|
  {
    var front := Front(calls);
    PlayLength(L, key, o, front);
    if k == |calls| - 1 {
      assert calls[..k] == front;
    } else {
      PlayAt(L, key, o, front, k);
      assert front[..k] == calls[..k] && front[k] == calls[k];
    }
  }

  lemma {:induction false} PlayLength<O>(L: Limiter<O>, key: Key, o: O, calls: seq<Call>)
    ensures |Play(L, key, o, calls).0| == |calls|
    decreases |calls|
  {
    if calls == [] {
    } else {
      PlayLength(L, key, o, Front(calls));
    }
  }

  lemma {:induction false} OrderedSpan(calls: seq<Call>, start: real, end: real)
    requires OrderedFrom(calls, start, end)
    ensures start <= end
    decreases |calls|
  {
    if calls == [] {
    } else {
      OrderedSpan(Front(calls), start, Last(calls).now);
    }
  }

  lemma {:induction false} OrderedUpTo(calls: seq<Call>, start: real, end: real, k: nat)
    requires OrderedFrom(calls, start, end) && k < |calls|
    ensures OrderedFrom(calls[..k], start, calls[k].now)
    decreases |calls|
  {
    var front := Front(calls);
    if k == |calls| - 1 {
      assert calls[..k] == front;
    } else {
      OrderedUpTo(front, start, Last(calls).now, k);
      assert front[..k] == calls[..k] && front[k] == calls[k];
    }
  }

  lemma {:induction false} OrderedHead(calls: seq<Call>, start: real, end: real)
    requires calls != [] && OrderedFrom(calls, start, end)
    ensures start <= calls[0].now && OrderedFrom(calls[1..], calls[0].now, end)
  {
    var rest := calls[1..];
    if rest == [] {
      assert Front(calls) == [];
    } else {
      OrderedHead(Front(calls), start, Last(calls).now);
      assert Front(calls)[1..] == Front(rest) && Last(calls) == Last(rest);
    }
  }

  /** The keeping world after `calls` of the key: never seen, or one object since `made`. */
  ghost predicate Kept<O>(L: Limiter<O>, s: State<O>, key: Key, calls: seq<Call>, made: real) {
    Unseen(s, key, calls) || OneObject(L, s, key, calls, made)
  }

  lemma KeptOther<O>(L: Limiter<O>, s: State<O>, s': State<O>, key: Key, calls: seq<Call>, made: real)
    requires Kept(L, s, key, calls, made) && Tabled(s) && Tabled(s') && Untouched(s, s', key)
    ensures Kept(L, s', key, calls, made)
  {
    if OneObject(L, s, key, calls, made) {
      OrderedLater(calls, made, s.clock, s'.clock);
    }
  }

  lemma KeptFind<O>(L: Limiter<O>, s: State<O>, e: Event, key: Key, calls: seq<Call>, made: real)
    requires Kept(L, s, key, calls, made) && Tabled(s) && Steady(L, s, key) && s.next !in s.objects
    requires e.Find? && e.key == key && s.clock <= e.now && e.made <= e.now
    ensures Kept(L, Next(L, s, e, false), key, calls, if key in s.table then made else e.made)
  {
    FindSteady(L, s, e, key, false);
    if key in s.table {
      OrderedLater(calls, made, s.clock, e.now);
    }
  }

  lemma KeptUse<O>(L: Limiter<O>, s: State<O>, e: Event, key: Key, calls: seq<Call>, made: real)
    requires Kept(L, s, key, calls, made) && Tabled(s) && Steady(L, s, key)
    requires e.Use? && e.key == key && s.clock <= e.now && e.thread in s.found && s.found[e.thread].key == key
    ensures Kept(L, Next(L, s, e, false), key, calls + [Call(e.n, e.now)], made)
  {
    var c := Call(e.n, e.now);
    OrderedLater(calls, made, s.clock, e.now);
    PlayOne(L, key, L.make(key, made), calls, c);
    UseLogs(L, s, e, false, key);
    assert Front(calls + [c]) == calls;
  }

  lemma KeptStep<O(!new)>(L: Limiter<O>, s1: State<O>, s2: State<O>, e: Event, key: Key, calls: seq<Call>, made: real,
                          regular: (Key, O) -> bool)
    requires Kept(L, s2, key, calls, made) && Linked(L, s1, s2, key) && Wired(L, s2, regular) && Enabled(s1, e)
    ensures Kept(L, Next(L, s2, e, false), key,
                 calls + if e.Use? && e.key == key then [Call(e.n, e.now)] else [],
                 if e.Find? && e.key == key && key !in s2.table then e.made else made)
  {
    assert calls + [] == calls;
    if e.Find? && e.key == key {
      KeptFind(L, s2, e, key, calls, made);
    } else if e.Use? && e.key == key {
      KeptUse(L, s2, e, key, calls, made);
    } else {
      if e.Find? || e.Use? {
        OtherUntouched(L, s2, e, key, false);
      }
      KeptOther(L, s2, Next(L, s2, e, false), key, calls, made);
    }
  }

  lemma {:induction false} RunKept<O(!new)>(L: Limiter<O>, es: seq<Event>, key: Key, regular: (Key, O) -> bool)
    returns (made: real)
    requires Sane(L, regular) && Forgets(L, regular, key) && Legal(L, es) && Obeys(L, es, key, STRICT)
    ensures Kept(L, After(L, es, false), key, CallsOf(es, key), made)
  {
    if es == [] {
      made := 0.0;
    } else {
      var s1, s2, e := After(L, Front(es), true), After(L, Front(es), false), Last(es);
      made := RunKept(L, Front(es), key, regular);
      RunLinked(L, Front(es), key, regular);
      RunWired(L, Front(es), regular);
      KeptStep(L, s1, s2, e, key, CallsOf(Front(es), key), made, regular);
      made := if e.Find? && e.key == key && key !in s2.table then e.made else made;
    }
  }

  /**
   With clean-up running, undisturbed, the answers to the requests of a key are
   those of one object that is never deleted.
   */
  lemma AnswersOfOneObject<O(!new)>(L: Limiter<O>, es: seq<Event>, key: Key, regular: (Key, O) -> bool)
    returns (made: real)
    requires Sane(L, regular) && Forgets(L, regular, key) && Legal(L, es) && Obeys(L, es, key, STRICT)
    ensures OfKey(After(L, es, true).log, key) == Play(L, key, L.make(key, made), CallsOf(es, key)).0
    ensures OrderedFrom(CallsOf(es, key), made, After(L, es, true).clock)
  {
    made := RunKept(L, es, key, regular);
    RunLinked(L, es, key, regular);
    if Unseen(After(L, es, false), key, CallsOf(es, key)) {
      made := After(L, es, true).clock;
    }
  }

  // ---- The limiter object ----

  /** How much was requested by the calls that were answered `ok`. */
  function Requested(log: seq<Outcome>, ok: bool): nat {
    if log == [] then 0
    else Requested(Front(log), ok) + if Last(log).ok == ok then Last(log).call.n else 0
  }

  lemma RequestedOne(log: seq<Outcome>, o: Outcome)
    ensures Requested(log + [o], o.ok) == Requested(log, o.ok) + o.call.n
    ensures Requested(log + [o], !o.ok) == Requested(log, !o.ok)
  {
    assert Front(log + [o]) == log;
  }

  /** The objects in the table, by key. */
  ghost function Values<O>(s: State<O>): map<Key, O>
    requires Tabled(s)
  {
    map k | k in s.table :: ObjectOf(s, k)
  }

  /** A request that nothing comes between, by what it does to the objects and to the log. */
  lemma FindThenUse<O>(L: Limiter<O>, s: State<O>, t: Thread, key: Key, c: Call)
    requires Tabled(s) && s.next !in s.objects
    requires forall j, k :: j in s.table && k in s.table && s.table[j] == s.table[k] ==> j == k
    ensures var s', o := UseStep(L, FindStep(L, s, t, key, c.now), t, key, c),
                         if key in s.table then ObjectOf(s, key) else L.make(key, c.now);
            && Tabled(s') && Values(s') == Values(s)[key := L.use(key, o, c)]
            && s'.log == s.log + [Outcome(key, c, L.allowed(key, o, c))]
  {
  }

  /**
   The part that `TokenBucketRateLimiter` and `SlidingWindowRateLimiter` share: the
   concurrent map, the global counters and the clean-up. A reference stands for a
   pointer to an object; what `allowN` does to the object is up to the limiter.
   */
  class RateLimiter<!O> {
    const L: Limiter<O>
    var table: map<Key, Ref>
    /** The objects made so far. */
    var objects: map<Ref, Object<O>>
    var next: Ref
    var totalRequests: nat
    var allowedRequests: nat
    var rejectedRequests: nat
    ghost var clock: real
    ghost var found: map<Thread, Found>
    ghost var doomed: Option<Doomed>
    ghost var log: seq<Outcome>

    ghost function Machine(): State<O>
      reads this
    {
      State(clock, objects, next, table, found, doomed, log)
    }

    /** The counters are the sums over the answers given. */
    ghost predicate Counted()
      reads this
    {
      && allowedRequests == Requested(log, true) && rejectedRequests == Requested(log, false)
      && totalRequests == allowedRequests + rejectedRequests
    }

    constructor (L: Limiter<O>)
      ensures Counted() && this.L == L && Machine() == Start()
    {
      this.L := L;
      table, objects, next, totalRequests, allowedRequests, rejectedRequests := map[], map[], 0, 0, 0, 0;
      clock, found, doomed, log := 0.0, map[], None, [];
    }

    /** `getBucket` and `getWindow`. */
    method Get(key: Key, made: real, ghost t: Thread) returns (ref: Ref)
      modifies this`objects, this`next, this`table, this`found
      ensures Machine() == FindStep(L, old(Machine()), t, key, made)
      ensures key in table && table[key] == ref && found[t] == Found(key, ref)
    {
      if key in table {
        ref := table[key];
      } else {
        ref := next;
        objects := objects[ref := Object(key, L.make(key, made))];
        table := table[key := ref];
        next := next + 1;
      }
      found := found[t := Found(key, ref)];
    }

    /** `allowN` on the object found, in the table or not. */
    method UseObject(ref: Ref, key: Key, n: nat, now: real, ghost t: Thread) returns (ok: bool)
      requires t in found && found[t] == Found(key, ref) && ref in objects
      modifies this`objects, this`found, this`doomed, this`log
      ensures Machine() == UseStep(L, old(Machine()), t, key, Call(n, now))
      ensures log == old(log) + [Outcome(key, Call(n, now), ok)]
    {
      var o := objects[ref].value;
      ok := L.allowed(key, o, Call(n, now));
      objects := objects[ref := Object(key, L.use(key, o, Call(n, now)))];
      found := found - {t};
      doomed := if doomed.Some? && doomed.value.key == key then Some(Doomed(key, true)) else doomed;
      log := log + [Outcome(key, Call(n, now), ok)];
    }

    /** The global counters, behind the answer. */
    method Count(n: nat, ok: bool)
      modifies this`totalRequests, this`allowedRequests, this`rejectedRequests
      ensures totalRequests == old(totalRequests) + n
      ensures allowedRequests == old(allowedRequests) + if ok then n else 0
      ensures rejectedRequests == old(rejectedRequests) + if ok then 0 else n
    {
      totalRequests := totalRequests + n;
      if ok {
        allowedRequests := allowedRequests + n;
      } else {
        rejectedRequests := rejectedRequests + n;
      }
    }

    /** The rest of `AllowN`: `allowN` on the object found, and the counters. */
    method Use(ref: Ref, key: Key, n: nat, now: real, ghost t: Thread) returns (ok: bool)
      requires Counted() && t in found && found[t] == Found(key, ref) && ref in objects
      modifies this`objects, this`found, this`doomed, this`log,
               this`totalRequests, this`allowedRequests, this`rejectedRequests
      ensures Counted() && Machine() == UseStep(L, old(Machine()), t, key, Call(n, now))
      ensures Last(log) == Outcome(key, Call(n, now), ok)
    {
      ok := UseObject(ref, key, n, now, t);
      ghost var s := Machine();
      RequestedOne(old(log), Outcome(key, Call(n, now), ok));
      Count(n, ok);
      assert Machine() == s;
    }

    /** `AllowN` with nothing between finding the object and using it. */
    method AllowN(key: Key, n: nat, now: real, ghost t: Thread) returns (ok: bool)
      requires Counted() && Tabled(Machine()) && t !in found
      modifies this
      ensures Counted()
      ensures Machine() == UseStep(L, FindStep(L, old(Machine()), t, key, now), t, key, Call(n, now))
      ensures Last(log) == Outcome(key, Call(n, now), ok)
    {
      var ref := Get(key, now, t);
      ok := Use(ref, key, n, now, t);
    }

    /** The check of one key in `cleanup`: its object, last seen before the cut-off, is to go. */
    method CheckIdle(key: Key, started: real) returns (idle: bool)
      requires key in table && table[key] in objects && doomed.None?
      modifies this`doomed
      ensures Machine() == InspectStep(L, old(Machine()), key, started)
      ensures idle <==> doomed == Some(Doomed(key, false))
      ensures idle <==> SeenBefore(table[key], started - L.interval)
    {
      idle := L.lastSeen(objects[table[key]].value) < started - L.interval;
      doomed := if idle then Some(Doomed(key, false)) else None;
    }

    /** The delete that follows, by key. */
    method DeleteKey(key: Key)
      requires doomed.Some? && doomed.value.key == key
      modifies this`table, this`doomed
      ensures Machine() == DeleteStep(old(Machine()))
    {
      table := table - {key};
      doomed := None;
    }

    /** The object was last seen before `cutoff`. */
    predicate SeenBefore(ref: Ref, cutoff: real)
      reads this`objects
    {
      ref in objects && L.lastSeen(objects[ref].value) < cutoff
    }

    /** A whole `cleanup` with no request in between. */
    method Cleanup(now: real)
      requires Tabled(Machine()) && doomed.None?
      modifies this`table, this`doomed
      ensures doomed.None?
      ensures table == map k | k in old(table) && !SeenBefore(old(table)[k], now - L.interval) :: old(table)[k]
    {
      var keys := table.Keys;
      while keys != {}
        invariant keys <= table.Keys <= old(table).Keys && doomed.None?
        invariant forall k :: k in table ==> table[k] == old(table)[k]
        invariant forall k :: k in table && k !in keys ==> !SeenBefore(table[k], now - L.interval)
        invariant forall k :: k in old(table) && !SeenBefore(old(table)[k], now - L.interval) ==> k in table
        decreases |keys|
      {
        var key :| key in keys;
        keys := keys - {key};
        var idle := CheckIdle(key, now);
        if idle {
          DeleteKey(key);
        }
      }
    }
  }
}
