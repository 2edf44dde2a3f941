/**
 Stable sorting by a strict weak order, as a specification: `Sort` is what every
 stable sort returns, and exchanging neighbours that are out of order does not
 change it, which is all an in-place exchange sort has to keep.
 */
module Sorting {
  ghost predicate StrictWeak<T(!new)>(lt: (T, T) -> bool) {
    && (forall a :: !lt(a, a))
    && (forall a, b, c :: lt(a, b) && lt(b, c) ==> lt(a, c))
    && (forall a, b, c :: !lt(a, b) && !lt(b, c) ==> !lt(a, c))
  }

  /** Put `x` in front of the first element that is not before it. */
  function Insert<T>(lt: (T, T) -> bool, x: T, s: seq<T>): seq<T> {
    if s != [] && lt(s[0], x) then [s[0]] + Insert(lt, x, s[1..]) else [x] + s
  }

  function Sort<T>(lt: (T, T) -> bool, s: seq<T>): seq<T> {
    if s == [] then [] else Insert(lt, s[0], Sort(lt, s[1..]))
  }

  predicate Sorted<T>(lt: (T, T) -> bool, s: seq<T>) {
    forall i, j :: 0 <= i < j < |s| ==> !lt(s[j], s[i])
  }

  lemma {:induction false} InsertMultiset<T>(lt: (T, T) -> bool, x: T, s: seq<T>)
    ensures multiset(Insert(lt, x, s)) == multiset{x} + multiset(s)
  {
    if s == [] {
    } else {
      assert s == [s[0]] + s[1..];
      if lt(s[0], x) {
        InsertMultiset(lt, x, s[1..]);
      }
    }
  }

  lemma {:induction false} InsertSorted<T(!new)>(lt: (T, T) -> bool, x: T, s: seq<T>)
    requires StrictWeak(lt) && Sorted(lt, s)
    ensures Sorted(lt, Insert(lt, x, s))
  {
    if s != [] && lt(s[0], x) {
      var rest := Insert(lt, x, s[1..]);
      InsertSorted(lt, x, s[1..]);
      InsertMultiset(lt, x, s[1..]);
      forall j | 0 <= j < |rest| ensures !lt(rest[j], s[0]) {
        assert rest[j] in multiset(rest);
        assert rest[j] == x || rest[j] in s[1..];
      }
    }
  }

  /** The result is a sorted permutation. */
  lemma {:induction false} SortSorts<T(!new)>(lt: (T, T) -> bool, s: seq<T>)
    requires StrictWeak(lt)
    ensures Sorted(lt, Sort(lt, s)) && multiset(Sort(lt, s)) == multiset(s)
    ensures |Sort(lt, s)| == |s|
  {
    if s == [] {
    } else {
      SortSorts(lt, s[1..]);
      InsertSorted(lt, s[0], Sort(lt, s[1..]));
      InsertMultiset(lt, s[0], Sort(lt, s[1..]));
      assert s == [s[0]] + s[1..];
      assert |multiset(Sort(lt, s))| == |multiset(s)|;
    }
  }

  /** Elements the order does not distinguish from `z`. */
  function Peers<T>(lt: (T, T) -> bool, s: seq<T>, z: T): seq<T> {
    if s == [] then []
    else (if !lt(s[0], z) && !lt(z, s[0]) then [s[0]] else []) + Peers(lt, s[1..], z)
  }

  lemma {:induction false} InsertPeers<T(!new)>(lt: (T, T) -> bool, x: T, s: seq<T>, z: T)
    requires StrictWeak(lt)
    ensures Peers(lt, Insert(lt, x, s), z) == (if !lt(x, z) && !lt(z, x) then [x] else []) + Peers(lt, s, z)
  {
    if s != [] && lt(s[0], x) {
      InsertPeers(lt, x, s[1..], z);
      var rest := Insert(lt, x, s[1..]);
      assert ([s[0]] + rest)[1..] == rest;
    } else {
      assert ([x] + s)[1..] == s;
    }
  }

  /** Stability: equals keep the order they came in. */
  lemma {:induction false} SortIsStable<T(!new)>(lt: (T, T) -> bool, s: seq<T>, z: T)
    requires StrictWeak(lt)
    ensures Peers(lt, Sort(lt, s), z) == Peers(lt, s, z)
  {
    if s == [] {
    } else {
      SortIsStable(lt, s[1..], z);
      InsertPeers(lt, s[0], Sort(lt, s[1..]), z);
    }
  }

  lemma {:induction false} SortedIsFixed<T>(lt: (T, T) -> bool, s: seq<T>)
    requires Sorted(lt, s)
    ensures Sort(lt, s) == s
  {
    if s == [] {
    } else {
      SortedIsFixed(lt, s[1..]);
      assert s == [s[0]] + s[1..];
      assert s[1..] != [] ==> s[1..][0] == s[1];
    }
  }

  lemma {:induction false} InsertsCommute<T(!new)>(lt: (T, T) -> bool, x: T, y: T, s: seq<T>)
    requires StrictWeak(lt) && lt(y, x)
    ensures Insert(lt, x, Insert(lt, y, s)) == Insert(lt, y, Insert(lt, x, s))
  {
    if s != [] && lt(s[0], y) {
      InsertsCommute(lt, x, y, s[1..]);
      var sx, sy := Insert(lt, x, s[1..]), Insert(lt, y, s[1..]);
      assert lt(s[0], x);
      assert ([s[0]] + sx)[1..] == sx && ([s[0]] + sy)[1..] == sy;
    } else {
      assert ([y] + s)[1..] == s;
    }
  }

  /** Exchanging a neighbouring pair that is out of order leaves the sorted result alone. */
  lemma {:induction false} SwapKeepsSort<T(!new)>(lt: (T, T) -> bool, s: seq<T>, j: nat)
    requires StrictWeak(lt) && j + 1 < |s| && lt(s[j + 1], s[j])
    ensures Sort(lt, s[j := s[j + 1]][j + 1 := s[j]]) == Sort(lt, s)
  {
    var t := s[j := s[j + 1]][j + 1 := s[j]];
    if j == 0 {
      assert s[1..][1..] == s[2..] && t[1..][1..] == s[2..];
      InsertsCommute(lt, s[0], s[1], Sort(lt, s[2..]));
    } else {
      assert t[1..] == s[1..][j - 1 := s[1..][j]][j := s[1..][j - 1]];
      SwapKeepsSort(lt, s[1..], j - 1);
    }
  }
}
