/**
 Cursor pagination over a registry: `paginate`, the opaque cursors, and the
 traversal a client makes by following them while items may be added.
 */
module Pagination {
  import opened Common
  import opened Base64Url
  import opened Sorting

  const DEFAULT_PAGE_SIZE: nat := 100

  /** Keys are Go strings, that is, byte strings. */
  type Key = seq<Byte>

  datatype Item = Item(key: Key, body: string)

  /** Go's `<` on strings: lexicographic by bytes. */
  predicate Less(a: Key, b: Key) {
    b != [] && (a == [] || a[0] < b[0] || (a[0] == b[0] && Less(a[1..], b[1..])))
  }

  predicate Before(a: Item, b: Item) {
    Less(a.key, b.key)
  }

  lemma {:induction false} LessIrreflexive(a: Key)
    ensures !Less(a, a)
  {
    if a == [] {
    } else {
      LessIrreflexive(a[1..]);
    }
  }

  lemma {:induction false} LessTransitive(a: Key, b: Key, c: Key)
    requires Less(a, b) && Less(b, c)
    ensures Less(a, c)
  {
    if a != [] && a[0] == b[0] && b[0] == c[0] {
      LessTransitive(a[1..], b[1..], c[1..]);
    }
  }

  lemma {:induction false} LessTotal(a: Key, b: Key)
    ensures Less(a, b) || a == b || Less(b, a)
  {
    if a != [] && b != [] && a[0] == b[0] {
      LessTotal(a[1..], b[1..]);
      assert a == [a[0]] + a[1..] && b == [b[0]] + b[1..];
    }
  }

  /** The first place where two keys differ decides, and the end of a key comes before any byte. */
  ghost predicate DiffersAt(a: Key, b: Key, k: nat) {
    && k <= |a| && k < |b| && a[..k] == b[..k]
    && (k == |a| || a[k] < b[k])
  }

  lemma {:induction false} LessIff(a: Key, b: Key)
    ensures Less(a, b) <==> exists k: nat :: DiffersAt(a, b, k)
  {
    if b == [] {
    } else if a == [] || a[0] != b[0] {
      assert Less(a, b) ==> DiffersAt(a, b, 0);
    } else {
      LessIff(a[1..], b[1..]);
      if Less(a, b) {
        var k: nat :| DiffersAt(a[1..], b[1..], k);
        assert a[..k + 1] == [a[0]] + a[1..][..k] && b[..k + 1] == [b[0]] + b[1..][..k];
        assert DiffersAt(a, b, k + 1);
      }
      if k: nat :| DiffersAt(a, b, k) {
        assert k > 0;
        assert a[1..][..k - 1] == a[..k][1..] && b[1..][..k - 1] == b[..k][1..];
        assert DiffersAt(a[1..], b[1..], k - 1);
      }
    }
  }

  lemma BeforeIsStrictWeak()
    ensures StrictWeak(Before)
  {
    forall a: Item ensures !Before(a, a) {
      LessIrreflexive(a.key);
    }
    forall a: Item, b: Item, c: Item | Before(a, b) && Before(b, c) ensures Before(a, c) {
      LessTransitive(a.key, b.key, c.key);
    }
    forall a: Item, b: Item, c: Item | !Before(a, b) && !Before(b, c) ensures !Before(a, c) {
      LessTotal(a.key, b.key);
      LessTotal(b.key, c.key);
      if Less(a.key, c.key) {
        if a.key != b.key {
          LessTransitive(b.key, a.key, c.key);
        }
      }
    }
  }

  /** Strictly increasing keys. */
  ghost predicate Increasing(s: seq<Item>) {
    forall i, j :: 0 <= i < j < |s| ==> Less(s[i].key, s[j].key)
  }

  ghost predicate DistinctKeys(s: seq<Item>) {
    forall i, j :: 0 <= i < j < |s| ==> s[i].key != s[j].key
  }

  /** Whether an item comes after the cursor's key; without a cursor every item does. */
  predicate Follows(after: Option<Key>, x: Item) {
    after.None? || Less(after.value, x.key)
  }

  /** Index of the first item after the cursor in an increasing list. */
  ghost predicate IsStart(sorted: seq<Item>, after: Option<Key>, start: nat) {
    && start <= |sorted|
    && (forall i :: 0 <= i < start ==> !Follows(after, sorted[i]))
    && (forall i :: start <= i < |sorted| ==> Follows(after, sorted[i]))
  }

  /** `sort.Search`: the smallest index whose item follows the key. */
  method SearchAfter(sorted: seq<Item>, after: Key) returns (start: nat)
    requires Increasing(sorted)
    ensures IsStart(sorted, Some(after), start)
  {
    var i, j := 0, |sorted|;
    while i < j
      invariant 0 <= i <= j <= |sorted|
      invariant forall k :: 0 <= k < i ==> !Less(after, sorted[k].key)
      invariant forall k :: j <= k < |sorted| ==> Less(after, sorted[k].key)
    {
      var h := i + (j - i) / 2;
      if !Less(after, sorted[h].key) {
        forall k | 0 <= k < h ensures !Less(after, sorted[k].key) {
          if Less(after, sorted[k].key) {
            LessTransitive(after, sorted[k].key, sorted[h].key);
          }
        }
        i := h + 1;
      } else {
        forall k | h < k < |sorted| ensures Less(after, sorted[k].key) {
          LessTransitive(after, sorted[h].key, sorted[k].key);
        }
        j := h;
      }
    }
    start := i;
  }

  /** The items after the cursor, in order. */
  function Rest(sorted: seq<Item>, after: Option<Key>): seq<Item> {
    if sorted == [] || Follows(after, sorted[0]) then sorted else Rest(sorted[1..], after)
  }

  /** A page of what is left, and the cursor for the next one. */
  function FirstPage(rest: seq<Item>): (seq<Item>, string) {
    if DEFAULT_PAGE_SIZE >= |rest| then (rest, "")
    else (rest[..DEFAULT_PAGE_SIZE], Encode(rest[DEFAULT_PAGE_SIZE - 1].key))
  }

  /** What `paginate` returns for a list of items in any order. */
  function PageOf(items: seq<Item>, cursor: string): (seq<Item>, string) {
    var sorted := Sort(Before, items);
    if cursor == "" then FirstPage(sorted)
    else
      match Decode(cursor)
      case None => ([], "")
      case Some(after) => FirstPage(Rest(sorted, Some(after)))
  }

  lemma {:induction false} RestFromStart(sorted: seq<Item>, after: Option<Key>, start: nat)
    requires IsStart(sorted, after, start)
    ensures Rest(sorted, after) == sorted[start..]
  {
    if sorted != [] && start > 0 {
      assert IsStart(sorted[1..], after, start - 1) by {
        assert forall i :: 0 <= i < |sorted[1..]| ==> sorted[1..][i] == sorted[i + 1];
      }
      RestFromStart(sorted[1..], after, start - 1);
    }
  }

  lemma {:induction false} SortMembers(items: seq<Item>)
    ensures |Sort(Before, items)| == |items|
    ensures forall x :: x in Sort(Before, items) <==> x in items
  {
    BeforeIsStrictWeak();
    SortSorts(Before, items);
    forall x ensures x in Sort(Before, items) <==> x in items {
      assert x in multiset(Sort(Before, items)) <==> x in multiset(items);
    }
  }

  lemma {:induction false} InsertIncreasing(x: Item, s: seq<Item>)
    requires Increasing(s) && forall i :: 0 <= i < |s| ==> s[i].key != x.key
    ensures Increasing(Insert(Before, x, s))
  {
    if s == [] {
    } else {
      LessTotal(s[0].key, x.key);
      if Before(s[0], x) {
        var rest := Insert(Before, x, s[1..]);
        InsertIncreasing(x, s[1..]);
        InsertMultiset(Before, x, s[1..]);
        forall j | 0 <= j < |rest| ensures Less(s[0].key, rest[j].key) {
          assert rest[j] in multiset(rest);
          assert rest[j] == x || rest[j] in s[1..];
        }
      } else {
        forall j | 0 <= j < |s| ensures Less(x.key, s[j].key) {
          if j > 0 {
            LessTransitive(x.key, s[0].key, s[j].key);
          }
        }
      }
    }
  }

  /** Items with distinct keys come out strictly increasing. */
  lemma {:induction false} SortIncreasing(items: seq<Item>)
    requires DistinctKeys(items)
    ensures Increasing(Sort(Before, items))
  {
    if items == [] {
    } else {
      SortIncreasing(items[1..]);
      SortMembers(items[1..]);
      var rest := Sort(Before, items[1..]);
      forall i | 0 <= i < |rest| ensures rest[i].key != items[0].key {
        assert rest[i] in items[1..];
      }
      InsertIncreasing(items[0], rest);
    }
  }

  // ---- One page ----

  /** The key a cursor stands for. */
  ghost predicate CursorFor(cursor: string, after: Option<Key>) {
    if after.None? then cursor == "" else cursor != "" && Decode(cursor) == after
  }

  lemma {:induction false} StartExists(sorted: seq<Item>, after: Option<Key>) returns (start: nat)
    requires Increasing(sorted)
    ensures IsStart(sorted, after, start)
  {
    if sorted == [] || Follows(after, sorted[0]) {
      start := 0;
      if after.Some? {
        forall i | 0 <= i < |sorted| ensures Follows(after, sorted[i]) {
          if i > 0 {
            LessTransitive(after.value, sorted[0].key, sorted[i].key);
          }
        }
      }
    } else {
      var tail := StartExists(sorted[1..], after);
      start := tail + 1;
      assert forall i :: 0 < i < |sorted| ==> sorted[i] == sorted[1..][i - 1];
    }
  }

  lemma PageFrom(items: seq<Item>, cursor: string, after: Option<Key>)
    requires CursorFor(cursor, after)
    ensures PageOf(items, cursor) == FirstPage(Rest(Sort(Before, items), after))
  {
  }

  lemma RestMembers(sorted: seq<Item>, after: Option<Key>, start: nat)
    requires IsStart(sorted, after, start)
    ensures forall x :: x in sorted[start..] <==> x in sorted && Follows(after, x)
  {
    var rest := sorted[start..];
    forall x | x in sorted && Follows(after, x) ensures x in rest {
      var i :| 0 <= i < |sorted| && sorted[i] == x;
      assert rest[i - start] == x;
    }
  }

  /**
   A page holds the items after the cursor from the smallest key on, at most a
   hundred of them; if it is the last it holds all of them, otherwise the next
   cursor, never the empty string, stands for the key of its last item.
   */
  lemma PageContents(items: seq<Item>, cursor: string, after: Option<Key>)
    requires DistinctKeys(items) && CursorFor(cursor, after)
    ensures var (page, next) := PageOf(items, cursor);
            && |page| <= 100 && Increasing(page)
            && (forall x :: x in page ==> x in items && Follows(after, x))
            && (next == "" ==> forall x :: x in items && Follows(after, x) ==> x in page)
            && (next != "" ==>
                  && |page| == 100 && CursorFor(next, Some(Last(page).key))
                  && (forall x :: x in items && Follows(after, x) ==>
                        x in page || Less(Last(page).key, x.key)))
  {
    var sorted := Sort(Before, items);
    SortIncreasing(items);
    SortMembers(items);
    var start := StartExists(sorted, after);
    RestFromStart(sorted, after, start);
    PageFrom(items, cursor, after);
    var rest := sorted[start..];
    assert Increasing(rest);
    RestMembers(sorted, after, start);
    FirstPageContents(rest);
  }

  lemma FirstPageContents(rest: seq<Item>)
    requires Increasing(rest)
    ensures var (page, next) := FirstPage(rest);
            && |page| <= DEFAULT_PAGE_SIZE && page <= rest
            && (next == "" ==> page == rest)
            && (next != "" ==>
                  && |page| == DEFAULT_PAGE_SIZE && CursorFor(next, Some(Last(page).key))
                  && (forall x :: x in rest ==> x in page || Less(Last(page).key, x.key)))
  {
    if |rest| > DEFAULT_PAGE_SIZE {
      var page := rest[..DEFAULT_PAGE_SIZE];
      var lastKey := rest[DEFAULT_PAGE_SIZE - 1].key;
      assert Less(rest[0].key, lastKey);
      EncodeEmptyIff(lastKey);
      DecodeInvertsEncode(lastKey);
      forall x | x in rest ensures x in page || Less(lastKey, x.key) {
        var i :| 0 <= i < |rest| && rest[i] == x;
        if i < DEFAULT_PAGE_SIZE {
          assert page[i] == x;
        }
      }
    }
  }

  /**
   The page is empty exactly when the cursor is malformed or no item follows its
   key; that the key is unknown plays no part.
   */
  lemma EmptyPageIff(items: seq<Item>, cursor: string)
    requires DistinctKeys(items)
    ensures PageOf(items, cursor).0 == [] <==>
            (cursor != "" && Decode(cursor).None?) ||
            (forall x :: x in items ==> !Follows(if cursor == "" then None else Decode(cursor), x))
    ensures PageOf(items, cursor).0 == [] ==> PageOf(items, cursor).1 == ""
  {
    if cursor == "" || Decode(cursor).Some? {
      var after := if cursor == "" then None else Decode(cursor);
      PageContents(items, cursor, after);
      var (page, next) := PageOf(items, cursor);
      if page != [] {
        assert page[0] in page;
      }
    }
  }

  /** A key nobody registered, and a page all the same. */
  lemma UnknownCursorContinues(body: string)
    ensures var items := [Item([98], body)];
            && DistinctKeys(items) && (forall x :: x in items ==> x.key != [97])
            && CursorFor(Encode([97]), Some([97])) && PageOf(items, Encode([97])).0 != []
  {
    var items := [Item([98], body)];
    CursorOfKey([97]);
    assert Less([97], [98]);
    assert items[0] in items && Follows(Some([97]), items[0]);
    EmptyPageIff(items, Encode([97]));
  }

  // ---- Following cursors while items are added ----

  /** A request lists the registry of its moment in some order; nothing is removed in between. */
  ghost predicate Growing(listings: seq<seq<Item>>) {
    && (forall i :: 0 <= i < |listings| ==> DistinctKeys(listings[i]))
    && (forall i, j :: 0 <= i < j < |listings| ==> Included(listings[i], listings[j]))
  }

  ghost predicate Included(items: seq<Item>, later: seq<Item>) {
    forall x :: x in items ==> x in later
  }

  /** The items of all pages, requesting until the cursor is empty or the listings run out. */
  function Traverse(listings: seq<seq<Item>>, cursor: string): seq<Item>
    decreases |listings|
  {
    if listings == [] then []
    else
      var (page, next) := PageOf(listings[0], cursor);
      page + if next == "" then [] else Traverse(listings[1..], next)
  }

  /** The traversal ends within these requests. */
  predicate Finishes(listings: seq<seq<Item>>, cursor: string)
    decreases |listings|
  {
    listings != [] &&
    var next := PageOf(listings[0], cursor).1;
    next == "" || Finishes(listings[1..], next)
  }

  lemma ConcatIncreasing(page: seq<Item>, more: seq<Item>)
    requires Increasing(page) && Increasing(more)
    requires page != [] ==> forall x :: x in more ==> Less(Last(page).key, x.key)
    ensures Increasing(page + more)
  {
    var all := page + more;
    forall i, j | 0 <= i < j < |all| ensures Less(all[i].key, all[j].key) {
      if i < |page| <= j {
        assert all[j] in more;
        if i < |page| - 1 {
          LessTransitive(page[i].key, Last(page).key, all[j].key);
        }
      }
    }
  }

  /** A page from the first listing and what a traversal from its last key on returns. */
  lemma PageAndMore(page: seq<Item>, more: seq<Item>, first: seq<Item>, second: seq<Item>, end: seq<Item>,
                    after: Option<Key>)
    requires page != [] && Increasing(page) && Increasing(more) && Included(first, second) && Included(first, end)
    requires forall x :: x in page ==> x in first && Follows(after, x)
    requires forall x :: x in more ==> x in end && Follows(Some(Last(page).key), x)
    requires forall x :: x in first && Follows(after, x) ==> x in page || Less(Last(page).key, x.key)
    requires forall x :: x in second && Follows(Some(Last(page).key), x) ==> x in more
    ensures Increasing(page + more)
    ensures forall x :: x in page + more ==> Follows(after, x) && x in end
    ensures forall x :: x in first && Follows(after, x) ==> x in page + more
  {
    assert Last(page) in page;
    FollowsLater(after, Last(page), more);
    ConcatIncreasing(page, more);
  }

  lemma {:induction false} TraversalFrom(listings: seq<seq<Item>>, cursor: string, after: Option<Key>)
    requires Growing(listings) && CursorFor(cursor, after) && Finishes(listings, cursor)
    ensures Increasing(Traverse(listings, cursor))
    ensures forall x :: x in Traverse(listings, cursor) ==> Follows(after, x) && x in Last(listings)
    ensures forall x :: x in listings[0] && Follows(after, x) ==> x in Traverse(listings, cursor)
    decreases |listings|
  {
    var (page, next) := PageOf(listings[0], cursor);
    PageContents(listings[0], cursor, after);
    assert |listings| > 1 ==> Included(listings[0], listings[|listings| - 1]);
    if next == "" {
      assert page + [] == page;
    } else {
      TraversalFrom(listings[1..], next, Some(Last(page).key));
      assert Last(listings[1..]) == Last(listings) && listings[1..][0] == listings[1];
      assert Included(listings[0], listings[1]);
      PageAndMore(page, Traverse(listings[1..], next), listings[0], listings[1], Last(listings), after);
    }
  }

  lemma FollowsLater(after: Option<Key>, last: Item, more: seq<Item>)
    requires Follows(after, last) && forall x :: x in more ==> Follows(Some(last.key), x)
    ensures forall x :: x in more ==> Follows(after, x)
  {
    forall x | x in more ensures Follows(after, x) {
      if after.Some? {
        LessTransitive(after.value, last.key, x.key);
      }
    }
  }

  /**
   Pagination under growth: whatever order each listing comes in and whatever is
   added between requests, a traversal that finishes returns keys in strictly
   increasing order, so nothing twice, includes every item present at its start,
   and returns only items that are registered by its end.
   */
  lemma TraversalUnderGrowth(listings: seq<seq<Item>>)
    requires Growing(listings) && Finishes(listings, "")
    ensures Increasing(Traverse(listings, ""))
    ensures forall x :: x in listings[0] ==> x in Traverse(listings, "")
    ensures forall x :: x in Traverse(listings, "") ==> x in Last(listings)
  {
    TraversalFrom(listings, "", None);
  }

  // ---- A registry that does not change ----

  lemma {:induction false} IncreasingUnique(a: seq<Item>, b: seq<Item>)
    requires Increasing(a) && Increasing(b)
    requires forall x :: x in a <==> x in b
    ensures a == b
  {
    if a == [] {
      assert forall i :: 0 <= i < |b| ==> b[i] in b;
    } else {
      assert a[0] in b;
      assert b[0] in b && b[0] in a;
      var i :| 0 <= i < |b| && b[i] == a[0];
      var j :| 0 <= j < |a| && a[j] == b[0];
      assert a[0] == b[0] by {
        if i > 0 && j > 0 {
          LessTransitive(a[0].key, b[0].key, a[0].key);
          LessIrreflexive(a[0].key);
          assert false;
        }
      }
      forall x ensures x in a[1..] <==> x in b[1..] {
        RemoveHead(a, x);
        RemoveHead(b, x);
      }
      IncreasingUnique(a[1..], b[1..]);
      assert a == [a[0]] + a[1..] && b == [b[0]] + b[1..];
    }
  }

  lemma RemoveHead(a: seq<Item>, x: Item)
    requires Increasing(a) && a != []
    ensures x in a[1..] <==> x in a && x != a[0]
  {
    if x in a[1..] {
      LessIrreflexive(x.key);
    }
    if x in a && x != a[0] {
      var i :| 0 <= i < |a| && a[i] == x;
      assert a[1..][i - 1] == x;
    }
  }

  /** The order in which the Go map is walked does not matter. */
  lemma OrderDoesNotMatter(items: seq<Item>, others: seq<Item>, cursor: string)
    requires DistinctKeys(items) && DistinctKeys(others)
    requires forall x :: x in items <==> x in others
    ensures Sort(Before, items) == Sort(Before, others)
    ensures PageOf(items, cursor) == PageOf(others, cursor)
  {
    SortIncreasing(items);
    SortIncreasing(others);
    SortMembers(items);
    SortMembers(others);
    IncreasingUnique(Sort(Before, items), Sort(Before, others));
  }

  lemma CursorOfKey(key: Key)
    requires key != []
    ensures CursorFor(Encode(key), Some(key))
  {
    EncodeEmptyIff(key);
    DecodeInvertsEncode(key);
  }

  lemma RestAfterPages(sorted: seq<Item>, start: nat)
    requires Increasing(sorted) && 1 < start <= |sorted|
    ensures sorted[start - 1].key != []
    ensures Rest(sorted, Some(sorted[start - 1].key)) == sorted[start..]
  {
    var lastKey := sorted[start - 1].key;
    assert Less(sorted[0].key, lastKey);
    LessIrreflexive(lastKey);
    forall i | 0 <= i < start ensures !Follows(Some(lastKey), sorted[i]) {
      if Less(lastKey, sorted[i].key) && i < start - 1 {
        LessTransitive(lastKey, sorted[i].key, lastKey);
      }
    }
    RestFromStart(sorted, Some(lastKey), start);
  }

  function Concat(pages: seq<seq<Item>>): seq<Item> {
    if pages == [] then [] else Concat(Front(pages)) + Last(pages)
  }

  /** `cursor` asks for the sorted items from `start` on. */
  ghost predicate AsksFrom(sorted: seq<Item>, cursor: string, after: Option<Key>, start: nat) {
    CursorFor(cursor, after) && start <= |sorted| && Rest(sorted, after) == sorted[start..]
  }

  lemma PageOfSuffix(sorted: seq<Item>, start: nat)
    requires start <= |sorted|
    ensures FirstPage(sorted[start..]) ==
            if start + DEFAULT_PAGE_SIZE >= |sorted| then (sorted[start..], "")
            else (sorted[start..start + DEFAULT_PAGE_SIZE], Encode(sorted[start + DEFAULT_PAGE_SIZE - 1].key))
  {
    if start + DEFAULT_PAGE_SIZE < |sorted| {
      assert sorted[start..][..DEFAULT_PAGE_SIZE] == sorted[start..start + DEFAULT_PAGE_SIZE];
    }
  }

  /** One request of a walk: the rest of the items, or a hundred and a cursor behind them. */
  lemma WalkStep(items: seq<Item>, cursor: string, after: Option<Key>, start: nat) returns (after': Option<Key>)
    requires DistinctKeys(items) && AsksFrom(Sort(Before, items), cursor, after, start)
    ensures var sorted, end := Sort(Before, items), start + DEFAULT_PAGE_SIZE;
            if end >= |sorted| then PageOf(items, cursor) == (sorted[start..], "")
            else
              && PageOf(items, cursor).0 == sorted[start..end] && PageOf(items, cursor).1 != ""
              && AsksFrom(sorted, PageOf(items, cursor).1, after', end)
  {
    var sorted, end := Sort(Before, items), start + DEFAULT_PAGE_SIZE;
    PageFrom(items, cursor, after);
    PageOfSuffix(sorted, start);
    after' := after;
    if end < |sorted| {
      SortIncreasing(items);
      RestAfterPages(sorted, end);
      CursorOfKey(sorted[end - 1].key);
      after' := Some(sorted[end - 1].key);
    }
  }

  lemma ConcatOne(pages: seq<seq<Item>>, page: seq<Item>)
    ensures Concat(pages + [page]) == Concat(pages) + page
  {
    assert Front(pages + [page]) == pages;
  }

  /** The pages so far are the sorted items up to `start`, a hundred each. */
  ghost predicate Walked(sorted: seq<Item>, pages: seq<seq<Item>>, start: nat) {
    && start == |pages| * DEFAULT_PAGE_SIZE && start <= |sorted| && Concat(pages) == sorted[..start]
    && forall i :: 0 <= i < |pages| ==> |pages[i]| <= DEFAULT_PAGE_SIZE
  }

  lemma WalkedMore(sorted: seq<Item>, pages: seq<seq<Item>>, start: nat)
    requires Walked(sorted, pages, start) && start + DEFAULT_PAGE_SIZE < |sorted|
    ensures Walked(sorted, pages + [sorted[start..start + DEFAULT_PAGE_SIZE]], start + DEFAULT_PAGE_SIZE)
  {
    ConcatOne(pages, sorted[start..start + DEFAULT_PAGE_SIZE]);
    assert sorted[..start] + sorted[start..start + DEFAULT_PAGE_SIZE] == sorted[..start + DEFAULT_PAGE_SIZE];
  }

  lemma WalkedAll(sorted: seq<Item>, pages: seq<seq<Item>>, start: nat)
    requires Walked(sorted, pages, start) && start + DEFAULT_PAGE_SIZE >= |sorted|
    ensures Concat(pages + [sorted[start..]]) == sorted
    ensures forall i :: 0 <= i < |pages| + 1 ==> |(pages + [sorted[start..]])[i]| <= DEFAULT_PAGE_SIZE
  {
    ConcatOne(pages, sorted[start..]);
    assert sorted[..start] + sorted[start..] == sorted;
  }

  /**
   Walking a fixed registry from the empty cursor: it terminates, no page is
   longer than a hundred, and the pages together are the key-sorted registry.
   */
  method WalkPages(items: seq<Item>) returns (pages: seq<seq<Item>>)
    requires DistinctKeys(items)
    ensures Concat(pages) == Sort(Before, items)
    ensures forall i :: 0 <= i < |pages| ==> |pages[i]| <= 100
    ensures |items| <= |pages| * 100
    ensures |pages| == 1 || (|pages| - 1) * 100 < |items|
  {
    ghost var sorted := Sort(Before, items);
    SortMembers(items);
    pages := [];
    var cursor := "";
    ghost var after: Option<Key>, start := None, 0;
    assert sorted[0..] == sorted;
    while true
      invariant Walked(sorted, pages, start) && (pages != [] ==> start < |items|)
      invariant AsksFrom(sorted, cursor, after, start)
      decreases |items| - start
    {
      ghost var before := pages;
      after := WalkStep(items, cursor, after, start);
      var (page, next) := PageOf(items, cursor);
      pages := pages + [page];
      if next == "" {
        WalkedAll(sorted, before, start);
        return;
      }
      WalkedMore(sorted, before, start);
      cursor := next;
      start := start + DEFAULT_PAGE_SIZE;
    }
  }

  // ---- The code ----

  /** Up to `n` the array is in order, but for the element on its way down at `j`. */
  ghost predicate InOrderBut(s: seq<Item>, n: nat, j: nat) {
    forall p, q :: 0 <= p < q < n <= |s| && q != j ==> !Before(s[q], s[p])
  }

  /** The element at `n` travels down to its place among those before it. */
  method SiftIn(a: array<Item>, n: nat)
    requires n < a.Length && forall p, q :: 0 <= p < q < n ==> !Before(a[q], a[p])
    modifies a
    ensures Sort(Before, a[..]) == Sort(Before, old(a[..]))
    ensures forall p, q :: 0 <= p < q < n + 1 ==> !Before(a[q], a[p])
  {
    BeforeIsStrictWeak();
    var j := n;
    while j > 0 && Before(a[j], a[j - 1])
      invariant 0 <= j <= n
      invariant Sort(Before, a[..]) == Sort(Before, old(a[..]))
      invariant InOrderBut(a[..], n + 1, j)
      invariant forall q :: j < q <= n ==> !Before(a[..][q], a[..][j])
    {
      ghost var before := a[..];
      a[j - 1], a[j] := a[j], a[j - 1];
      assert a[..] == before[j - 1 := before[j]][j := before[j - 1]];
      SwapKeepsSort(Before, before, j - 1);
      SiftDown(before, n + 1, j);
      j := j - 1;
    }
    Placed(a[..], n + 1, j);
  }

  /** `sort.Slice` by key: whatever its algorithm, distinct keys leave one possible result. */
  method SortByKey(a: array<Item>)
    modifies a
    ensures a[..] == Sort(Before, old(a[..]))
  {
    var n := 0;
    while n < a.Length
      invariant 0 <= n <= a.Length
      invariant Sort(Before, a[..]) == Sort(Before, old(a[..]))
      invariant forall p, q :: 0 <= p < q < n ==> !Before(a[q], a[p])
    {
      SiftIn(a, n);
      n := n + 1;
    }
    SortedIsFixed(Before, a[..]);
  }

  /** Moving the travelling element one place down keeps the rest in order. */
  lemma SiftDown(s: seq<Item>, n: nat, j: nat)
    requires 0 < j < n <= |s| && InOrderBut(s, n, j) && Before(s[j], s[j - 1])
    requires forall q :: j < q < n ==> !Before(s[q], s[j])
    ensures var t := s[j - 1 := s[j]][j := s[j - 1]];
            InOrderBut(t, n, j - 1) && forall q :: j - 1 < q < n ==> !Before(t[q], t[j - 1])
  {
    BeforeIsStrictWeak();
  }

  /** Where the travelling element stops, everything is in order. */
  lemma Placed(s: seq<Item>, n: nat, j: nat)
    requires j < n <= |s| && InOrderBut(s, n, j) && (j == 0 || !Before(s[j], s[j - 1]))
    ensures forall p, q :: 0 <= p < q < n ==> !Before(s[q], s[p])
  {
    BeforeIsStrictWeak();
    forall p | 0 <= p < j ensures !Before(s[j], s[p]) {
      if p < j - 1 {
        assert !Before(s[j - 1], s[p]);
      }
    }
  }

  /** `paginate`: sorts the slice it is given and cuts a page out of it. */
  method Paginate(items: array<Item>, cursor: string) returns (page: seq<Item>, next: string)
    requires DistinctKeys(items[..])
    modifies items
    ensures items[..] == Sort(Before, old(items[..]))
    ensures (page, next) == PageOf(old(items[..]), cursor)
  {
    SortIncreasing(items[..]);
    SortByKey(items);
    ghost var sorted := items[..];
    var start := 0;
    if cursor != "" {
      var after := Decode(cursor);
      if after.None? {
        return [], "";
      }
      start := SearchAfter(items[..], after.value);
      RestFromStart(sorted, after, start);
    } else {
      assert sorted[0..] == sorted;
    }
    var end := start + DEFAULT_PAGE_SIZE;
    if end >= items.Length {
      assert sorted[start..] == items[start..];
      return items[start..], "";
    }
    assert sorted[start..][..DEFAULT_PAGE_SIZE] == items[start..end];
    return items[start..end], Encode(items[end - 1].key);
  }

  /** One of the server's registries (tools, prompts, resources, templates), by name or URI. */
  class Registry {
    var entries: map<Key, string>

    constructor ()
      ensures entries == map[]
    {
      entries := map[];
    }

    /** The items of the registry, in no particular order. */
    ghost predicate Lists(items: seq<Item>)
      reads this
    {
      && DistinctKeys(items)
      && forall x :: x in items <==> x.key in entries && entries[x.key] == x.body
    }

    /** `RegisterTool` and its three siblings: false is the already-exists error. */
    method Register(item: Item) returns (ok: bool)
      modifies this
      ensures ok <==> item.key !in old(entries)
      ensures entries == if ok then old(entries)[item.key := item.body] else old(entries)
      ensures forall k :: k in old(entries) ==> k in entries && entries[k] == old(entries)[k]
    {
      if item.key in entries {
        return false;
      }
      entries := entries[item.key := item.body];
      return true;
    }

    /** The list handlers: walk the map in whatever order, then paginate. */
    method List(cursor: string, ghost anyListing: seq<Item>) returns (page: seq<Item>, next: string)
      requires Lists(anyListing)
      ensures (page, next) == PageOf(anyListing, cursor)
    {
      var listing: seq<Item> := [];
      var keys := entries.Keys;
      while keys != {}
        invariant keys <= entries.Keys && DistinctKeys(listing)
        invariant forall x :: x in listing <==> x.key in entries && x.key !in keys && entries[x.key] == x.body
        decreases |keys|
      {
        var key :| key in keys;
        keys := keys - {key};
        listing := listing + [Item(key, entries[key])];
      }
      var items := new Item[|listing|](i requires 0 <= i < |listing| => listing[i]);
      assert items[..] == listing;
      page, next := Paginate(items, cursor);
      OrderDoesNotMatter(listing, anyListing, cursor);
    }
  }
}
