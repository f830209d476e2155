/**
 Python's `sorted` over strings, pairs of strings and time-stamped records.
 `Sort` is the (stable) sort the source calls; `SortedSet` is the specification
 of sorting a set of keys: the one strictly sorted sequence of its elements.
 */
module Ordering {

  /* ---------- order axioms, as predicates over a comparison ---------- */

  ghost predicate StrictOrder<T(!new)>(less: (T, T) -> bool) {
    && (forall x :: !less(x, x))
    && (forall x, y, z :: less(x, y) && less(y, z) ==> less(x, z))
    && (forall x, y :: x == y || less(x, y) || less(y, x))
  }

  ghost predicate StrictlySorted<T>(less: (T, T) -> bool, xs: seq<T>) {
    forall i, j :: 0 <= i < j < |xs| ==> less(xs[i], xs[j])
  }

  ghost predicate Distinct<T>(xs: seq<T>) {
    forall i, j :: 0 <= i < j < |xs| ==> xs[i] != xs[j]
  }

  function Elements<T>(xs: seq<T>): set<T> {
    set x | x in xs
  }

  /* ---------- sorting ---------- */

  /** Puts `x` before the first element that is not smaller than it. */
  function Insert<T>(less: (T, T) -> bool, x: T, xs: seq<T>): seq<T> {
    if xs == [] || !less(xs[0], x) then [x] + xs
    else [xs[0]] + Insert(less, x, xs[1..])
  }

  function Sort<T>(less: (T, T) -> bool, xs: seq<T>): seq<T> {
    if xs == [] then [] else Insert(less, xs[0], Sort(less, xs[1..]))
  }

  lemma {:induction false} InsertContents<T>(less: (T, T) -> bool, x: T, xs: seq<T>)
    ensures multiset(Insert(less, x, xs)) == multiset{x} + multiset(xs)
  {
    if xs == [] || !less(xs[0], x) {
    } else {
      InsertContents(less, x, xs[1..]);
      assert xs == [xs[0]] + xs[1..];
    }
  }

  /** Sorting only rearranges. */
  lemma {:induction false} SortContents<T>(less: (T, T) -> bool, xs: seq<T>)
    ensures multiset(Sort(less, xs)) == multiset(xs)
  {
    if xs == [] {
    } else {
      SortContents(less, xs[1..]);
      InsertContents(less, xs[0], Sort(less, xs[1..]));
      assert xs == [xs[0]] + xs[1..];
    }
  }

  lemma SameElements<T>(xs: seq<T>, ys: seq<T>)
    requires multiset(xs) == multiset(ys)
    ensures Elements(xs) == Elements(ys)
  {
    forall x ensures x in xs <==> x in ys {
      assert x in xs <==> x in multiset(xs);
      assert x in ys <==> x in multiset(ys);
    }
  }

  lemma InsertElements<T(!new)>(less: (T, T) -> bool, x: T, xs: seq<T>)
    ensures Elements(Insert(less, x, xs)) == {x} + Elements(xs)
  {
    InsertContents(less, x, xs);
    var inserted := Insert(less, x, xs);
    forall y ensures y in Elements(inserted) <==> y in {x} + Elements(xs) {
      assert y in inserted <==> y in multiset(inserted);
      assert y in xs <==> y in multiset(xs);
    }
  }

  /** A comparison of keys: ties are allowed, and what ties compares alike. */
  ghost predicate WeakOrder<T(!new)>(less: (T, T) -> bool) {
    && (forall x, y :: less(x, y) ==> !less(y, x))
    && (forall x, y, z :: !less(x, y) && !less(y, z) ==> !less(x, z))
  }

  /** Nothing comes before something smaller. */
  ghost predicate Ordered<T>(less: (T, T) -> bool, xs: seq<T>) {
    forall i, j :: 0 <= i < j < |xs| ==> !less(xs[j], xs[i])
  }

  lemma OrderedFront<T(!new)>(less: (T, T) -> bool, x: T, xs: seq<T>)
    requires Ordered(less, xs) && forall y :: y in Elements(xs) ==> !less(y, x)
    ensures Ordered(less, [x] + xs)
  {
    assert forall j :: 0 <= j < |xs| ==> xs[j] in Elements(xs);
  }

  lemma FirstIsLeast<T(!new)>(less: (T, T) -> bool, xs: seq<T>)
    requires WeakOrder(less) && Ordered(less, xs) && xs != []
    ensures forall y :: y in Elements(xs) ==> !less(y, xs[0])
    ensures Ordered(less, xs[1..]) && Elements(xs) == {xs[0]} + Elements(xs[1..])
  {
    assert xs == [xs[0]] + xs[1..];
  }

  lemma {:induction false} InsertOrdered<T(!new)>(less: (T, T) -> bool, x: T, xs: seq<T>)
    requires WeakOrder(less) && Ordered(less, xs)
    ensures Ordered(less, Insert(less, x, xs))
  {
    hide Ordered, Elements;
    if xs == [] {
      OneOrdered(less, x);
    } else {
      FirstIsLeast(less, xs);
      if less(xs[0], x) {
        InsertOrdered(less, x, xs[1..]);
        InsertElements(less, x, xs[1..]);
        OrderedFront(less, xs[0], Insert(less, x, xs[1..]));
      } else {
        OrderedFront(less, x, xs);
      }
    }
  }

  lemma OneOrdered<T>(less: (T, T) -> bool, x: T)
    ensures Ordered(less, [x] + [])
  {}

  /** Sorting puts everything in order. */
  lemma {:induction false} SortOrdered<T(!new)>(less: (T, T) -> bool, xs: seq<T>)
    requires WeakOrder(less)
    ensures Ordered(less, Sort(less, xs))
  {
    if xs != [] {
      SortOrdered(less, xs[1..]);
      InsertOrdered(less, xs[0], Sort(less, xs[1..]));
    }
  }

  /** The elements that tie with `x`, in their order. */
  ghost function Ties<T>(less: (T, T) -> bool, x: T, xs: seq<T>): seq<T> {
    if xs == [] then [] else (if !less(x, xs[0]) && !less(xs[0], x) then [xs[0]] else []) + Ties(less, x, xs[1..])
  }

  lemma TiesCons<T>(less: (T, T) -> bool, x: T, y: T, ys: seq<T>)
    ensures Ties(less, x, [y] + ys) == (if !less(x, y) && !less(y, x) then [y] else []) + Ties(less, x, ys)
  {
    assert ([y] + ys)[1..] == ys;
  }

  lemma {:induction false} InsertTies<T(!new)>(less: (T, T) -> bool, x: T, y: T, ys: seq<T>)
    requires WeakOrder(less)
    ensures Ties(less, x, Insert(less, y, ys)) == (if !less(x, y) && !less(y, x) then [y] else []) + Ties(less, x, ys)
  {
    hide Ties;
    if ys == [] || !less(ys[0], y) {
      TiesCons(less, x, y, ys);
    } else {
      InsertTies(less, x, y, ys[1..]);
      TiesCons(less, x, ys[0], Insert(less, y, ys[1..]));
      assert ys == [ys[0]] + ys[1..];
      TiesCons(less, x, ys[0], ys[1..]);
    }
  }

  /** Sorting leaves what ties in its order. */
  lemma {:induction false} SortStable<T(!new)>(less: (T, T) -> bool, x: T, xs: seq<T>)
    requires WeakOrder(less)
    ensures Ties(less, x, Sort(less, xs)) == Ties(less, x, xs)
  {
    if xs != [] {
      SortStable(less, x, xs[1..]);
      InsertTies(less, x, xs[0], Sort(less, xs[1..]));
    }
  }

  lemma StrictCons<T>(less: (T, T) -> bool, x: T, xs: seq<T>)
    requires StrictlySorted(less, xs) && forall y :: y in Elements(xs) ==> less(x, y)
    ensures StrictlySorted(less, [x] + xs)
  {
    forall j | 0 <= j < |xs| ensures less(x, xs[j]) {
      assert xs[j] in Elements(xs);
    }
  }

  lemma {:induction false} InsertStrict<T(!new)>(less: (T, T) -> bool, x: T, xs: seq<T>)
    requires StrictOrder(less) && StrictlySorted(less, xs) && x !in xs
    ensures StrictlySorted(less, Insert(less, x, xs))
    ensures Elements(Insert(less, x, xs)) == {x} + Elements(xs)
  {
    hide Insert, StrictlySorted, Elements;
    InsertElements(less, x, xs);
    if xs == [] {
      InsertFront(less, x, xs);
    } else if less(xs[0], x) {
      StrictTail(less, xs);
      InsertStrict(less, x, xs[1..]);
      InsertElements(less, x, xs[1..]);
      StrictCons(less, xs[0], Insert(less, x, xs[1..]));
      InsertLater(less, x, xs);
    } else {
      InsertFront(less, x, xs);
    }
  }

  lemma InsertLater<T>(less: (T, T) -> bool, x: T, xs: seq<T>)
    requires xs != [] && less(xs[0], x)
    ensures Insert(less, x, xs) == [xs[0]] + Insert(less, x, xs[1..])
  {}

  lemma StrictTail<T>(less: (T, T) -> bool, xs: seq<T>)
    requires StrictlySorted(less, xs) && xs != []
    ensures StrictlySorted(less, xs[1..]) && forall y :: y in Elements(xs[1..]) ==> less(xs[0], y)
  {}

  /** Inserting at the front keeps the order. */
  lemma InsertFront<T(!new)>(less: (T, T) -> bool, x: T, xs: seq<T>)
    requires StrictOrder(less) && StrictlySorted(less, xs) && x !in xs && (xs != [] ==> !less(xs[0], x))
    ensures StrictlySorted(less, Insert(less, x, xs))
  {
    if xs != [] {
      StrictTail(less, xs);
      assert less(x, xs[0]) by { assert xs[0] in xs; }
      assert xs == [xs[0]] + xs[1..];
    }
    StrictCons(less, x, xs);
  }

  /** Sorting distinct keys yields a strictly sorted sequence of the same keys. */
  lemma {:induction false} SortStrict<T(!new)>(less: (T, T) -> bool, xs: seq<T>)
    requires StrictOrder(less) && Distinct(xs)
    ensures StrictlySorted(less, Sort(less, xs))
    ensures Elements(Sort(less, xs)) == Elements(xs)
  {
    if xs == [] {
    } else {
      SortStrict(less, xs[1..]);
      var tail := Sort(less, xs[1..]);
      assert xs[0] !in tail by { assert xs[0] !in Elements(tail); }
      InsertStrict(less, xs[0], tail);
      assert Elements(xs) == {xs[0]} + Elements(xs[1..]) by { assert xs == [xs[0]] + xs[1..]; }
    }
  }

  /** A stable sort leaves a sequence that is already in order as it is. */
  lemma {:induction false} SortOfSorted<T>(less: (T, T) -> bool, xs: seq<T>)
    requires forall i, j :: 0 <= i < j < |xs| ==> !less(xs[j], xs[i])
    ensures Sort(less, xs) == xs
  {
    if xs == [] {
    } else {
      SortOfSorted(less, xs[1..]);
    }
  }

  lemma StrictlySortedDistinct<T(!new)>(less: (T, T) -> bool, xs: seq<T>)
    requires StrictOrder(less) && StrictlySorted(less, xs)
    ensures Distinct(xs)
  {}

  lemma EmptyTogether<T>(xs: seq<T>, ys: seq<T>)
    requires Elements(xs) == Elements(ys)
    ensures xs == [] <==> ys == []
  {
    if xs != [] { assert xs[0] in Elements(ys); }
    if ys != [] { assert ys[0] in Elements(xs); }
  }

  /** There is only one strictly sorted sequence of a given set. */
  lemma {:induction false} SortedUnique<T(!new)>(less: (T, T) -> bool, xs: seq<T>, ys: seq<T>)
    requires StrictOrder(less) && StrictlySorted(less, xs) && StrictlySorted(less, ys)
    requires Elements(xs) == Elements(ys)
    ensures xs == ys
  {
    EmptyTogether(xs, ys);
    if xs != [] {
      assert xs[0] in Elements(ys) && ys[0] in Elements(xs);
      assert xs[0] == ys[0];
      forall x ensures x in Elements(xs[1..]) <==> x in Elements(ys[1..]) {
        TailElements(less, xs, x);
        TailElements(less, ys, x);
      }
      SortedUnique(less, xs[1..], ys[1..]);
      assert xs == [xs[0]] + xs[1..] && ys == [ys[0]] + ys[1..];
    }
  }

  lemma TailElements<T(!new)>(less: (T, T) -> bool, xs: seq<T>, x: T)
    requires StrictOrder(less) && StrictlySorted(less, xs) && xs != []
    ensures x in xs[1..] <==> x in Elements(xs) && x != xs[0]
  {
    assert xs == [xs[0]] + xs[1..];
  }

  /* ---------- sorting a set of keys ---------- */

  ghost function Listing<T(!new)>(s: set<T>): (xs: seq<T>)
    ensures Distinct(xs) && Elements(xs) == s && |xs| == |s|
  {
    if s == {} then [] else
      var x :| x in s;
      var rest := Listing(s - {x});
      assert x !in rest by { assert x !in Elements(rest); }
      assert forall y :: y in [x] + rest <==> y == x || y in Elements(rest);
      [x] + rest
  }

  /** The elements of `s`, in strictly increasing order. */
  ghost function SortedSet<T(!new)>(less: (T, T) -> bool, s: set<T>): (xs: seq<T>)
    requires StrictOrder(less)
    ensures StrictlySorted(less, xs) && Elements(xs) == s && |xs| == |s|
    ensures Distinct(xs)
  {
    SortStrict(less, Listing(s));
    SortContents(less, Listing(s));
    assert |multiset(Listing(s))| == |multiset(Sort(less, Listing(s)))|;
    Sort(less, Listing(s))
  }

  lemma SortedSetUnique<T(!new)>(less: (T, T) -> bool, xs: seq<T>)
    requires StrictOrder(less) && StrictlySorted(less, xs)
    ensures xs == SortedSet(less, Elements(xs))
  {
    SortedUnique(less, xs, SortedSet(less, Elements(xs)));
  }

  /** Sorting a list of distinct keys depends on the set of keys only. */
  lemma SortIsSortedSet<T(!new)>(less: (T, T) -> bool, xs: seq<T>)
    requires StrictOrder(less) && Distinct(xs)
    ensures Sort(less, xs) == SortedSet(less, Elements(xs))
    ensures |xs| == |Elements(xs)|
  {
    SortStrict(less, xs);
    SortedSetUnique(less, Sort(less, xs));
    SortContents(less, xs);
    assert |multiset(xs)| == |multiset(Sort(less, xs))|;
  }

  lemma {:induction false} DistinctCount<T(!new)>(xs: seq<T>)
    requires Distinct(xs)
    ensures |Elements(xs)| == |xs|
  {
    if xs == [] {
      assert Elements(xs) == {};
    } else {
      var init := xs[..|xs| - 1];
      assert xs == init + [xs[|xs| - 1]];
      assert xs[|xs| - 1] !in init;
      assert Elements(xs) == Elements(init) + {xs[|xs| - 1]};
      DistinctCount(init);
    }
  }

  /** How many members of `s` come before `x`. */
  ghost function Rank<T>(less: (T, T) -> bool, s: set<T>, x: T): nat {
    |set y | y in s && less(y, x)|
  }

  /** In a strictly sorted sequence, the position of an element counts the smaller ones. */
  lemma RankCounts<T(!new)>(less: (T, T) -> bool, s: set<T>, x: T, below: set<T>)
    requires forall y :: y in below <==> y in s && less(y, x)
    ensures Rank(less, s, x) == |below|
  {
    assert below == set y | y in s && less(y, x);
  }

  lemma PositionIsRank<T(!new)>(less: (T, T) -> bool, xs: seq<T>, i: nat)
    requires StrictOrder(less) && StrictlySorted(less, xs) && i < |xs|
    ensures Rank(less, Elements(xs), xs[i]) == i
  {
    var smaller := set y | y in Elements(xs) && less(y, xs[i]);
    forall y ensures y in smaller <==> y in Elements(xs[..i]) {
      if y in smaller {
        var j :| 0 <= j < |xs| && xs[j] == y;
        assert j < i;
        assert xs[..i][j] == y;
      }
    }
    assert smaller == Elements(xs[..i]);
    DistinctCount(xs[..i]);
  }

  /** The first `n` of a sorted sequence are its elements with fewer than `n` smaller ones. */
  lemma FirstByRank<T(!new)>(less: (T, T) -> bool, xs: seq<T>, n: nat, x: T)
    requires StrictOrder(less) && StrictlySorted(less, xs) && n <= |xs|
    ensures x in xs[..n] <==> x in xs && Rank(less, Elements(xs), x) < n
  {
    if x in xs {
      var i :| 0 <= i < |xs| && xs[i] == x;
      PositionIsRank(less, xs, i);
      if i < n {
        assert xs[..n][i] == x;
      }
      assert x in xs[..n] ==> i < n by {
        if x in xs[..n] {
          var j :| 0 <= j < n && xs[j] == x;
          assert j == i;
        }
      }
    }
  }

  /* ---------- strings, as Python compares them ---------- */

  predicate Less(a: string, b: string) {
    b != "" && (a == "" || a[0] < b[0] || (a[0] == b[0] && Less(a[1..], b[1..])))
  }

  lemma {:induction false} LessIrreflexive(a: string)
    ensures !Less(a, a)
  {
    if a != "" { LessIrreflexive(a[1..]); }
  }

  lemma {:induction false} LessTransitive(a: string, b: string, c: string)
    requires Less(a, b) && Less(b, c)
    ensures Less(a, c)
  {
    if a != "" && a[0] == b[0] == c[0] { LessTransitive(a[1..], b[1..], c[1..]); }
  }

  lemma {:induction false} LessTotal(a: string, b: string)
    ensures a == b || Less(a, b) || Less(b, a)
  {
    if a != "" && b != "" && a[0] == b[0] {
      LessTotal(a[1..], b[1..]);
      assert a == [a[0]] + a[1..] && b == [b[0]] + b[1..];
    }
  }

  /** `a` and `b` agree up to `k`, where `a` ends or has the smaller character. */
  ghost predicate SmallerAt(a: string, b: string, k: nat) {
    k <= |a| && k < |b| && a[..k] == b[..k] && (k == |a| || a[k] < b[k])
  }

  lemma SmallerShift(a: string, b: string, k: nat)
    requires a != "" && b != "" && a[0] == b[0]
    ensures SmallerAt(a, b, k + 1) <==> SmallerAt(a[1..], b[1..], k)
    ensures !SmallerAt(a, b, 0)
  {
    if k < |a| && k < |b| {
      assert a[..k + 1] == [a[0]] + a[1..][..k] && b[..k + 1] == [b[0]] + b[1..][..k];
    }
  }

  lemma SmallerStart(a: string, b: string, k: nat)
    requires a == "" || b == "" || a[0] != b[0]
    ensures SmallerAt(a, b, k) ==> k == 0
    ensures SmallerAt(a, b, 0) <==> Less(a, b)
  {
    SameStart(a, b, k);
  }

  lemma SameStart(a: string, b: string, k: nat)
    ensures SmallerAt(a, b, k) && k > 0 ==> a != "" && b != "" && a[0] == b[0]
  {
    if SmallerAt(a, b, k) && k > 0 {
      assert a[0] == a[..k][0] && b[0] == b[..k][0];
    }
  }

  /** Strings compare by the first character in which they differ, and a shorter one comes before its continuations. */
  lemma {:induction false} LessExactly(a: string, b: string)
    ensures Less(a, b) <==> exists k: nat :: SmallerAt(a, b, k)
  {
    hide SmallerAt;
    if a != "" && b != "" && a[0] == b[0] {
      LessExactly(a[1..], b[1..]);
      if k: nat :| SmallerAt(a, b, k) { SmallerShift(a, b, if k == 0 then 0 else k - 1); }
      if k: nat :| SmallerAt(a[1..], b[1..], k) { SmallerShift(a, b, k); }
    } else {
      SmallerStart(a, b, 0);
      if k: nat :| SmallerAt(a, b, k) { SmallerStart(a, b, k); }
    }
  }

  lemma StringOrder()
    ensures StrictOrder(Less)
  {
    forall x ensures !Less(x, x) { LessIrreflexive(x); }
    forall x, y, z | Less(x, y) && Less(y, z) ensures Less(x, z) { LessTransitive(x, y, z); }
    forall x, y ensures x == y || Less(x, y) || Less(y, x) { LessTotal(x, y); }
  }

  /** Position of the first `c` in `s`, or the length of `s`. */
  function First(s: string, c: char): (i: nat)
    ensures i <= |s|
  {
    if s == "" || s[0] == c then 0 else 1 + First(s[1..], c)
  }

  lemma {:induction false} FirstAfter(a: string, c: char, rest: string)
    requires c !in a
    ensures First(a + [c] + rest, c) == |a|
  {
    if a == "" {
      assert a + [c] + rest == [c] + rest;
    } else {
      assert (a + [c] + rest)[1..] == a[1..] + [c] + rest;
      FirstAfter(a[1..], c, rest);
    }
  }

  /** A text is cut at the first separator in one way only. */
  lemma CutUnique(a: string, c: char, rest: string, a': string, rest': string)
    requires c !in a && c !in a' && a + [c] + rest == a' + [c] + rest'
    ensures a == a' && rest == rest'
  {
    var s, s' := a + [c] + rest, a' + [c] + rest';
    FirstAfter(a, c, rest);
    FirstAfter(a', c, rest');
    assert s[..|a|] == a && s'[..|a'|] == a';
    assert s[|a| + 1..] == rest && s'[|a'| + 1..] == rest';
  }

  /** Tuples of two strings, compared component by component. */
  predicate PairLess(a: (string, string), b: (string, string)) {
    Less(a.0, b.0) || (a.0 == b.0 && Less(a.1, b.1))
  }

  lemma PairOrder()
    ensures StrictOrder(PairLess)
  {
    StringOrder();
    forall x: (string, string), y: (string, string) ensures x == y || PairLess(x, y) || PairLess(y, x) {
      assert x == (x.0, x.1) && y == (y.0, y.1);
    }
  }

  /** `sorted(ids)` for a set of identifiers. */
  ghost function SortedIds(s: set<string>): (xs: seq<string>)
    ensures StrictlySorted(Less, xs) && Elements(xs) == s && |xs| == |s| && Distinct(xs)
  {
    StringOrder();
    SortedSet(Less, s)
  }

  lemma SortedIdsIn(s: set<string>)
    ensures forall x :: x in SortedIds(s) <==> x in s
  {
    forall x ensures x in SortedIds(s) <==> x in s { assert x in SortedIds(s) <==> x in Elements(SortedIds(s)); }
  }

  /** Sorting the keys of a dictionary, whatever the order they were inserted in. */
  lemma SortGivesIds(keys: seq<string>)
    requires Distinct(keys)
    ensures Sort(Less, keys) == SortedIds(Elements(keys))
    ensures forall x :: x in Sort(Less, keys) <==> x in Elements(keys)
  {
    StringOrder();
    SortIsSortedSet(Less, keys);
    SortedIdsIn(Elements(keys));
  }

  /** `sorted(keys)` for a set of pairs. */
  ghost function SortedPairs(s: set<(string, string)>): (xs: seq<(string, string)>)
    ensures StrictlySorted(PairLess, xs) && Elements(xs) == s && |xs| == |s| && Distinct(xs)
  {
    PairOrder();
    SortedSet(PairLess, s)
  }

  lemma SortedPairsIn(s: set<(string, string)>)
    ensures forall x :: x in SortedPairs(s) <==> x in s
  {
    forall x ensures x in SortedPairs(s) <==> x in s { assert x in SortedPairs(s) <==> x in Elements(SortedPairs(s)); }
  }

  lemma SortGivesPairs(keys: seq<(string, string)>)
    requires Distinct(keys)
    ensures Sort(PairLess, keys) == SortedPairs(Elements(keys))
  {
    PairOrder();
    SortIsSortedSet(PairLess, keys);
  }

  /* ---------- listing and counting ---------- */

  /** One more element at the end of a listing without repetition. */
  lemma ListedOnce<T>(xs: seq<T>, x: T)
    requires Distinct(xs) && x !in Elements(xs)
    ensures Distinct(xs + [x]) && Elements(xs + [x]) == Elements(xs) + {x}
  {
    assert forall y :: y in xs ==> y in Elements(xs);
  }

  lemma CardinalityMonotone<T>(s: set<T>, t: set<T>)
    requires s <= t
    ensures |s| <= |t|
  {
    assert t == s + (t - s);
  }

  lemma Regroup<T>(xs: seq<T>, ys: seq<T>, zs: seq<T>)
    ensures xs + (ys + zs) == (xs + ys) + zs
  {}

  lemma SplitLast<T>(xs: seq<T>)
    requires xs != []
    ensures xs == xs[..|xs| - 1] + [xs[|xs| - 1]]
  {}

  lemma Without<T>(ys: seq<T>, j: nat)
    requires j < |ys|
    ensures multiset(ys[..j] + ys[j + 1..]) == multiset(ys) - multiset{ys[j]}
  {
    assert ys == ys[..j] + ([ys[j]] + ys[j + 1..]);
  }
}
