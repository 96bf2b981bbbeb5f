/** Ordering by string keys: the comparison and the stable sort that canonical forms rely on. */
module Ordering {

  /** Lexicographic order of strings. */
  predicate Less(a: string, b: string) {
    if b == "" then false
    else if a == "" then true
    else a[0] < b[0] || (a[0] == b[0] && Less(a[1..], b[1..]))
  }

  lemma {:induction false} LessTotal(a: string, b: string)
    ensures a == b || Less(a, b) || Less(b, a)
    ensures !(Less(a, b) && Less(b, a)) && !Less(a, a)
  {
    if a != "" && b != "" {
      LessTotal(a[1..], b[1..]);
      LessTotal(a[1..], a[1..]);
      assert a == [a[0]] + a[1..] && b == [b[0]] + b[1..];
    } else if a != "" {
      LessTotal(a[1..], a[1..]);
    }
  }

  lemma {:induction false} LessTransitive(a: string, b: string, c: string)
    requires Less(a, b) && Less(b, c)
    ensures Less(a, c)
  {
    if a != "" && a[0] == b[0] == c[0] {
      LessTransitive(a[1..], b[1..], c[1..]);
    }
  }

  // ----- sorting by a comparison -----

  /** Insert before the first element that does not come before it. */
  function Insert<T>(x: T, sorted: seq<T>, before: (T, T) -> bool): seq<T> {
    if sorted == [] then [x]
    else if before(sorted[0], x) then [sorted[0]] + Insert(x, sorted[1..], before)
    else [x] + sorted
  }

  function Arrange<T>(xs: seq<T>, before: (T, T) -> bool): seq<T> {
    if xs == [] then [] else Insert(xs[0], Arrange(xs[1..], before), before)
  }

  /** A comparison fit for sorting: nothing comes before what comes before it, and "not after" is transitive. */
  ghost predicate WeakOrder<T(!new)>(before: (T, T) -> bool) {
    && (forall a, b :: before(a, b) ==> !before(b, a))
    && (forall a, b, c :: !before(b, a) && !before(c, b) ==> !before(c, a))
  }

  ghost predicate Arranged<T(!new)>(xs: seq<T>, before: (T, T) -> bool) {
    forall i, j :: 0 <= i < j < |xs| ==> !before(xs[j], xs[i])
  }

  ghost predicate NoneBefore<T(!new)>(xs: seq<T>, x: T, before: (T, T) -> bool) {
    forall y :: y in xs ==> !before(y, x)
  }

  lemma {:induction false} InsertKeeps<T(!new)>(x: T, sorted: seq<T>, before: (T, T) -> bool)
    ensures multiset(Insert(x, sorted, before)) == multiset{x} + multiset(sorted)
  {
    if sorted != [] {
      assert sorted == [sorted[0]] + sorted[1..];
      InsertKeeps(x, sorted[1..], before);
    }
  }

  lemma ArrangedCons<T(!new)>(x: T, xs: seq<T>, before: (T, T) -> bool)
    requires Arranged(xs, before) && NoneBefore(xs, x, before)
    ensures Arranged([x] + xs, before)
  {}

  lemma HeadFirst<T(!new)>(x: T, head: T, rest: seq<T>, before: (T, T) -> bool)
    requires WeakOrder(before) && !before(head, x) && NoneBefore(rest, head, before)
    ensures NoneBefore(rest, x, before)
  {}

  lemma {:induction false} InsertArranges<T(!new)>(x: T, sorted: seq<T>, before: (T, T) -> bool)
    requires WeakOrder(before) && Arranged(sorted, before)
    ensures Arranged(Insert(x, sorted, before), before)
  {
    if sorted != [] {
      var head, rest := sorted[0], sorted[1..];
      assert NoneBefore(rest, head, before);
      if before(head, x) {
        InsertArranges(x, rest, before);
        InsertKeeps(x, rest, before);
        forall y | y in Insert(x, rest, before) ensures !before(y, head) {
          assert y in multiset(Insert(x, rest, before));
        }
        ArrangedCons(head, Insert(x, rest, before), before);
      } else {
        HeadFirst(x, head, rest, before);
        ArrangedCons(x, sorted, before);
      }
    }
  }

  /** Sorting only reorders. */
  lemma {:induction false} ArrangeKeeps<T(!new)>(xs: seq<T>, before: (T, T) -> bool)
    ensures multiset(Arrange(xs, before)) == multiset(xs) && |Arrange(xs, before)| == |xs|
    ensures forall x :: x in Arrange(xs, before) <==> x in xs
  {
    if xs != [] {
      ArrangeKeeps(xs[1..], before);
      InsertKeeps(xs[0], Arrange(xs[1..], before), before);
      assert xs == [xs[0]] + xs[1..];
    }
    forall x ensures x in Arrange(xs, before) <==> x in xs {
      assert x in multiset(Arrange(xs, before)) <==> x in multiset(xs);
    }
    assert |multiset(Arrange(xs, before))| == |multiset(xs)|;
  }

  /** ... and puts everything in its place. */
  lemma {:induction false} ArrangeArranges<T(!new)>(xs: seq<T>, before: (T, T) -> bool)
    requires WeakOrder(before)
    ensures Arranged(Arrange(xs, before), before)
  {
    if xs != [] {
      ArrangeArranges(xs[1..], before);
      InsertArranges(xs[0], Arrange(xs[1..], before), before);
    }
  }

  // ----- sorting by a string key -----

  function ByKey<T>(key: T -> string): (T, T) -> bool {
    (a, b) => Less(key(a), key(b))
  }

  function Sort<T>(xs: seq<T>, key: T -> string): seq<T> {
    Arrange(xs, ByKey(key))
  }

  ghost predicate Ascending<T(!new)>(xs: seq<T>, key: T -> string) {
    forall i, j :: 0 <= i < j < |xs| ==> Less(key(xs[i]), key(xs[j]))
  }

  predicate DistinctKeys<T(!new)>(xs: seq<T>, key: T -> string) {
    forall i, j :: 0 <= i < j < |xs| ==> key(xs[i]) != key(xs[j])
  }

  lemma KeysOrder<T(!new)>(key: T -> string)
    ensures WeakOrder(ByKey(key))
  {
    var before := ByKey(key);
    forall a, b | before(a, b) ensures !before(b, a) {
      LessTotal(key(a), key(b));
    }
    forall a, b, c | !before(b, a) && !before(c, b) ensures !before(c, a) {
      LessTotal(key(a), key(b));
      LessTotal(key(b), key(c));
      LessTotal(key(a), key(c));
      if Less(key(c), key(a)) {
        if Less(key(a), key(b)) {
          LessTransitive(key(c), key(a), key(b));
        }
      }
    }
  }

  ghost predicate AllAbove<T(!new)>(x: T, xs: seq<T>, key: T -> string) {
    forall y :: y in xs ==> Less(key(x), key(y))
  }

  lemma AscendingCons<T(!new)>(x: T, xs: seq<T>, key: T -> string)
    requires Ascending([x] + xs, key)
    ensures Ascending(xs, key) && AllAbove(x, xs, key)
  {
    var all := [x] + xs;
    forall i, j | 0 <= i < j < |xs| ensures Less(key(xs[i]), key(xs[j])) {
      assert all[i + 1] == xs[i] && all[j + 1] == xs[j];
    }
    forall y | y in xs ensures Less(key(x), key(y)) {
      var j :| 0 <= j < |xs| && xs[j] == y;
      assert all[0] == x && all[j + 1] == y;
    }
  }

  lemma {:induction false} DistinctCons<T(!new)>(x: T, xs: seq<T>, key: T -> string)
    ensures DistinctKeys([x] + xs, key) <==> DistinctKeys(xs, key) && forall y :: y in xs ==> key(y) != key(x)
  {
    var all := [x] + xs;
    if DistinctKeys(all, key) {
      forall i, j | 0 <= i < j < |xs| ensures key(xs[i]) != key(xs[j]) {
        assert all[i + 1] == xs[i] && all[j + 1] == xs[j];
      }
      forall y | y in xs ensures key(y) != key(x) {
        var j :| 0 <= j < |xs| && xs[j] == y;
        assert all[0] == x && all[j + 1] == y;
      }
    }
  }

  lemma {:induction false} InsertDistinct<T(!new)>(x: T, xs: seq<T>, before: (T, T) -> bool, key: T -> string)
    requires DistinctKeys(xs, key) && forall y :: y in xs ==> key(y) != key(x)
    ensures DistinctKeys(Insert(x, xs, before), key)
  {
    DistinctCons(x, xs, key);
    if xs != [] && before(xs[0], x) {
      var rest := Insert(x, xs[1..], before);
      assert xs == [xs[0]] + xs[1..];
      DistinctCons(xs[0], xs[1..], key);
      InsertDistinct(x, xs[1..], before, key);
      InsertKeeps(x, xs[1..], before);
      forall y | y in rest ensures key(y) != key(xs[0]) {
        assert y in multiset(rest);
      }
      DistinctCons(xs[0], rest, key);
    }
  }

  lemma {:induction false} ArrangeDistinct<T(!new)>(xs: seq<T>, before: (T, T) -> bool, key: T -> string)
    requires DistinctKeys(xs, key)
    ensures DistinctKeys(Arrange(xs, before), key)
  {
    if xs != [] {
      assert xs == [xs[0]] + xs[1..];
      DistinctCons(xs[0], xs[1..], key);
      ArrangeDistinct(xs[1..], before, key);
      ArrangeKeeps(xs[1..], before);
      InsertDistinct(xs[0], Arrange(xs[1..], before), before, key);
    }
  }

  lemma SortDistinct<T(!new)>(xs: seq<T>, key: T -> string)
    requires DistinctKeys(xs, key)
    ensures DistinctKeys(Sort(xs, key), key)
  {
    ArrangeDistinct(xs, ByKey(key), key);
  }

  /** Distinct keys end up in ascending order. */
  lemma SortAscends<T(!new)>(xs: seq<T>, key: T -> string)
    ensures multiset(Sort(xs, key)) == multiset(xs) && |Sort(xs, key)| == |xs|
    ensures forall x :: x in Sort(xs, key) <==> x in xs
    ensures DistinctKeys(xs, key) ==> Ascending(Sort(xs, key), key)
  {
    ArrangeKeeps(xs, ByKey(key));
    if DistinctKeys(xs, key) {
      KeysOrder(key);
      ArrangeArranges(xs, ByKey(key));
      SortDistinct(xs, key);
      var sorted := Sort(xs, key);
      forall i, j | 0 <= i < j < |sorted| ensures Less(key(sorted[i]), key(sorted[j])) {
        assert !ByKey(key)(sorted[j], sorted[i]);
        LessTotal(key(sorted[i]), key(sorted[j]));
      }
    }
  }

  lemma SameHead<T(!new)>(xs: seq<T>, ys: seq<T>, key: T -> string)
    requires xs != [] && ys != [] && multiset(xs) == multiset(ys)
    requires AllAbove(xs[0], xs[1..], key) && AllAbove(ys[0], ys[1..], key)
    ensures xs[0] == ys[0]
  {
    assert xs[0] in multiset(ys) && ys[0] in multiset(xs);
    if xs[0] != ys[0] {
      assert xs[0] in ys[1..] && ys[0] in xs[1..];
      LessTotal(key(xs[0]), key(ys[0]));
      assert false;
    }
  }

  lemma {:induction false} AscendingUnique<T(!new)>(xs: seq<T>, ys: seq<T>, key: T -> string)
    requires Ascending(xs, key) && Ascending(ys, key) && multiset(xs) == multiset(ys)
    ensures xs == ys
  {
    assert |multiset(xs)| == |multiset(ys)|;
    if xs != [] {
      assert xs == [xs[0]] + xs[1..] && ys == [ys[0]] + ys[1..];
      AscendingCons(xs[0], xs[1..], key);
      AscendingCons(ys[0], ys[1..], key);
      SameHead(xs, ys, key);
      assert multiset(xs[1..]) == multiset(xs) - multiset{xs[0]};
      assert multiset(ys[1..]) == multiset(ys) - multiset{ys[0]};
      AscendingUnique(xs[1..], ys[1..], key);
    }
  }

  /** The canonical form: lists with the same members sort to the same list. */
  lemma SortCanonical<T(!new)>(xs: seq<T>, ys: seq<T>, key: T -> string)
    requires multiset(xs) == multiset(ys) && DistinctKeys(xs, key) && DistinctKeys(ys, key)
    ensures Sort(xs, key) == Sort(ys, key)
  {
    SortAscends(xs, key);
    SortAscends(ys, key);
    AscendingUnique(Sort(xs, key), Sort(ys, key), key);
  }
}
