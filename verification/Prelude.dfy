/** Vocabulary shared by every component: optional values, results and a few facts about finite collections. */
module Prelude {

  datatype Option<+T> = None | Some(value: T) {
    /** The value when there is one, otherwise `default`: the source's `??`. */
    function GetOr(default: T): T {
      match this
      case Some(v) => v
      case None => default
    }
  }

  datatype Result<+T, +E> = Ok(value: T) | Err(error: E)

  type NonEmptyString = s: string | s != "" witness "-"

  type Positive = n: nat | 0 < n witness 1

  function Min(a: int, b: int): int {
    if a <= b then a else b
  }

  function Max(a: int, b: int): int {
    if a <= b then b else a
  }

  ghost predicate Distinct<T>(s: seq<T>) {
    forall i, j :: 0 <= i < j < |s| ==> s[i] != s[j]
  }

  // ----- products and quotients of reals, by name -----

  function Scaled(a: real, b: real): real {
    a * b
  }

  function Ratio(part: real, whole: real): real
    requires whole != 0.0
  {
    part / whole
  }

  lemma Quotient(a: real, b: real)
    requires b != 0.0
    ensures Scaled(Ratio(a, b), b) == a
  {}

  lemma AddScaled(a: real, b: real, w: real, x: real, y: real)
    requires Scaled(a, w) == x && Scaled(b, w) == y
    ensures Scaled(a + b, w) == x + y
  {}

  lemma ProperFraction(part: real, whole: real)
    requires 0.0 < part < whole
    ensures 0.0 < Ratio(part, whole) < 1.0
  {
    Quotient(part, whole);
    BetweenZeroAndOne(Ratio(part, whole), whole);
  }

  lemma BetweenZeroAndOne(r: real, whole: real)
    requires 0.0 < whole
    ensures 0.0 < Scaled(r, whole) < whole <==> 0.0 < r < 1.0
  {
    SameSign(r, whole);
    SameSign(1.0 - r, whole);
    assert Scaled(1.0 - r, whole) == whole - Scaled(r, whole);
  }

  lemma SameSign(a: real, w: real)
    requires 0.0 < w
    ensures 0.0 < Scaled(a, w) <==> 0.0 < a
    ensures 0.0 <= Scaled(a, w) <==> 0.0 <= a
  {}

  lemma SubsetSize<T>(a: set<T>, b: set<T>)
    requires a <= b
    ensures |a| <= |b|
  {
    assert b == a + (b - a);
  }

  /** A nonempty set has an element with the least key: what `order by ... limit 1` returns. */
  lemma {:induction false} LeastExists<T>(some: set<T>, key: T -> int)
    requires some != {}
    ensures exists x :: x in some && forall y :: y in some ==> key(x) <= key(y)
    decreases |some|
  {
    var x :| x in some;
    if some == {x} {
      assert forall y :: y in some ==> key(x) <= key(y);
    } else {
      LeastExists(some - {x}, key);
      var z :| z in some - {x} && forall y :: y in some - {x} ==> key(z) <= key(y);
      var best := if key(x) <= key(z) then x else z;
      forall y | y in some ensures key(best) <= key(y) {
        if y != x {
          assert y in some - {x};
        }
      }
    }
  }

  // ----- sums over finite sets -----

  ghost function SumOver<T(!new)>(cells: set<T>, f: T -> nat): nat {
    if cells == {} then 0
    else
      var c :| c in cells;
      f(c) + SumOver(cells - {c}, f)
  }

  lemma {:induction false} SumRemove<T(!new)>(cells: set<T>, c: T, f: T -> nat)
    requires c in cells
    ensures SumOver(cells, f) == f(c) + SumOver(cells - {c}, f)
    decreases |cells|
  {
    var d :| d in cells && SumOver(cells, f) == f(d) + SumOver(cells - {d}, f);
    if d != c {
      SumRemove(cells - {d}, c, f);
      SumRemove(cells - {c}, d, f);
      assert cells - {d} - {c} == cells - {c} - {d};
    }
  }

  lemma SumAdd<T(!new)>(cells: set<T>, c: T, f: T -> nat)
    requires c !in cells
    ensures SumOver(cells + {c}, f) == SumOver(cells, f) + f(c)
  {
    SumRemove(cells + {c}, c, f);
    assert cells + {c} - {c} == cells;
  }

  lemma {:induction false} SumGrows<T(!new)>(some: set<T>, all: set<T>, f: T -> nat)
    requires some <= all
    ensures SumOver(some, f) <= SumOver(all, f)
    decreases |all|
  {
    if c :| c in all && c !in some {
      SumRemove(all, c, f);
      SumGrows(some, all - {c}, f);
    } else {
      assert some == all;
    }
  }

  lemma {:induction false} SumBelow<T(!new)>(cells: set<T>, f: T -> nat, g: T -> nat)
    requires forall c :: c in cells ==> f(c) <= g(c)
    ensures SumOver(cells, f) <= SumOver(cells, g)
    decreases |cells|
  {
    if c :| c in cells {
      SumRemove(cells, c, f);
      SumRemove(cells, c, g);
      SumBelow(cells - {c}, f, g);
    }
  }

  /** A sum only needs the members where its terms are not zero. */
  lemma {:induction false} SumSupport<T(!new)>(all: set<T>, some: set<T>, f: T -> nat, g: T -> nat)
    requires some <= all
    requires forall c :: c in all ==> f(c) == if c in some then g(c) else 0
    ensures SumOver(all, f) == SumOver(some, g)
    decreases |all|
  {
    if c :| c in all {
      SumRemove(all, c, f);
      if c in some {
        SumRemove(some, c, g);
      } else {
        assert some - {c} == some;
      }
      SumSupport(all - {c}, some - {c}, f, g);
    }
  }
}
