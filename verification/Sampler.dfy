/** Deterministic weighted sampling without replacement, each draw with its conditional probability. */
module Sampler {
  import opened Prelude
  import opened Ordering
  import opened Recommendations

  /** The uniform number of a draw, derived from the seed, the decision and the draw's position. */
  type Uniform = u: real | 0.0 <= u < 1.0 witness 0.0

  datatype Draw = Draw(candidate: Candidate, probability: real, number: nat)

  datatype Sampled = Sampled(draws: seq<Draw>, shortfall: nat)

  datatype Error = CountOutOfRange

  function Total(remaining: seq<Entry>): real {
    if remaining == [] then 0.0 else remaining[0].weight + Total(remaining[1..])
  }

  /** What an entry counts for in a draw: its weight, or one when no weight is left. */
  function Share(e: Entry, total: real): real {
    if total != 0.0 then e.weight else 1.0
  }

  /** The whole that shares are taken of. */
  function Whole(remaining: seq<Entry>): real {
    if Total(remaining) != 0.0 then Total(remaining) else |remaining| as real
  }

  /** The first position at which the threshold is used up, or the last one. */
  function Position(remaining: seq<Entry>, total: real, threshold: real): (k: nat)
    requires remaining != []
    ensures k < |remaining|
  {
    if |remaining| == 1 || threshold - Share(remaining[0], total) < 0.0 then 0
    else 1 + Position(remaining[1..], total, threshold - Share(remaining[0], total))
  }

  function Chosen(remaining: seq<Entry>, u: Uniform): (k: nat)
    requires remaining != []
    ensures k < |remaining|
  {
    Position(remaining, Total(remaining), Scaled(u, Whole(remaining)))
  }

  function Probability(remaining: seq<Entry>, k: nat): real
    requires k < |remaining|
  {
    if Total(remaining) != 0.0 then Ratio(remaining[k].weight, Total(remaining)) else Ratio(1.0, |remaining| as real)
  }

  function Without<T>(xs: seq<T>, k: nat): seq<T>
    requires k < |xs|
  {
    xs[..k] + xs[k + 1..]
  }

  function DrawAt(remaining: seq<Entry>, k: nat, drawn: nat): Draw
    requires k < |remaining|
  {
    Draw(remaining[k].candidate, Probability(remaining, k), drawn + 1)
  }

  function DrawsFrom(remaining: seq<Entry>, uniforms: nat -> Uniform, drawn: nat, count: nat): seq<Draw>
    decreases count
  {
    if remaining == [] || count == 0 then []
    else
      var k := Chosen(remaining, uniforms(drawn));
      [DrawAt(remaining, k, drawn)] + DrawsFrom(Without(remaining, k), uniforms, drawn + 1, count - 1)
  }

  function Draws(entries: seq<Entry>, uniforms: nat -> Uniform, count: nat): seq<Draw> {
    DrawsFrom(Sort(entries, EntryKey), uniforms, 0, count)
  }

  // ----- the sampler -----

  method FindPosition(remaining: seq<Entry>, total: real, start: real) returns (index: nat)
    requires remaining != []
    ensures index == Position(remaining, total, start)
  {
    var threshold := start;
    index := |remaining| - 1;
    var i := 0;
    while i < |remaining|
      invariant 0 <= i <= |remaining|
      invariant i == |remaining| ==> index == Position(remaining, total, start)
      invariant i < |remaining| ==> i + Position(remaining[i..], total, threshold) == Position(remaining, total, start)
      invariant index == |remaining| - 1
    {
      threshold := threshold - Share(remaining[i], total);
      assert remaining[i..][1..] == remaining[i + 1..];
      if threshold < 0.0 {
        return i;
      }
      i := i + 1;
    }
  }

  method SumWeights(remaining: seq<Entry>) returns (total: real)
    ensures total == Total(remaining)
  {
    total := 0.0;
    var i := 0;
    while i < |remaining|
      invariant 0 <= i <= |remaining|
      invariant total + Total(remaining[i..]) == Total(remaining)
    {
      assert remaining[i..][1..] == remaining[i + 1..];
      total := total + remaining[i].weight;
      i := i + 1;
    }
  }

  method DrawOne(remaining: seq<Entry>, u: Uniform, drawn: nat) returns (draw: Draw, rest: seq<Entry>)
    requires remaining != []
    ensures draw == DrawAt(remaining, Chosen(remaining, u), drawn) && rest == Without(remaining, Chosen(remaining, u))
  {
    var total := SumWeights(remaining);
    var whole := if total != 0.0 then total else |remaining| as real;
    var index := FindPosition(remaining, total, Scaled(u, whole));
    var chosen := remaining[index];
    draw := Draw(chosen.candidate, if total != 0.0 then Ratio(chosen.weight, total) else Ratio(1.0, |remaining| as real), drawn + 1);
    rest := Without(remaining, index);
  }

  function Sample(entries: seq<Entry>, uniforms: nat -> Uniform, count: int): Result<Sampled, Error> {
    if count < 0 || count > 1000 then Err(CountOutOfRange)
    else
      var draws := Draws(entries, uniforms, count);
      Ok(Sampled(draws, Max(0, count - |draws|)))
  }

  lemma DrawStep(draws: seq<Draw>, remaining: seq<Entry>, uniforms: nat -> Uniform, count: nat)
    requires remaining != [] && |draws| < count
    ensures var k := Chosen(remaining, uniforms(|draws|));
            draws + DrawsFrom(remaining, uniforms, |draws|, count - |draws|)
            == draws + [DrawAt(remaining, k, |draws|)] + DrawsFrom(Without(remaining, k), uniforms, |draws| + 1, count - |draws| - 1)
  {}

  lemma DrawEnd(draws: seq<Draw>, remaining: seq<Entry>, uniforms: nat -> Uniform, count: nat)
    requires |draws| <= count && (remaining == [] || |draws| == count)
    ensures draws + DrawsFrom(remaining, uniforms, |draws|, count - |draws|) == draws
  {}

  method DrawAll(sorted: seq<Entry>, uniforms: nat -> Uniform, count: nat) returns (draws: seq<Draw>)
    ensures draws == DrawsFrom(sorted, uniforms, 0, count)
  {
    var remaining := sorted;
    draws := [];
    ghost var all := [] + DrawsFrom(sorted, uniforms, 0, count);
    while remaining != [] && |draws| < count
      invariant |draws| <= count
      invariant draws + DrawsFrom(remaining, uniforms, |draws|, count - |draws|) == all
      decreases count - |draws|
    {
      DrawStep(draws, remaining, uniforms, count);
      var draw, rest := DrawOne(remaining, uniforms(|draws|), |draws|);
      draws, remaining := draws + [draw], rest;
    }
    DrawEnd(draws, remaining, uniforms, count);
  }

  method SampleRecommendations(entries: seq<Entry>, uniforms: nat -> Uniform, count: int) returns (r: Result<Sampled, Error>)
    ensures r == Sample(entries, uniforms, count)
  {
    if count < 0 || count > 1000 {
      return Err(CountOutOfRange);
    }
    var draws := DrawAll(Sort(entries, EntryKey), uniforms, count);
    r := Ok(Sampled(draws, Max(0, count - |draws|)));
  }

  // ----- prefixes -----

  lemma {:induction false} PrefixFrom(remaining: seq<Entry>, uniforms: nat -> Uniform, drawn: nat, j: nat, k: nat)
    requires j <= k
    ensures |DrawsFrom(remaining, uniforms, drawn, k)| == Min(k, |remaining|)
    ensures DrawsFrom(remaining, uniforms, drawn, j) == DrawsFrom(remaining, uniforms, drawn, k)[..Min(j, |remaining|)]
    decreases k
  {
    if remaining != [] && k > 0 {
      var i := Chosen(remaining, uniforms(drawn));
      PrefixFrom(Without(remaining, i), uniforms, drawn + 1, if j == 0 then 0 else j - 1, k - 1);
    }
  }

  /** A longer sample only extends a shorter one; a sample is short only when the candidates run out. */
  lemma PrefixStable(entries: seq<Entry>, uniforms: nat -> Uniform, j: nat, k: nat)
    requires j <= k
    ensures |Draws(entries, uniforms, k)| == Min(k, |entries|)
    ensures Draws(entries, uniforms, j) == Draws(entries, uniforms, k)[..Min(j, |entries|)]
  {
    SortAscends(entries, EntryKey);
    PrefixFrom(Sort(entries, EntryKey), uniforms, 0, j, k);
  }

  // ----- distinct draws -----

  const DrawKey: Draw -> string := (d: Draw) => CandidateKey(d.candidate)

  ghost predicate Offers(remaining: seq<Entry>, c: Candidate) {
    exists e :: e in remaining && e.candidate == c
  }

  lemma WithoutKeeps(remaining: seq<Entry>, k: nat)
    requires k < |remaining| && DistinctKeys(remaining, EntryKey)
    ensures DistinctKeys(Without(remaining, k), EntryKey)
    ensures forall e :: e in Without(remaining, k) ==> e in remaining && EntryKey(e) != EntryKey(remaining[k])
  {}

  lemma DistinctCons(d: Draw, tail: seq<Draw>)
    requires DistinctKeys(tail, DrawKey) && forall e :: e in tail ==> DrawKey(e) != DrawKey(d)
    ensures DistinctKeys([d] + tail, DrawKey)
  {}

  lemma {:induction false} DistinctFrom(remaining: seq<Entry>, uniforms: nat -> Uniform, drawn: nat, count: nat)
    requires DistinctKeys(remaining, EntryKey)
    ensures DistinctKeys(DrawsFrom(remaining, uniforms, drawn, count), DrawKey)
    ensures forall d :: d in DrawsFrom(remaining, uniforms, drawn, count) ==> Offers(remaining, d.candidate)
    decreases count
  {
    if remaining != [] && count > 0 {
      var k := Chosen(remaining, uniforms(drawn));
      var rest := Without(remaining, k);
      WithoutKeeps(remaining, k);
      DistinctFrom(rest, uniforms, drawn + 1, count - 1);
      var tail := DrawsFrom(rest, uniforms, drawn + 1, count - 1);
      forall d | d in tail ensures DrawKey(d) != EntryKey(remaining[k]) && Offers(remaining, d.candidate) {
        var e :| e in rest && e.candidate == d.candidate;
      }
      assert Offers(remaining, remaining[k].candidate) by {
        assert remaining[k] in remaining;
      }
      DistinctCons(DrawAt(remaining, k, drawn), tail);
    }
  }

  /** No candidate is drawn twice, and only candidates of the result are drawn. */
  lemma DrawsAreDistinct(entries: seq<Entry>, uniforms: nat -> Uniform, count: nat)
    requires DistinctKeys(entries, EntryKey)
    ensures DistinctKeys(Draws(entries, uniforms, count), DrawKey)
    ensures forall d :: d in Draws(entries, uniforms, count) ==> Offers(entries, d.candidate)
  {
    SortAscends(entries, EntryKey);
    SortDistinct(entries, EntryKey);
    DistinctFrom(Sort(entries, EntryKey), uniforms, 0, count);
  }

  /** The order in which a result lists its entries has no influence. */
  lemma OrderIrrelevant(a: seq<Entry>, b: seq<Entry>, uniforms: nat -> Uniform, count: nat)
    requires multiset(a) == multiset(b) && DistinctKeys(a, EntryKey) && DistinctKeys(b, EntryKey)
    ensures Draws(a, uniforms, count) == Draws(b, uniforms, count)
  {
    SortCanonical(a, b, EntryKey);
  }

  // ----- inverse cumulative distribution -----

  ghost predicate Weighted(remaining: seq<Entry>) {
    forall e :: e in remaining ==> 0.0 <= e.weight
  }

  /** The sum of the shares before position k. */
  function Before(remaining: seq<Entry>, total: real, k: nat): real
    requires k <= |remaining|
  {
    if k == 0 then 0.0 else Share(remaining[0], total) + Before(remaining[1..], total, k - 1)
  }

  lemma {:induction false} BeforeNext(remaining: seq<Entry>, total: real, k: nat)
    requires k < |remaining|
    ensures Before(remaining, total, k + 1) == Before(remaining, total, k) + Share(remaining[k], total)
  {
    if k > 0 {
      BeforeNext(remaining[1..], total, k - 1);
    }
  }

  lemma {:induction false} BeforeGrows(remaining: seq<Entry>, total: real, j: nat, k: nat)
    requires j <= k <= |remaining| && Weighted(remaining)
    ensures 0.0 <= Before(remaining, total, j) <= Before(remaining, total, k)
    decreases k
  {
    if k > 0 {
      if j > 0 {
        BeforeGrows(remaining[1..], total, j - 1, k - 1);
      } else {
        BeforeGrows(remaining[1..], total, 0, k - 1);
      }
      assert remaining[0] in remaining;
    }
  }

  lemma {:induction false} BeforeAll(remaining: seq<Entry>, total: real)
    ensures Before(remaining, total, |remaining|) == if total != 0.0 then Total(remaining) else |remaining| as real
  {
    if remaining != [] {
      BeforeAll(remaining[1..], total);
    }
  }

  lemma {:induction false} PositionIff(remaining: seq<Entry>, total: real, threshold: real, k: nat)
    requires k < |remaining| && Weighted(remaining)
    requires 0.0 <= threshold < Before(remaining, total, |remaining|)
    ensures Position(remaining, total, threshold) == k <==>
              Before(remaining, total, k) <= threshold < Before(remaining, total, k + 1)
  {
    var first, rest := Share(remaining[0], total), remaining[1..];
    assert remaining[0] in remaining;
    assert forall e :: e in rest ==> e in remaining;
    assert Before(remaining, total, 1) == first + Before(rest, total, 0);
    if |remaining| == 1 || threshold - first < 0.0 {
      if k > 0 {
        BeforeGrows(rest, total, 0, k - 1);
      }
    } else if k > 0 {
      PositionIff(rest, total, threshold - first, k - 1);
    } else {
      BeforeGrows(rest, total, 0, |rest|);
    }
  }

  lemma {:induction false} TotalNonnegative(remaining: seq<Entry>)
    requires Weighted(remaining)
    ensures 0.0 <= Total(remaining)
  {
    if remaining != [] {
      assert remaining[0] in remaining;
      TotalNonnegative(remaining[1..]);
    }
  }

  lemma WholePositive(remaining: seq<Entry>)
    requires remaining != [] && Weighted(remaining)
    ensures 0.0 < Whole(remaining)
  {
    TotalNonnegative(remaining);
  }

  lemma ShareIsProbability(remaining: seq<Entry>, k: nat)
    requires k < |remaining| && Weighted(remaining)
    ensures Scaled(Probability(remaining, k), Whole(remaining)) == Share(remaining[k], Total(remaining))
  {
    WholePositive(remaining);
    if Total(remaining) != 0.0 {
      Quotient(remaining[k].weight, Total(remaining));
    } else {
      Quotient(1.0, |remaining| as real);
    }
  }

  /** The sum of the probabilities of the first k entries. */
  function Cumulative(remaining: seq<Entry>, k: nat): real
    requires k <= |remaining|
  {
    if k == 0 then 0.0 else Cumulative(remaining, k - 1) + Probability(remaining, k - 1)
  }

  lemma {:induction false} CumulativeScales(remaining: seq<Entry>, k: nat)
    requires k <= |remaining| && remaining != [] && Weighted(remaining)
    ensures Scaled(Cumulative(remaining, k), Whole(remaining)) == Before(remaining, Total(remaining), k)
  {
    if k > 0 {
      CumulativeScales(remaining, k - 1);
      ShareIsProbability(remaining, k - 1);
      BeforeNext(remaining, Total(remaining), k - 1);
      AddScaled(Cumulative(remaining, k - 1), Probability(remaining, k - 1), Whole(remaining),
                Before(remaining, Total(remaining), k - 1), Share(remaining[k - 1], Total(remaining)));
    }
  }

  lemma Between(p: real, q: real, u: real, w: real, lo: real, hi: real)
    requires 0.0 < w && Scaled(p, w) == lo && Scaled(q, w) == hi
    ensures lo <= Scaled(u, w) < hi <==> p <= u < q
  {
    assert (u - p) * w == u * w - lo;
    assert (q - u) * w == hi - u * w;
  }

  lemma ScaledBelow(u: real, whole: real, scaled: real)
    requires 0.0 <= u < 1.0 && 0.0 < whole && scaled == Scaled(u, whole)
    ensures 0.0 <= scaled < whole
  {
    assert 0.0 < (1.0 - u) * whole;
  }

  lemma PositionChosen(remaining: seq<Entry>, u: Uniform, k: nat, scaled: real)
    requires k < |remaining| && Weighted(remaining) && scaled == Scaled(u, Whole(remaining))
    ensures Chosen(remaining, u) == k <==>
              Before(remaining, Total(remaining), k) <= scaled < Before(remaining, Total(remaining), k + 1)
  {
    WholePositive(remaining);
    BeforeAll(remaining, Total(remaining));
    ScaledBelow(u, Whole(remaining), scaled);
    PositionIff(remaining, Total(remaining), scaled, k);
  }

  /**
   Each draw inverts the cumulative distribution of what remains: an entry is chosen exactly for the uniform
   numbers of an interval whose length is the entry's reported probability, also when all weights are zero.
   */
  lemma ChosenIff(remaining: seq<Entry>, u: Uniform, k: nat)
    requires k < |remaining| && Weighted(remaining)
    ensures Chosen(remaining, u) == k <==> Cumulative(remaining, k) <= u < Cumulative(remaining, k + 1)
  {
    WholePositive(remaining);
    CumulativeScales(remaining, k);
    CumulativeScales(remaining, k + 1);
    PositionChosen(remaining, u, k, Scaled(u, Whole(remaining)));
    Between(Cumulative(remaining, k), Cumulative(remaining, k + 1), u, Whole(remaining),
            Before(remaining, Total(remaining), k), Before(remaining, Total(remaining), k + 1));
  }

  lemma Unit(a: real, b: real)
    requires Scaled(a, b) == b && 0.0 < b
    ensures a == 1.0
  {
    assert (a - 1.0) * b == 0.0;
  }

  /** The conditional probabilities of one draw add up to one. */
  lemma ProbabilitiesSum(remaining: seq<Entry>)
    requires remaining != [] && Weighted(remaining)
    ensures Cumulative(remaining, |remaining|) == 1.0
  {
    WholePositive(remaining);
    CumulativeScales(remaining, |remaining|);
    BeforeAll(remaining, Total(remaining));
    Unit(Cumulative(remaining, |remaining|), Whole(remaining));
  }

  // ----- the whole sample -----

  /** What is left after some draws. */
  function Left(remaining: seq<Entry>, uniforms: nat -> Uniform, drawn: nat, j: nat): seq<Entry>
    decreases j
  {
    if j == 0 || remaining == [] then remaining
    else Left(Without(remaining, Chosen(remaining, uniforms(drawn))), uniforms, drawn + 1, j - 1)
  }

  ghost predicate Drawn(draws: seq<Draw>, j: nat, e: Entry)
    requires j <= |draws|
  {
    exists i :: 0 <= i < j && DrawKey(draws[i]) == EntryKey(e)
  }

  lemma DrawnCons(d: Draw, tail: seq<Draw>, j: nat, e: Entry)
    requires 0 < j <= |tail| + 1
    ensures Drawn([d] + tail, j, e) <==> DrawKey(d) == EntryKey(e) || Drawn(tail, j - 1, e)
  {
    var all := [d] + tail;
    if Drawn(tail, j - 1, e) {
      var i :| 0 <= i < j - 1 && DrawKey(tail[i]) == EntryKey(e);
      assert all[i + 1] == tail[i];
    }
    if Drawn(all, j, e) {
      var i :| 0 <= i < j && DrawKey(all[i]) == EntryKey(e);
      assert i > 0 ==> tail[i - 1] == all[i];
    }
    assert all[0] == d;
  }

  lemma {:induction false} DrawnFrom(remaining: seq<Entry>, uniforms: nat -> Uniform, drawn: nat, count: nat, j: nat)
    requires j < count && j < |remaining|
    ensures |DrawsFrom(remaining, uniforms, drawn, count)| == Min(count, |remaining|)
    ensures var left := Left(remaining, uniforms, drawn, j);
            left != [] && DrawsFrom(remaining, uniforms, drawn, count)[j] == DrawAt(left, Chosen(left, uniforms(drawn + j)), drawn + j)
    decreases j
  {
    PrefixFrom(remaining, uniforms, drawn, 0, count);
    if j > 0 {
      DrawnFrom(Without(remaining, Chosen(remaining, uniforms(drawn))), uniforms, drawn + 1, count - 1, j - 1);
    }
  }

  lemma RestMembers(remaining: seq<Entry>, k: nat, e: Entry)
    requires k < |remaining| && DistinctKeys(remaining, EntryKey)
    ensures e in Without(remaining, k) <==> e in remaining && EntryKey(e) != EntryKey(remaining[k])
  {
    if e in remaining && EntryKey(e) != EntryKey(remaining[k]) {
      var i :| 0 <= i < |remaining| && remaining[i] == e;
      assert if i < k then Without(remaining, k)[i] == e else Without(remaining, k)[i - 1] == e;
    }
  }

  lemma LeftRest(remaining: seq<Entry>, uniforms: nat -> Uniform, drawn: nat, j: nat)
    requires 0 < j && remaining != []
    ensures Left(remaining, uniforms, drawn, j) == Left(Without(remaining, Chosen(remaining, uniforms(drawn))), uniforms, drawn + 1, j - 1)
  {}

  lemma {:induction false} LeftMembers(remaining: seq<Entry>, uniforms: nat -> Uniform, drawn: nat, count: nat, j: nat, e: Entry)
    requires DistinctKeys(remaining, EntryKey) && j < count && j <= |DrawsFrom(remaining, uniforms, drawn, count)|
    ensures e in Left(remaining, uniforms, drawn, j) <==>
              e in remaining && !Drawn(DrawsFrom(remaining, uniforms, drawn, count), j, e)
    decreases j
  {
    if j > 0 {
      var k := Chosen(remaining, uniforms(drawn));
      var rest := Without(remaining, k);
      var tail := DrawsFrom(rest, uniforms, drawn + 1, count - 1);
      assert DrawsFrom(remaining, uniforms, drawn, count) == [DrawAt(remaining, k, drawn)] + tail;
      LeftRest(remaining, uniforms, drawn, j);
      assert DistinctKeys(rest, EntryKey) by {
        WithoutKeeps(remaining, k);
      }
      LeftMembers(rest, uniforms, drawn + 1, count - 1, j - 1, e);
      DrawnCons(DrawAt(remaining, k, drawn), tail, j, e);
      RestMembers(remaining, k, e);
    }
  }

  /** The draw picks the entry whose interval of the cumulative distribution holds u, and reports its length. */
  ghost predicate Inverts(left: seq<Entry>, u: Uniform, j: nat, draw: Draw) {
    exists k ::
      && 0 <= k < |left|
      && draw == DrawAt(left, k, j)
      && Cumulative(left, k) <= u < Cumulative(left, k) + draw.probability
  }

  lemma ChosenInverts(left: seq<Entry>, u: Uniform, j: nat)
    requires left != [] && Weighted(left)
    ensures Inverts(left, u, j, DrawAt(left, Chosen(left, u), j))
  {
    var k := Chosen(left, u);
    ChosenIff(left, u, k);
    assert Cumulative(left, k + 1) == Cumulative(left, k) + DrawAt(left, k, j).probability;
  }

  lemma {:induction false} LeftWeighted(remaining: seq<Entry>, uniforms: nat -> Uniform, drawn: nat, j: nat)
    requires Weighted(remaining)
    ensures Weighted(Left(remaining, uniforms, drawn, j))
    decreases j
  {
    if j > 0 && remaining != [] {
      var rest := Without(remaining, Chosen(remaining, uniforms(drawn)));
      assert forall e :: e in rest ==> e in remaining;
      LeftWeighted(rest, uniforms, drawn + 1, j - 1);
    }
  }

  /** Draw j chooses among exactly the entries that were not drawn before it. */
  lemma LeftIsUndrawn(entries: seq<Entry>, uniforms: nat -> Uniform, count: nat, j: nat, e: Entry)
    requires DistinctKeys(entries, EntryKey) && j < count && j <= |Draws(entries, uniforms, count)|
    ensures e in Left(Sort(entries, EntryKey), uniforms, 0, j) <==>
              e in entries && !Drawn(Draws(entries, uniforms, count), j, e)
  {
    SortAscends(entries, EntryKey);
    SortDistinct(entries, EntryKey);
    LeftMembers(Sort(entries, EntryKey), uniforms, 0, count, j, e);
  }

  lemma InvertsFrom(remaining: seq<Entry>, uniforms: nat -> Uniform, count: nat, j: nat)
    requires Weighted(remaining) && j < count && j < |remaining|
    ensures |DrawsFrom(remaining, uniforms, 0, count)| == Min(count, |remaining|)
    ensures Inverts(Left(remaining, uniforms, 0, j), uniforms(j), j, DrawsFrom(remaining, uniforms, 0, count)[j])
  {
    var left := Left(remaining, uniforms, 0, j);
    DrawnFrom(remaining, uniforms, 0, count, j);
    LeftWeighted(remaining, uniforms, 0, j);
    ChosenInverts(left, uniforms(j), j);
  }

  lemma SortWeighted(entries: seq<Entry>)
    requires Weighted(entries)
    ensures Weighted(Sort(entries, EntryKey)) && |Sort(entries, EntryKey)| == |entries|
  {
    SortAscends(entries, EntryKey);
  }

  /**
   The sample as a whole: every draw inverts the cumulative distribution of what is left at its own uniform
   number, and reports the length of the chosen interval.
   */
  lemma EveryDrawInverts(entries: seq<Entry>, uniforms: nat -> Uniform, count: nat, j: nat)
    requires Weighted(entries) && j < count && j < |entries|
    ensures |Draws(entries, uniforms, count)| == Min(count, |entries|)
    ensures Inverts(Left(Sort(entries, EntryKey), uniforms, 0, j), uniforms(j), j, Draws(entries, uniforms, count)[j])
  {
    SortWeighted(entries);
    InvertsFrom(Sort(entries, EntryKey), uniforms, count, j);
  }
}
