/** The timing statistics of the calibration probe: nearest-rank percentiles of a sample, and the
    median absolute deviation. Finite floats are exact reals. */
module Statistics {
  import opened Options

  datatype Float = Finite(value: real) | NotFinite

  datatype Distribution = Distribution(median: real, p95: real, mad: real, max: real)

  predicate IsSorted(s: seq<real>) {
    forall i, j :: 0 <= i < j < |s| ==> s[i] <= s[j]
  }

  function Insert(x: real, s: seq<real>): seq<real> {
    if s == [] || x <= s[0] then [x] + s else [s[0]] + Insert(x, s[1..])
  }

  lemma {:induction false} InsertPermutes(x: real, s: seq<real>)
    ensures multiset(Insert(x, s)) == multiset{x} + multiset(s)
  {
    assert multiset([x] + s) == multiset{x} + multiset(s);
    if s != [] && x > s[0] {
      InsertPermutes(x, s[1..]);
      assert s == [s[0]] + s[1..];
      var rest := Insert(x, s[1..]);
      assert multiset([s[0]] + rest) == multiset{s[0]} + multiset(rest);
    }
  }

  lemma {:induction false} InsertSorts(x: real, s: seq<real>)
    requires IsSorted(s)
    ensures IsSorted(Insert(x, s))
    ensures Insert(x, s) != [] && (Insert(x, s)[0] == x || (s != [] && Insert(x, s)[0] == s[0] <= x))
  {
    if s != [] && x > s[0] {
      InsertSorts(x, s[1..]);
      HeadSorts(s[0], Insert(x, s[1..]));
    } else {
      HeadSorts(x, s);
    }
  }

  lemma HeadSorts(x: real, s: seq<real>)
    requires IsSorted(s) && (s == [] || x <= s[0])
    ensures IsSorted([x] + s)
  {
  }

  /** `sort_by(f64::total_cmp)` on finite values. */
  function Sort(s: seq<real>): seq<real> {
    if s == [] then [] else Insert(s[0], Sort(s[1..]))
  }

  lemma {:induction false} SortIs(s: seq<real>)
    ensures IsSorted(Sort(s)) && multiset(Sort(s)) == multiset(s) && |Sort(s)| == |s|
  {
    if s != [] {
      SortIs(s[1..]);
      InsertSorts(s[0], Sort(s[1..]));
      InsertPermutes(s[0], Sort(s[1..]));
      assert s == [s[0]] + s[1..];
    }
    SizeOfPermutation(s, Sort(s));
  }

  lemma SizeOfPermutation(a: seq<real>, b: seq<real>)
    requires multiset(a) == multiset(b)
    ensures |a| == |b|
    ensures forall x :: x in a <==> x in b
  {
    assert |a| == |multiset(a)| && |b| == |multiset(b)|;
    forall x ensures x in a <==> x in b {
      assert x in a <==> x in multiset(a);
      assert x in b <==> x in multiset(b);
    }
  }

  lemma SameWithout(x: real, a: multiset<real>, b: multiset<real>)
    requires multiset{x} + a == multiset{x} + b
    ensures a == b
  {
    assert a == (multiset{x} + a) - multiset{x};
    assert b == (multiset{x} + b) - multiset{x};
  }

  lemma MiddleOut(front: seq<real>, x: real, back: seq<real>)
    ensures multiset(front + ([x] + back)) == multiset{x} + multiset(front + back)
  {
    assert multiset(front + ([x] + back)) == multiset(front) + multiset([x] + back);
    assert multiset([x] + back) == multiset{x} + multiset(back);
  }

  /** The head of a sequence, found in a permutation of it, can be taken out of both. */
  lemma TakeOut(a: seq<real>, b: seq<real>) returns (i: nat)
    requires a != [] && multiset(a) == multiset(b)
    ensures i < |b| && b[i] == a[0] && multiset(a[1..]) == multiset(b[..i] + b[i + 1..])
    ensures b == b[..i] + ([a[0]] + b[i + 1..])
  {
    SizeOfPermutation(a, b);
    assert a[0] in a;
    i :| 0 <= i < |b| && b[i] == a[0];
    assert b == b[..i] + ([a[0]] + b[i + 1..]);
    assert a == [] + ([a[0]] + a[1..]) && [] + a[1..] == a[1..];
    MiddleOut([], a[0], a[1..]);
    MiddleOut(b[..i], a[0], b[i + 1..]);
    SameWithout(a[0], multiset(a[1..]), multiset(b[..i] + b[i + 1..]));
  }

  function Ceil(x: real): int {
    -((-x).Floor)
  }

  /** The smallest whole number that is at least the given share of `n`. */
  function Rank(n: nat, percentile: real): int {
    Ceil(percentile * n as real)
  }

  function Min(a: nat, b: nat): nat {
    if a < b then a else b
  }

  /** `percentile_sorted`. */
  function PercentileSorted(sorted: seq<real>, percentile: real): real
    requires sorted != [] && percentile >= 0.0
  {
    var rank := Rank(|sorted|, percentile);
    sorted[Min(if rank > 0 then rank - 1 else 0, |sorted| - 1)]
  }

  function Abs(x: real): real {
    if x < 0.0 then -x else x
  }

  function Deviation(x: real, center: real): real {
    Abs(x - center)
  }

  function Deviations(s: seq<real>, center: real): (r: seq<real>)
    ensures |r| == |s|
    ensures forall i :: 0 <= i < |s| ==> r[i] == Deviation(s[i], center)
  {
    seq(|s|, i requires 0 <= i < |s| => Deviation(s[i], center))
  }

  function Reals(values: seq<Float>): (r: Option<seq<real>>)
    ensures r.Some? <==> NotFinite !in values
    ensures r.Some? ==> |r.value| == |values| && forall i :: 0 <= i < |values| ==> values[i] == Finite(r.value[i])
  {
    if values == [] then Some([])
    else
      match (values[0], Reals(values[1..]))
      case (Finite(x), Some(rest)) => Some([x] + rest)
      case _ => None
  }

  function OfReals(s: seq<real>): Distribution
    requires s != []
  {
    SortIs(s);
    var sorted := Sort(s);
    var median := PercentileSorted(sorted, 0.5);
    SortIs(Deviations(sorted, median));
    Distribution(median, PercentileSorted(sorted, 0.95),
                 PercentileSorted(Sort(Deviations(sorted, median)), 0.5), sorted[|sorted| - 1])
  }

  /** `distribution`. */
  function DistributionOf(values: seq<Float>): (r: Option<Distribution>)
    ensures r.None? <==> values == [] || NotFinite in values
  {
    if values == [] then None
    else
      var s := Reals(values);
      if s.None? then None else Some(OfReals(s.value))
  }

  // ----- Counting -----

  function Count(s: seq<real>, p: real -> bool): nat {
    if s == [] then 0 else (if p(s[0]) then 1 else 0) + Count(s[1..], p)
  }

  function AtMost(x: real): real -> bool {
    (y: real) => y <= x
  }

  function Below(x: real): real -> bool {
    (y: real) => y < x
  }

  function Within(center: real, radius: real): real -> bool {
    (y: real) => Deviation(y, center) <= radius
  }

  lemma {:induction false} CountAppend(a: seq<real>, b: seq<real>, p: real -> bool)
    ensures Count(a + b, p) == Count(a, p) + Count(b, p)
  {
    if a == [] {
      assert a + b == b;
    } else {
      assert (a + b)[1..] == a[1..] + b;
      CountAppend(a[1..], b, p);
    }
  }

  lemma {:induction false} CountBounds(s: seq<real>, p: real -> bool)
    ensures Count(s, p) <= |s|
    ensures (forall i :: 0 <= i < |s| ==> p(s[i])) ==> Count(s, p) == |s|
    ensures (forall i :: 0 <= i < |s| ==> !p(s[i])) ==> Count(s, p) == 0
  {
    if s != [] {
      CountBounds(s[1..], p);
    }
  }

  lemma {:induction false} CountPermutes(a: seq<real>, b: seq<real>, p: real -> bool)
    requires multiset(a) == multiset(b)
    ensures Count(a, p) == Count(b, p)
  {
    SizeOfPermutation(a, b);
    if a != [] {
      var i := TakeOut(a, b);
      CountPermutes(a[1..], b[..i] + b[i + 1..], p);
      CountAppend(b[..i], b[i + 1..], p);
      CountAppend(b[..i], [a[0]] + b[i + 1..], p);
      assert ([a[0]] + b[i + 1..])[1..] == b[i + 1..];
    }
  }

  lemma {:induction false} CountImplies(s: seq<real>, p: real -> bool, q: real -> bool)
    requires forall x :: p(x) ==> q(x)
    ensures Count(s, p) <= Count(s, q)
  {
    if s != [] {
      CountImplies(s[1..], p, q);
    }
  }

  lemma {:induction false} CountPointwise(s: seq<real>, p: real -> bool, t: seq<real>, q: real -> bool)
    requires |s| == |t| && forall i :: 0 <= i < |s| ==> p(s[i]) == q(t[i])
    ensures Count(s, p) == Count(t, q)
  {
    if s != [] {
      CountPointwise(s[1..], p, t[1..], q);
    }
  }

  // ----- Nearest rank -----

  /** `m` is a value of the sample, at least `Rank` values are at most `m`, and fewer are below it. */
  ghost predicate NearestRank(s: seq<real>, p: real, m: real) {
    m in s && Count(s, Below(m)) < Rank(|s|, p) <= Count(s, AtMost(m))
  }

  /** There is only one such value. */
  lemma NearestRankUnique(s: seq<real>, p: real, a: real, b: real)
    requires NearestRank(s, p, a) && NearestRank(s, p, b)
    ensures a == b
  {
    hide Rank;
    if a < b {
      CountImplies(s, AtMost(a), Below(b));
    }
    if b < a {
      CountImplies(s, AtMost(b), Below(a));
    }
  }

  lemma NearestRankPermutes(a: seq<real>, b: seq<real>, p: real, m: real)
    requires multiset(a) == multiset(b) && NearestRank(a, p, m)
    ensures NearestRank(b, p, m)
  {
    hide Rank;
    CountPermutes(a, b, AtMost(m));
    CountPermutes(a, b, Below(m));
    SizeOfPermutation(a, b);
  }

  lemma CountAtMost(low: seq<real>, rest: seq<real>, m: real)
    requires forall i :: 0 <= i < |low| ==> low[i] <= m
    ensures Count(low + rest, AtMost(m)) >= |low|
  {
    hide Count;
    CountAppend(low, rest, AtMost(m));
    CountBounds(low, AtMost(m));
  }

  lemma CountBelow(low: seq<real>, rest: seq<real>, m: real)
    requires forall i :: 0 <= i < |rest| ==> m <= rest[i]
    ensures Count(low + rest, Below(m)) <= |low|
  {
    hide Count;
    CountAppend(low, rest, Below(m));
    CountBounds(low, Below(m));
    CountBounds(rest, Below(m));
  }

  lemma CountAt(sorted: seq<real>, i: nat)
    requires IsSorted(sorted) && i < |sorted|
    ensures Count(sorted, Below(sorted[i])) <= i < Count(sorted, AtMost(sorted[i]))
  {
    hide Count, AtMost, Below;
    assert sorted == sorted[..i + 1] + sorted[i + 1..] && sorted == sorted[..i] + sorted[i..];
    CountAtMost(sorted[..i + 1], sorted[i + 1..], sorted[i]);
    CountBelow(sorted[..i], sorted[i..], sorted[i]);
  }

  lemma RankIs(n: nat, p: real)
    requires n > 0 && 0.0 < p <= 1.0
    ensures 1 <= Rank(n, p) <= n
    ensures (Rank(n, p) - 1) as real < p * n as real <= Rank(n, p) as real
  {
    var x := p * n as real;
    assert 0.0 < x <= n as real;
  }

  lemma PercentileIsNearestRank(s: seq<real>, p: real)
    requires s != [] && 0.0 < p <= 1.0
    ensures Sort(s) != [] && NearestRank(s, p, PercentileSorted(Sort(s), p))
  {
    hide Rank, Count, Sort;
    SortIs(s);
    var sorted := Sort(s);
    RankIs(|s|, p);
    var i := Rank(|s|, p) - 1;
    CountAt(sorted, i);
    assert PercentileSorted(sorted, p) == sorted[i];
    NearestRankPermutes(sorted, s, p, sorted[i]);
  }

  // ----- What a distribution means -----

  ghost predicate IsDistribution(s: seq<real>, d: Distribution) {
    && NearestRank(s, 0.5, d.median)
    && NearestRank(s, 0.95, d.p95)
    && NearestRank(Deviations(s, d.median), 0.5, d.mad)
    && d.max in s && forall x <- s :: x <= d.max
  }

  lemma DeviationsAppend(a: seq<real>, b: seq<real>, center: real)
    ensures Deviations(a + b, center) == Deviations(a, center) + Deviations(b, center)
  {
  }

  lemma {:induction false} DeviationsPermute(a: seq<real>, b: seq<real>, center: real)
    requires multiset(a) == multiset(b)
    ensures multiset(Deviations(a, center)) == multiset(Deviations(b, center))
  {
    SizeOfPermutation(a, b);
    if a != [] {
      var i := TakeOut(a, b);
      DeviationsPermute(a[1..], b[..i] + b[i + 1..], center);
      DeviationsAppend(b[..i], b[i + 1..], center);
      DeviationsAppend(b[..i], [a[0]] + b[i + 1..], center);
      DeviationsAppend([a[0]], b[i + 1..], center);
      DeviationsAppend([a[0]], a[1..], center);
      assert a == [a[0]] + a[1..];
    }
  }

  /** The four numbers are the nearest ranks of the sample and of its deviations, and its maximum; and
      nothing else is. */
  lemma DistributionIff(s: seq<real>, d: Distribution)
    requires s != []
    ensures IsDistribution(s, d) <==> d == OfReals(s)
  {
    var r := OfReals(s);
    OfRealsIs(s);
    if IsDistribution(s, d) {
      NearestRankUnique(s, 0.5, d.median, r.median);
      NearestRankUnique(s, 0.95, d.p95, r.p95);
      NearestRankUnique(Deviations(s, r.median), 0.5, d.mad, r.mad);
    }
  }

  lemma OfRealsIs(s: seq<real>)
    requires s != []
    ensures IsDistribution(s, OfReals(s))
  {
    hide NearestRank, PercentileSorted, Deviations, Sort;
    SortIs(s);
    var sorted := Sort(s);
    var d := OfReals(s);
    PercentileIsNearestRank(s, 0.5);
    PercentileIsNearestRank(s, 0.95);
    PercentileIsNearestRank(Deviations(sorted, d.median), 0.5);
    DeviationsPermute(sorted, s, d.median);
    NearestRankPermutes(Deviations(sorted, d.median), Deviations(s, d.median), 0.5, d.mad);
    SizeOfPermutation(sorted, s);
  }

  /** The order of the sample does not matter. */
  lemma OrderBlind(a: seq<real>, b: seq<real>)
    requires a != [] && multiset(a) == multiset(b)
    ensures b != [] && OfReals(a) == OfReals(b)
  {
    hide NearestRank, Deviations, OfReals;
    SizeOfPermutation(a, b);
    var d := OfReals(a);
    OfRealsIs(a);
    NearestRankPermutes(a, b, 0.5, d.median);
    NearestRankPermutes(a, b, 0.95, d.p95);
    DeviationsPermute(a, b, d.median);
    NearestRankPermutes(Deviations(a, d.median), Deviations(b, d.median), 0.5, d.mad);
    DistributionIff(b, d);
  }

  lemma {:induction false} RealsCount(values: seq<Float>, x: real)
    requires NotFinite !in values
    ensures multiset(Reals(values).value)[x] == multiset(values)[Finite(x)]
  {
    if values != [] {
      RealsCount(values[1..], x);
      var rest := Reals(values[1..]).value;
      assert Reals(values).value == [values[0].value] + rest;
      assert multiset(Reals(values).value) == multiset{values[0].value} + multiset(rest);
      assert values == [values[0]] + values[1..];
    }
  }

  /** `distribution` sees only the multiset of its values, also in refusing them. */
  lemma MultisetOnly(a: seq<Float>, b: seq<Float>)
    requires multiset(a) == multiset(b)
    ensures DistributionOf(a) == DistributionOf(b)
  {
    hide OfReals, Reals;
    assert |a| == |multiset(a)| == |multiset(b)| == |b|;
    assert NotFinite in a <==> NotFinite in multiset(a);
    assert NotFinite in b <==> NotFinite in multiset(b);
    if a != [] && NotFinite !in a {
      var ra, rb := Reals(a).value, Reals(b).value;
      forall x ensures multiset(ra)[x] == multiset(rb)[x] {
        RealsCount(a, x);
        RealsCount(b, x);
      }
      assert multiset(ra) == multiset(rb);
      OrderBlind(ra, rb);
    }
  }

  lemma RanksAreMonotone(s: seq<real>, p: real, q: real, a: real, b: real)
    requires NearestRank(s, p, a) && NearestRank(s, q, b) && Rank(|s|, p) <= Rank(|s|, q)
    ensures a <= b
  {
    hide Rank;
    if b < a {
      CountImplies(s, AtMost(b), Below(a));
    }
  }

  /** The median is at most the 95th percentile, which is at most the maximum; and at least half of the
      sample lies within `mad` of the median. */
  lemma DistributionBounds(s: seq<real>)
    requires s != []
    ensures var d := OfReals(s);
            && d.median <= d.p95 <= d.max
            && 2 * Count(s, Within(d.median, d.mad)) >= |s|
            && 20 * Count(s, AtMost(d.p95)) >= 19 * |s|
  {
    hide Rank, Count, OfReals, Deviations;
    OfRealsIs(s);
    var d := OfReals(s);
    RankIs(|s|, 0.5);
    RankIs(|s|, 0.95);
    RanksAreMonotone(s, 0.5, 0.95, d.median, d.p95);
    CountPointwise(Deviations(s, d.median), AtMost(d.mad), s, Within(d.median, d.mad));
  }

  // ----- Change of units -----

  function Scaled(x: real, k: real, c: real): real {
    k * x + c
  }

  function Affine(s: seq<real>, k: real, c: real): (r: seq<real>)
    ensures |r| == |s|
    ensures forall i :: 0 <= i < |s| ==> r[i] == Scaled(s[i], k, c)
  {
    seq(|s|, i requires 0 <= i < |s| => Scaled(s[i], k, c))
  }

  lemma ScaledKeepsOrder(x: real, y: real, k: real, c: real)
    requires k > 0.0
    ensures Scaled(x, k, c) <= Scaled(y, k, c) <==> x <= y
    ensures Scaled(x, k, c) < Scaled(y, k, c) <==> x < y
  {
    var d := y - x;
    assert k * d == k * y - k * x;
    assert d > 0.0 ==> k * d > 0.0;
    assert d < 0.0 ==> k * d < 0.0;
  }

  lemma CountAffine(s: seq<real>, k: real, c: real, x: real)
    requires k > 0.0
    ensures Count(Affine(s, k, c), AtMost(Scaled(x, k, c))) == Count(s, AtMost(x))
    ensures Count(Affine(s, k, c), Below(Scaled(x, k, c))) == Count(s, Below(x))
  {
    hide Scaled, Affine;
    forall y ensures Scaled(y, k, c) <= Scaled(x, k, c) <==> y <= x
             ensures Scaled(y, k, c) < Scaled(x, k, c) <==> y < x {
      ScaledKeepsOrder(y, x, k, c);
    }
    CountPointwise(Affine(s, k, c), AtMost(Scaled(x, k, c)), s, AtMost(x));
    CountPointwise(Affine(s, k, c), Below(Scaled(x, k, c)), s, Below(x));
  }

  lemma NearestRankAffine(s: seq<real>, p: real, m: real, k: real, c: real)
    requires k > 0.0 && NearestRank(s, p, m)
    ensures NearestRank(Affine(s, k, c), p, Scaled(m, k, c))
  {
    hide Rank, Count, AtMost, Below, Scaled;
    CountAffine(s, k, c, m);
    var i :| 0 <= i < |s| && s[i] == m;
    assert Affine(s, k, c)[i] == Scaled(m, k, c);
  }

  lemma DeviationScales(x: real, center: real, k: real, c: real)
    requires k > 0.0
    ensures Deviation(Scaled(x, k, c), Scaled(center, k, c)) == Scaled(Deviation(x, center), k, 0.0)
  {
    var d := x - center;
    assert Scaled(x, k, c) - Scaled(center, k, c) == k * d;
    assert k * (-d) == -(k * d);
    assert d > 0.0 ==> k * d > 0.0;
    assert d < 0.0 ==> k * d < 0.0;
  }

  lemma DeviationsAffine(s: seq<real>, center: real, k: real, c: real)
    requires k > 0.0
    ensures Deviations(Affine(s, k, c), Scaled(center, k, c)) == Affine(Deviations(s, center), k, 0.0)
  {
    hide Scaled, Deviation;
    forall x ensures Deviation(Scaled(x, k, c), Scaled(center, k, c)) == Scaled(Deviation(x, center), k, 0.0) {
      DeviationScales(x, center, k, c);
    }
  }

  lemma MaxAffine(s: seq<real>, max: real, k: real, c: real)
    requires k > 0.0 && max in s && forall x <- s :: x <= max
    ensures var t := Affine(s, k, c); Scaled(max, k, c) in t && forall x <- t :: x <= Scaled(max, k, c)
  {
    hide Scaled;
    var t := Affine(s, k, c);
    var i :| 0 <= i < |s| && s[i] == max;
    assert t[i] == Scaled(max, k, c);
    forall j | 0 <= j < |t| ensures t[j] <= Scaled(max, k, c) {
      assert s[j] in s;
      ScaledKeepsOrder(s[j], max, k, c);
    }
  }

  /** Measuring in other units, from another zero, measures the same distribution in those units. */
  lemma ChangeOfUnits(s: seq<real>, k: real, c: real)
    requires s != [] && k > 0.0
    ensures var d := OfReals(s);
            OfReals(Affine(s, k, c))
            == Distribution(Scaled(d.median, k, c), Scaled(d.p95, k, c), Scaled(d.mad, k, 0.0), Scaled(d.max, k, c))
  {
    hide NearestRank, OfReals, Deviations, Affine, Scaled;
    var d := OfReals(s);
    OfRealsIs(s);
    NearestRankAffine(s, 0.5, d.median, k, c);
    NearestRankAffine(s, 0.95, d.p95, k, c);
    DeviationsAffine(s, d.median, k, c);
    NearestRankAffine(Deviations(s, d.median), 0.5, d.mad, k, 0.0);
    MaxAffine(s, d.max, k, c);
    DistributionIff(Affine(s, k, c),
      Distribution(Scaled(d.median, k, c), Scaled(d.p95, k, c), Scaled(d.mad, k, 0.0), Scaled(d.max, k, c)));
  }
}
