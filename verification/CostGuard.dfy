/** Order statistics and moments of a list of ranks, over the reals. */
module Statistics {
  // ---------- products ----------

  /** A name for products, so that proofs can go by the laws below. */
  function Mul(x: real, y: real): real { x * y }

  lemma MulCommutes(x: real, y: real)
    ensures Mul(x, y) == Mul(y, x)
  {
  }

  lemma MulDistributes(a: real, x: real, y: real)
    ensures Mul(a, x + y) == Mul(a, x) + Mul(a, y)
  {
  }

  lemma MulAssociates(x: real, y: real, z: real)
    ensures Mul(Mul(x, y), z) == Mul(x, Mul(y, z))
  {
  }

  lemma MulSign(x: real, y: real)
    ensures (x > 0.0 && y > 0.0) || (x < 0.0 && y < 0.0) ==> Mul(x, y) > 0.0
    ensures x == 0.0 || y == 0.0 ==> Mul(x, y) == 0.0
  {
  }

  lemma Divides(x: real, n: real)
    requires n != 0.0
    ensures Mul(x / n, n) == x
  {
  }

  lemma Cancels(x: real, y: real, n: real)
    requires n != 0.0 && Mul(x, n) == Mul(y, n)
    ensures x == y
  {
    MulDistributes(n, x, -y);
    MulCommutes(x, n);
    MulCommutes(y, n);
    assert Mul(n, -y) == -Mul(n, y);
    NoZeroDivisors(n, x - y);
  }

  lemma NoZeroDivisors(x: real, y: real)
    requires Mul(x, y) == 0.0
    ensures x == 0.0 || y == 0.0
  {
    MulSign(x, y);
    MulSign(-x, y);
    assert Mul(-x, y) == -Mul(x, y);
  }

  // ---------- sorting and counting ----------

  function Insert(s: seq<real>, x: real): seq<real> {
    if s == [] || s[|s| - 1] <= x then s + [x] else Insert(s[..|s| - 1], x) + [s[|s| - 1]]
  }

  /** sort.Float64s. */
  function Sorted(s: seq<real>): (r: seq<real>)
    ensures |r| == |s|
  {
    if s == [] then [] else
      InsertLength(Sorted(s[..|s| - 1]), s[|s| - 1]);
      Insert(Sorted(s[..|s| - 1]), s[|s| - 1])
  }

  lemma {:induction false} InsertLength(s: seq<real>, x: real)
    ensures |Insert(s, x)| == |s| + 1
  {
    if s != [] && s[|s| - 1] > x {
      InsertLength(s[..|s| - 1], x);
    }
  }

  ghost predicate Ascending(s: seq<real>) { forall i, j :: 0 <= i < j < |s| ==> s[i] <= s[j] }

  /** How many elements satisfy p. */
  ghost function Count(s: seq<real>, p: real -> bool): nat {
    if s == [] then 0 else Count(s[..|s| - 1], p) + (if p(s[|s| - 1]) then 1 else 0)
  }

  lemma CountSnoc(s: seq<real>, x: real, p: real -> bool)
    ensures Count(s + [x], p) == Count(s, p) + (if p(x) then 1 else 0)
  {
    assert (s + [x])[..|s|] == s;
  }

  lemma {:induction false} InsertCounts(s: seq<real>, x: real, p: real -> bool)
    ensures Count(Insert(s, x), p) == Count(s, p) + (if p(x) then 1 else 0)
  {
    if s == [] || s[|s| - 1] <= x {
      CountSnoc(s, x, p);
    } else {
      InsertCounts(s[..|s| - 1], x, p);
      CountSnoc(Insert(s[..|s| - 1], x), s[|s| - 1], p);
    }
  }

  lemma {:induction false} SortedCounts(s: seq<real>, p: real -> bool)
    ensures Count(Sorted(s), p) == Count(s, p)
  {
    if s != [] {
      SortedCounts(s[..|s| - 1], p);
      InsertCounts(Sorted(s[..|s| - 1]), s[|s| - 1], p);
    }
  }

  lemma {:induction false} InsertAscends(s: seq<real>, x: real)
    requires Ascending(s)
    ensures Ascending(Insert(s, x))
    ensures forall y :: y in Insert(s, x) ==> y in s || y == x
  {
    if s != [] && s[|s| - 1] > x {
      var front, last := s[..|s| - 1], s[|s| - 1];
      InsertAscends(front, x);
      var r := Insert(front, x);
      forall i | 0 <= i < |r| ensures r[i] <= last {
        assert r[i] in r;
        assert r[i] in front || r[i] == x;
      }
    }
  }

  lemma {:induction false} InsertPermutes(s: seq<real>, x: real)
    ensures multiset(Insert(s, x)) == multiset(s) + multiset{x}
  {
    if s != [] && s[|s| - 1] > x {
      InsertPermutes(s[..|s| - 1], x);
      assert s == s[..|s| - 1] + [s[|s| - 1]];
    }
  }

  /** The sort is the ascending permutation. */
  lemma {:induction false} SortedSorts(s: seq<real>)
    ensures Ascending(Sorted(s)) && multiset(Sorted(s)) == multiset(s)
  {
    if s != [] {
      SortedSorts(s[..|s| - 1]);
      InsertAscends(Sorted(s[..|s| - 1]), s[|s| - 1]);
      InsertPermutes(Sorted(s[..|s| - 1]), s[|s| - 1]);
      assert s == s[..|s| - 1] + [s[|s| - 1]];
    }
  }

  lemma {:induction false} CountPrefix(s: seq<real>, p: real -> bool, k: nat)
    requires k <= |s| && forall i :: 0 <= i < k ==> p(s[i])
    ensures Count(s, p) >= k
    decreases |s|
  {
    if |s| > k {
      CountPrefix(s[..|s| - 1], p, k);
    } else if s != [] {
      CountPrefix(s[..|s| - 1], p, k - 1);
    }
  }

  lemma {:induction false} CountSuffix(s: seq<real>, p: real -> bool, k: nat)
    requires k <= |s| && forall i :: k <= i < |s| ==> p(s[i])
    ensures Count(s, p) >= |s| - k
    decreases |s|
  {
    if |s| > k {
      CountSuffix(s[..|s| - 1], p, k);
    }
  }

  lemma {:induction false} CountWeakens(s: seq<real>, p: real -> bool, q: real -> bool)
    requires forall i :: 0 <= i < |s| && p(s[i]) ==> q(s[i])
    ensures Count(s, p) <= Count(s, q)
  {
    if s != [] {
      CountWeakens(s[..|s| - 1], p, q);
    }
  }

  // ---------- the median ----------

  function Midpoint(x: real, y: real): real { (x + y) / 2.0 }

  /** The middle of a sorted list. */
  function Middle(c: seq<real>): real
    requires c != []
  {
    var n := |c|;
    if n % 2 == 1 then c[n / 2] else Midpoint(c[n / 2 - 1], c[n / 2])
  }

  function Median(s: seq<real>): real
    requires s != []
  {
    Middle(Sorted(s))
  }

  function AtMost(m: real): real -> bool { x => x <= m }
  function AtLeast(m: real): real -> bool { x => x >= m }

  lemma MiddleIsCentral(c: seq<real>)
    requires c != [] && Ascending(c)
    ensures forall i :: 0 <= i < (|c| - 1) / 2 + 1 ==> c[i] <= Middle(c)
    ensures forall i :: |c| / 2 <= i < |c| ==> c[i] >= Middle(c)
  {
  }

  lemma HalfAtMost(c: seq<real>)
    requires c != [] && Ascending(c)
    ensures 2 * Count(c, AtMost(Middle(c))) >= |c|
  {
    MiddleIsCentral(c);
    CountPrefix(c, AtMost(Middle(c)), (|c| - 1) / 2 + 1);
  }

  lemma HalfAtLeast(c: seq<real>)
    requires c != [] && Ascending(c)
    ensures 2 * Count(c, AtLeast(Middle(c))) >= |c|
  {
    MiddleIsCentral(c);
    CountSuffix(c, AtLeast(Middle(c)), |c| / 2);
  }

  /** At least half of the elements are at most the median, and at least half are at least it. */
  lemma MedianHalves(s: seq<real>)
    requires s != []
    ensures 2 * Count(s, AtMost(Median(s))) >= |s|
    ensures 2 * Count(s, AtLeast(Median(s))) >= |s|
  {
    SortedSorts(s);
    HalfAtMost(Sorted(s));
    HalfAtLeast(Sorted(s));
    SortedCounts(s, AtMost(Median(s)));
    SortedCounts(s, AtLeast(Median(s)));
  }

  // ---------- changes of unit ----------

  function Mapped(s: seq<real>, f: real -> real): (r: seq<real>)
    ensures |r| == |s|
  {
    if s == [] then [] else Mapped(s[..|s| - 1], f) + [f(s[|s| - 1])]
  }

  lemma {:induction false} MappedAt(s: seq<real>, f: real -> real, i: nat)
    requires i < |s|
    ensures Mapped(s, f)[i] == f(s[i])
  {
    if i < |s| - 1 {
      MappedAt(s[..|s| - 1], f, i);
    }
  }

  lemma MappedSnoc(s: seq<real>, x: real, f: real -> real)
    ensures Mapped(s + [x], f) == Mapped(s, f) + [f(x)]
  {
    assert (s + [x])[..|s|] == s;
  }

  ghost predicate KeepsOrder(f: real -> real) { forall x, y :: x <= y <==> f(x) <= f(y) }
  ghost predicate KeepsMidpoint(f: real -> real, x: real, y: real) { Midpoint(f(x), f(y)) == f(Midpoint(x, y)) }

  lemma {:induction false} InsertMaps(s: seq<real>, x: real, f: real -> real)
    requires KeepsOrder(f)
    ensures Insert(Mapped(s, f), f(x)) == Mapped(Insert(s, x), f)
  {
    if s == [] || s[|s| - 1] <= x {
      MappedSnoc(s, x, f);
    } else {
      var front, last := s[..|s| - 1], s[|s| - 1];
      assert Mapped(s, f)[..|s| - 1] == Mapped(front, f);
      InsertMaps(front, x, f);
      MappedSnoc(Insert(front, x), last, f);
    }
  }

  lemma {:induction false} SortedMaps(s: seq<real>, f: real -> real)
    requires KeepsOrder(f)
    ensures Sorted(Mapped(s, f)) == Mapped(Sorted(s), f)
  {
    if s != [] {
      var front, last := s[..|s| - 1], s[|s| - 1];
      assert Mapped(s, f)[..|s| - 1] == Mapped(front, f);
      SortedMaps(front, f);
      InsertMaps(Sorted(front), last, f);
    }
  }

  lemma MiddleMaps(c: seq<real>, m: seq<real>, f: real -> real)
    requires c != [] && |m| == |c| && forall i :: 0 <= i < |c| ==> m[i] == f(c[i])
    requires |c| % 2 == 0 ==> KeepsMidpoint(f, c[|c| / 2 - 1], c[|c| / 2])
    ensures Middle(m) == f(Middle(c))
  {
  }

  lemma MedianMaps(s: seq<real>, f: real -> real)
    requires s != [] && Sorted(Mapped(s, f)) == Mapped(Sorted(s), f)
    requires forall x, y :: KeepsMidpoint(f, x, y)
    ensures Median(Mapped(s, f)) == f(Median(s))
  {
    var c := Sorted(s);
    forall i | 0 <= i < |c| ensures Mapped(c, f)[i] == f(c[i]) {
      MappedAt(c, f, i);
    }
    MiddleMaps(c, Mapped(c, f), f);
  }

  /** A positive affine change: a times the value, plus b. */
  function Line(a: real, b: real): real -> real { x => Mul(a, x) + b }

  lemma OrderScales(x: real, y: real, a: real)
    requires a > 0.0
    ensures x <= y <==> Mul(a, x) <= Mul(a, y)
  {
    MulDistributes(a, x, y - x);
    MulDistributes(a, y, x - y);
    MulSign(a, x - y);
    MulSign(a, y - x);
  }

  lemma MidpointScales(x: real, y: real, a: real)
    ensures (Mul(a, x) + Mul(a, y)) / 2.0 == Mul(a, (x + y) / 2.0)
  {
    var h := (x + y) / 2.0;
    MulDistributes(a, x, y);
    MulDistributes(a, h, h);
  }

  lemma LineKeeps(a: real, b: real)
    requires a > 0.0
    ensures KeepsOrder(Line(a, b)) && forall x, y :: KeepsMidpoint(Line(a, b), x, y)
  {
    forall x, y ensures x <= y <==> Line(a, b)(x) <= Line(a, b)(y) {
      OrderScales(x, y, a);
    }
    forall x, y ensures KeepsMidpoint(Line(a, b), x, y) {
      MidpointScales(x, y, a);
    }
  }

  lemma MedianScales(s: seq<real>, a: real, b: real)
    requires s != [] && a > 0.0
    ensures Median(Mapped(s, Line(a, b))) == Mul(a, Median(s)) + b
  {
    LineKeeps(a, b);
    SortedMaps(s, Line(a, b));
    MedianMaps(s, Line(a, b));
  }

  // ---------- mean and variance ----------

  function Sum(s: seq<real>): real {
    if s == [] then 0.0 else Sum(s[..|s| - 1]) + s[|s| - 1]
  }

  function Mean(s: seq<real>): real
    requires s != []
  {
    Sum(s) / (|s| as real)
  }

  function Square(x: real): real { Mul(x, x) }

  /** The sum of squared distances from m. */
  function Spread(s: seq<real>, m: real): real {
    if s == [] then 0.0 else Spread(s[..|s| - 1], m) + Square(s[|s| - 1] - m)
  }

  function Variance(s: seq<real>): real
    requires s != []
  {
    Spread(s, Mean(s)) / (|s| as real)
  }

  lemma {:induction false} SumScales(s: seq<real>, a: real, b: real)
    ensures Sum(Mapped(s, Line(a, b))) == Mul(a, Sum(s)) + Mul(b, |s| as real)
  {
    if s == [] {
      MulSign(a, 0.0);
      MulSign(b, 0.0);
    } else {
      var front, last := s[..|s| - 1], s[|s| - 1];
      SumScales(front, a, b);
      assert Mapped(s, Line(a, b))[..|s| - 1] == Mapped(front, Line(a, b));
      MulDistributes(a, Sum(front), last);
      MulDistributes(b, |front| as real, 1.0);
      assert |s| as real == |front| as real + 1.0;
      assert Mul(b, 1.0) == b;
    }
  }

  lemma QuotientScales(x: real, n: real, a: real)
    requires n > 0.0
    ensures Mul(a, x) / n == Mul(a, x / n)
  {
    Divides(x, n);
    Divides(Mul(a, x), n);
    MulAssociates(a, x / n, n);
    Cancels(Mul(a, x) / n, Mul(a, x / n), n);
  }

  lemma MeanScales(s: seq<real>, a: real, b: real)
    requires s != []
    ensures Mean(Mapped(s, Line(a, b))) == Mul(a, Mean(s)) + b
  {
    var n := |s| as real;
    SumScales(s, a, b);
    QuotientScales(Sum(s), n, a);
    SumOfQuotients(Mul(a, Sum(s)), b, n);
  }

  lemma SumOfQuotients(x: real, b: real, n: real)
    requires n > 0.0
    ensures (x + Mul(b, n)) / n == x / n + b
  {
    Divides(x + Mul(b, n), n);
    Divides(x, n);
    MulDistributes(n, x / n, b);
    MulCommutes(n, x / n + b);
    MulCommutes(n, x / n);
    MulCommutes(n, b);
    Cancels((x + Mul(b, n)) / n, x / n + b, n);
  }

  lemma SquareScales(x: real, m: real, a: real, b: real)
    ensures Square(Mul(a, x) + b - (Mul(a, m) + b)) == Mul(Square(a), Square(x - m))
  {
    var d := x - m;
    MulDistributes(a, d, m);
    assert Mul(a, x) + b - (Mul(a, m) + b) == Mul(a, d);
    MulAssociates(a, d, Mul(a, d));
    MulAssociates(d, a, d);
    MulCommutes(d, a);
    MulAssociates(a, d, d);
    MulAssociates(a, a, Mul(d, d));
  }

  lemma {:induction false} SpreadScales(s: seq<real>, m: real, a: real, b: real)
    ensures Spread(Mapped(s, Line(a, b)), Mul(a, m) + b) == Mul(Square(a), Spread(s, m))
  {
    if s == [] {
      MulSign(Square(a), 0.0);
    } else {
      var front, last := s[..|s| - 1], s[|s| - 1];
      SpreadScales(front, m, a, b);
      assert Mapped(s, Line(a, b))[..|s| - 1] == Mapped(front, Line(a, b));
      SquareScales(last, m, a, b);
      MulDistributes(Square(a), Spread(front, m), Square(last - m));
    }
  }

  lemma VarianceScales(s: seq<real>, a: real, b: real)
    requires s != []
    ensures Variance(Mapped(s, Line(a, b))) == Mul(Square(a), Variance(s))
  {
    MeanScales(s, a, b);
    SpreadScales(s, Mean(s), a, b);
    QuotientScales(Spread(s, Mean(s)), |s| as real, Square(a));
  }

  lemma {:induction false} SpreadNonNegative(s: seq<real>, m: real)
    ensures Spread(s, m) >= 0.0
    ensures Spread(s, m) == 0.0 <==> forall i :: 0 <= i < |s| ==> s[i] == m
  {
    if s != [] {
      var front, last := s[..|s| - 1], s[|s| - 1];
      SpreadNonNegative(front, m);
      SquarePositive(last - m);
      assert forall i :: 0 <= i < |front| ==> front[i] == s[i];
    }
  }

  lemma SquarePositive(x: real)
    ensures Square(x) >= 0.0 && (Square(x) == 0.0 <==> x == 0.0)
  {
    MulSign(x, x);
  }

  lemma {:induction false} SumOfEqual(s: seq<real>, v: real)
    requires forall i :: 0 <= i < |s| ==> s[i] == v
    ensures Sum(s) == Mul(v, |s| as real)
  {
    if s == [] {
      MulSign(v, 0.0);
    } else {
      SumOfEqual(s[..|s| - 1], v);
      MulDistributes(v, (|s| - 1) as real, 1.0);
      assert |s| as real == (|s| - 1) as real + 1.0;
      assert Mul(v, 1.0) == v;
    }
  }

  ghost predicate AllEqual(s: seq<real>) { forall i, j :: 0 <= i < |s| && 0 <= j < |s| ==> s[i] == s[j] }

  /** There is no spread exactly when there is nothing to tell the elements apart. */
  lemma VarianceZeroIffEqual(s: seq<real>)
    requires s != []
    ensures Variance(s) >= 0.0 && (Variance(s) == 0.0 <==> AllEqual(s))
  {
    var n, m := |s| as real, Mean(s);
    SpreadNonNegative(s, m);
    if AllEqual(s) {
      MeanOfEqual(s);
    }
    QuotientSign(Spread(s, m), n);
  }

  lemma MeanOfEqual(s: seq<real>)
    requires s != [] && AllEqual(s)
    ensures forall i :: 0 <= i < |s| ==> s[i] == Mean(s)
  {
    SumOfEqual(s, s[0]);
    Divides(Sum(s), |s| as real);
    Cancels(Mean(s), s[0], |s| as real);
  }

  lemma QuotientSign(x: real, n: real)
    requires n > 0.0 && x >= 0.0
    ensures x / n >= 0.0 && (x / n == 0.0 <==> x == 0.0)
  {
  }
}

/** The CostGuard scorer. */
module CostGuard {
  import opened Common
  import opened Statistics
  import Ranking
  import Selector

  type Model = Ranking.Model

  const NEUTRAL := 0.5
  const Z95 := 1.96

  /** The published cost digest of a model: how many samples it holds, and its trimmed means. */
  datatype Digest = Digest(count: nat, trimmedMean: (real, real) -> real)

  datatype Settings = Settings(alpha: real, lambda: real, threshold: nat)

  // ---------- the mathematics the scorer takes from its library ----------

  /** math.Sqrt. */
  ghost predicate IsRoot(root: real -> real) {
    forall v :: v >= 0.0 ==> root(v) >= 0.0 && Mul(root(v), root(v)) == v
  }

  /** 1 / (1 + exp(x)): strictly decreasing and symmetric about (0, 1/2). */
  ghost predicate IsSigmoid(sigmoid: real -> real) {
    && sigmoid(0.0) == NEUTRAL
    && (forall x, y :: x < y ==> sigmoid(x) > sigmoid(y))
    && (forall x :: Opposite(sigmoid, x))
    && (forall x :: 0.0 < sigmoid(x) < 1.0)
  }

  ghost predicate Opposite(sigmoid: real -> real, x: real) { sigmoid(x) + sigmoid(-x) == 1.0 }

  lemma RootIsUnique(x: real, y: real)
    requires x >= 0.0 && y >= 0.0 && Mul(x, x) == Mul(y, y)
    ensures x == y
  {
    MulDistributes(x, x, -y);
    MulDistributes(y, x, -y);
    MulCommutes(x, y);
    assert Mul(x, -y) == -Mul(x, y) && Mul(y, -y) == -Mul(y, y);
    MulCommutes(x + y, x - y);
    MulDistributes(x - y, x, y);
    MulCommutes(x - y, x);
    MulCommutes(x - y, y);
    NoZeroDivisors(x - y, x + y);
  }

  // ---------- the sample threshold ----------

  /** The sample size of the Wald interval for a proportion. */
  function Threshold(alpha: real, w: real): int
    requires w != 0.0
  {
    -((-(Z95 * Z95 * alpha * (1.0 - alpha) / (w * w))).Floor)
  }

  /** It is the least number of samples n whose squared half-width z^2 alpha (1 - alpha) / n is at most w^2. */
  lemma ThresholdIsLeast(alpha: real, w: real, n: int)
    requires 0.0 < alpha < 1.0 && 0.0 < w < 1.0
    ensures Threshold(alpha, w) > 0
    ensures n >= Threshold(alpha, w) <==> Mul(n as real, Square(w)) >= Z95 * Z95 * alpha * (1.0 - alpha)
  {
    var v, ww := Z95 * Z95 * alpha * (1.0 - alpha), Square(w);
    MulSign(alpha, 1.0 - alpha);
    MulSign(w, w);
    assert v == Mul(Z95 * Z95, Mul(alpha, 1.0 - alpha));
    MulSign(Z95 * Z95, Mul(alpha, 1.0 - alpha));
    var q := v / ww;
    Divides(v, ww);
    OrderScales(q, n as real, ww);
    MulCommutes(q, ww);
    MulCommutes(n as real, ww);
    CeilingIsLeast(q, n);
    CeilingIsLeast(q, 0);
    MulSign(q, ww);
    MulSign(-q, ww);
    assert Mul(-q, ww) == -Mul(q, ww);
  }

  lemma CeilingIsLeast(q: real, n: int)
    ensures n >= -((-q).Floor) <==> n as real >= q
  {
  }

  // ---------- scores from ranks ----------

  /** stddevPop, 0 for fewer than two ranks. */
  function Sigma(root: real -> real, ranks: seq<real>): real {
    if |ranks| < 2 then 0.0 else root(Variance(ranks))
  }

  /** A rank's distance from the median, in widths. */
  function Centred(r: real, median: real, sigma: real): real
    requires sigma != 0.0
  {
    Mul(1.0 / sigma, r - median)
  }

  /** What exploit gives a model of rank r among the explored ones. */
  function ScoreOf(sigmoid: real -> real, root: real -> real, ranks: seq<real>, r: real): real
    requires ranks != []
  {
    var sigma := Sigma(root, ranks);
    if sigma == 0.0 then NEUTRAL else sigmoid(Centred(r, Median(ranks), sigma))
  }

  /** The sigmoid's width is 0 exactly when all ranks agree. */
  lemma SigmaZeroIffEqual(root: real -> real, ranks: seq<real>)
    requires IsRoot(root)
    ensures Sigma(root, ranks) >= 0.0 && (Sigma(root, ranks) == 0.0 <==> AllEqual(ranks))
  {
    if |ranks| >= 2 {
      var v := Variance(ranks);
      VarianceZeroIffEqual(ranks);
      MulSign(root(v), root(v));
    }
  }

  lemma SigmaScales(root: real -> real, ranks: seq<real>, a: real, b: real)
    requires IsRoot(root) && a > 0.0
    ensures Sigma(root, Mapped(ranks, Line(a, b))) == Mul(a, Sigma(root, ranks))
  {
    MulSign(a, 0.0);
    if |ranks| >= 2 {
      var v, v' := Variance(ranks), Variance(Mapped(ranks, Line(a, b)));
      VarianceZeroIffEqual(ranks);
      VarianceZeroIffEqual(Mapped(ranks, Line(a, b)));
      VarianceScales(ranks, a, b);
      ProductSquared(a, root(v));
      MulSign(a, root(v));
      RootIsUnique(root(v'), Mul(a, root(v)));
    }
  }

  lemma ProductSquared(x: real, y: real)
    ensures Mul(Mul(x, y), Mul(x, y)) == Mul(Mul(x, x), Mul(y, y))
  {
    MulAssociates(x, y, Mul(x, y));
    MulAssociates(y, x, y);
    MulCommutes(y, x);
    MulAssociates(x, y, y);
    MulAssociates(x, x, Mul(y, y));
  }

  /** Scaling both the distance and the width leaves their quotient. */
  lemma QuotientInvariant(a: real, sigma: real, d: real)
    requires a > 0.0 && sigma > 0.0
    ensures Mul(a, sigma) > 0.0 && Mul(1.0 / Mul(a, sigma), Mul(a, d)) == Mul(1.0 / sigma, d)
  {
    MulSign(a, sigma);
    var beta, gamma := 1.0 / sigma, 1.0 / Mul(a, sigma);
    Divides(1.0, sigma);
    Divides(1.0, Mul(a, sigma));
    MulAssociates(gamma, a, sigma);
    Cancels(Mul(gamma, a), beta, sigma);
    MulAssociates(gamma, a, d);
  }

  lemma CentredScales(r: real, m: real, sigma: real, a: real, b: real)
    requires a > 0.0 && sigma > 0.0
    ensures Mul(a, sigma) > 0.0 && Centred(Mul(a, r) + b, Mul(a, m) + b, Mul(a, sigma)) == Centred(r, m, sigma)
  {
    MulDistributes(a, r - m, m);
    QuotientInvariant(a, sigma, r - m);
  }

  /** Scores do not depend on the currency, nor on a cost common to all models. */
  lemma AffineInvariance(sigmoid: real -> real, root: real -> real, ranks: seq<real>, r: real, a: real, b: real)
    requires IsRoot(root) && ranks != [] && a > 0.0
    ensures ScoreOf(sigmoid, root, Mapped(ranks, Line(a, b)), Mul(a, r) + b) == ScoreOf(sigmoid, root, ranks, r)
  {
    var sigma, m := Sigma(root, ranks), Median(ranks);
    SigmaScales(root, ranks, a, b);
    SigmaZeroIffEqual(root, ranks);
    if sigma == 0.0 {
      MulSign(a, sigma);
    } else {
      MedianScales(ranks, a, b);
      CentredScales(r, m, sigma, a, b);
    }
  }

  /** A cheaper model never scores below a dearer one, and scores above it unless all ranks agree. */
  lemma CheaperScoresHigher(sigmoid: real -> real, root: real -> real, ranks: seq<real>, r: real, s: real)
    requires IsRoot(root) && IsSigmoid(sigmoid) && ranks != [] && r <= s
    ensures ScoreOf(sigmoid, root, ranks, r) >= ScoreOf(sigmoid, root, ranks, s)
    ensures r < s && !AllEqual(ranks) ==> ScoreOf(sigmoid, root, ranks, r) > ScoreOf(sigmoid, root, ranks, s)
  {
    var sigma, m := Sigma(root, ranks), Median(ranks);
    SigmaZeroIffEqual(root, ranks);
    if sigma > 0.0 && r < s {
      InverseSign(sigma);
      OrderScales(s - m, r - m, 1.0 / sigma);
    }
  }

  lemma InverseSign(x: real)
    requires x > 0.0
    ensures 1.0 / x > 0.0
  {
  }

  /** A model at the median scores 1/2. */
  lemma MedianScoresNeutral(sigmoid: real -> real, root: real -> real, ranks: seq<real>)
    requires IsSigmoid(sigmoid) && ranks != []
    ensures ScoreOf(sigmoid, root, ranks, Median(ranks)) == NEUTRAL
  {
    var sigma := Sigma(root, ranks);
    if sigma != 0.0 {
      MulSign(1.0 / sigma, 0.0);
    }
  }

  function ScoresAtLeastHalf(sigmoid: real -> real, root: real -> real, ranks: seq<real>): real -> bool
    requires ranks != []
  {
    r => ScoreOf(sigmoid, root, ranks, r) >= NEUTRAL
  }

  function ScoresAtMostHalf(sigmoid: real -> real, root: real -> real, ranks: seq<real>): real -> bool
    requires ranks != []
  {
    r => ScoreOf(sigmoid, root, ranks, r) <= NEUTRAL
  }

  /** At least half of the explored models score 1/2 or more, and at least half 1/2 or less. */
  lemma HalfScoreEachSide(sigmoid: real -> real, root: real -> real, ranks: seq<real>)
    requires IsRoot(root) && IsSigmoid(sigmoid) && ranks != []
    ensures 2 * Count(ranks, ScoresAtLeastHalf(sigmoid, root, ranks)) >= |ranks|
    ensures 2 * Count(ranks, ScoresAtMostHalf(sigmoid, root, ranks)) >= |ranks|
  {
    var m := Median(ranks);
    MedianHalves(ranks);
    MedianScoresNeutral(sigmoid, root, ranks);
    forall i | 0 <= i < |ranks|
      ensures AtMost(m)(ranks[i]) ==> ScoresAtLeastHalf(sigmoid, root, ranks)(ranks[i])
      ensures AtLeast(m)(ranks[i]) ==> ScoresAtMostHalf(sigmoid, root, ranks)(ranks[i])
    {
      if ranks[i] <= m {
        CheaperScoresHigher(sigmoid, root, ranks, ranks[i], m);
      }
      if m <= ranks[i] {
        CheaperScoresHigher(sigmoid, root, ranks, m, ranks[i]);
      }
    }
    CountWeakens(ranks, AtMost(m), ScoresAtLeastHalf(sigmoid, root, ranks));
    CountWeakens(ranks, AtLeast(m), ScoresAtMostHalf(sigmoid, root, ranks));
  }

  lemma PairStatistics(x: real, y: real)
    requires x <= y
    ensures Median([x, y]) == (x + y) / 2.0 == Median([y, x])
    ensures Variance([x, y]) == Square((y - x) / 2.0) == Variance([y, x])
  {
    assert Sorted([]) == [] && [x, y][..1] == [x] && [y, x][..1] == [y] && [x][..0] == [] && [y][..0] == [];
    assert Insert([], x) == [x] && Insert([], y) == [y];
    assert Sorted([x]) == [x] && Sorted([y]) == [y];
    PairVariance(x, y);
    PairVariance(y, x);
    assert Mul(-((y - x) / 2.0), -((y - x) / 2.0)) == Mul((y - x) / 2.0, (y - x) / 2.0);
  }

  lemma PairVariance(x: real, y: real)
    ensures Variance([x, y]) == Square((y - x) / 2.0)
  {
    var s, m, h := [x, y], (x + y) / 2.0, (y - x) / 2.0;
    assert s[..1] == [x] && [x][..0] == [];
    assert Sum([x]) == x;
    assert Sum(s) == x + y;
    assert Mean(s) == m;
    assert x - m == -h && y - m == h;
    assert Mul(-h, -h) == Mul(h, h);
    assert Spread([x], m) == Square(-h);
    assert Spread(s, m) == Square(h) + Square(h);
  }

  /** With two explored models of different cost, however different, the cheaper always scores
      sigmoid(-1) and the dearer sigmoid(1), which add up to 1. */
  lemma TwoModels(sigmoid: real -> real, root: real -> real, x: real, y: real)
    requires IsRoot(root) && IsSigmoid(sigmoid) && x <= y
    ensures forall ranks :: ranks == [x, y] || ranks == [y, x] ==>
              && ScoreOf(sigmoid, root, ranks, x) == (if x == y then NEUTRAL else sigmoid(-1.0))
              && ScoreOf(sigmoid, root, ranks, y) == (if x == y then NEUTRAL else sigmoid(1.0))
              && ScoreOf(sigmoid, root, ranks, x) + ScoreOf(sigmoid, root, ranks, y) == 1.0
  {
    var h := (y - x) / 2.0;
    PairStatistics(x, y);
    SquarePositive(h);
    RootIsUnique(root(Square(h)), h);
    if x < y {
      Divides(1.0, h);
      assert Mul(1.0 / h, -h) == -Mul(1.0 / h, h);
      assert Opposite(sigmoid, 1.0);
    }
  }

  method StddevPop(root: real -> real, ranks: seq<real>) returns (sigma: real)
    ensures sigma == Sigma(root, ranks)
  {
    if |ranks| < 2 { return 0.0; }
    var mean := 0.0;
    for i := 0 to |ranks|
      invariant mean == Sum(ranks[..i])
    {
      assert ranks[..i + 1][..i] == ranks[..i];
      mean := mean + ranks[i];
    }
    assert ranks[..|ranks|] == ranks;
    mean := mean / (|ranks| as real);
    var ss := 0.0;
    for i := 0 to |ranks|
      invariant ss == Spread(ranks[..i], mean)
    {
      assert ranks[..i + 1][..i] == ranks[..i];
      var diff := ranks[i] - mean;
      ss := ss + Mul(diff, diff);
    }
    sigma := root(ss / (|ranks| as real));
  }

  // ---------- scoring the models ----------

  predicate Explored(digest: Model -> Option<Digest>, s: Settings, m: Model) {
    digest(m).Some? && digest(m).value.count >= s.threshold
  }

  /** The trimmed mean below alpha plus lambda times the tail expectation above it. */
  function RankOf(digest: Model -> Option<Digest>, s: Settings, m: Model): real
    requires Explored(digest, s, m)
  {
    var d := digest(m).value;
    d.trimmedMean(0.0, s.alpha) + Mul(s.lambda, d.trimmedMean(s.alpha, 1.0))
  }

  /** The tail counts lambda times: not at all for 0, and otherwise a dearer tail never ranks lower. */
  lemma TailWeighsIn(digest: Model -> Option<Digest>, s: Settings, m: Model, n: Model)
    requires Explored(digest, s, m) && Explored(digest, s, n) && s.lambda >= 0.0
    requires digest(m).value.trimmedMean(0.0, s.alpha) == digest(n).value.trimmedMean(0.0, s.alpha)
    ensures s.lambda == 0.0 ==> RankOf(digest, s, m) == digest(m).value.trimmedMean(0.0, s.alpha)
    ensures s.lambda > 0.0 ==>
              (RankOf(digest, s, m) <= RankOf(digest, s, n) <==>
               digest(m).value.trimmedMean(s.alpha, 1.0) <= digest(n).value.trimmedMean(s.alpha, 1.0))
  {
    var x, y := digest(m).value.trimmedMean(s.alpha, 1.0), digest(n).value.trimmedMean(s.alpha, 1.0);
    if s.lambda > 0.0 {
      OrderScales(x, y, s.lambda);
    }
  }

  /** With the threshold of half-width w, a model is explored exactly when it has a digest with enough samples n for
      the squared half-width z^2 alpha (1 - alpha) / n to be at most w^2. */
  lemma ExploredIffEnough(digest: Model -> Option<Digest>, s: Settings, w: real, m: Model)
    requires 0.0 < s.alpha < 1.0 && 0.0 < w < 1.0 && s.threshold == Threshold(s.alpha, w)
    ensures Explored(digest, s, m) <==>
            digest(m).Some? &&
            Mul(digest(m).value.count as real, Square(w)) >= Z95 * Z95 * s.alpha * (1.0 - s.alpha)
  {
    if digest(m).Some? {
      ThresholdIsLeast(s.alpha, w, digest(m).value.count);
    }
  }

  /** Ranks differ by the difference of the body means plus lambda times that of the tail means. */
  lemma RanksDiffer(digest: Model -> Option<Digest>, s: Settings, m: Model, n: Model)
    requires Explored(digest, s, m) && Explored(digest, s, n)
    ensures var a, b := digest(m).value.trimmedMean, digest(n).value.trimmedMean;
            RankOf(digest, s, m) - RankOf(digest, s, n) ==
            a(0.0, s.alpha) - b(0.0, s.alpha) + Mul(s.lambda, a(s.alpha, 1.0) - b(s.alpha, 1.0))
  {
    var a, b := digest(m).value.trimmedMean, digest(n).value.trimmedMean;
    MulDistributes(s.lambda, a(s.alpha, 1.0) - b(s.alpha, 1.0), b(s.alpha, 1.0));
  }

  /** The ranks of the explored models among those given, in order. */
  function RanksOf(digest: Model -> Option<Digest>, s: Settings, models: seq<Model>): seq<real> {
    if models == [] then [] else
      var last := models[|models| - 1];
      RanksOf(digest, s, models[..|models| - 1]) +
      (if Explored(digest, s, last) then [RankOf(digest, s, last)] else [])
  }

  /** The score of one model among the given ones. */
  function ExploitScore(
    sigmoid: real -> real, root: real -> real, digest: Model -> Option<Digest>, s: Settings, models: seq<Model>,
    m: Model): real
  {
    var ranks := RanksOf(digest, s, models);
    if Explored(digest, s, m) && ranks != [] then ScoreOf(sigmoid, root, ranks, RankOf(digest, s, m)) else NEUTRAL
  }

  /** Where there is nothing to compare, every model scores 1/2: one without enough samples, the only explored one,
      and all of them when the explored ones rank alike. */
  lemma NeutralCases(
    sigmoid: real -> real, root: real -> real, digest: Model -> Option<Digest>, s: Settings, models: seq<Model>,
    m: Model)
    requires IsRoot(root)
    ensures !Explored(digest, s, m) || AllEqual(RanksOf(digest, s, models)) ==>
              ExploitScore(sigmoid, root, digest, s, models, m) == 0.5
  {
    SigmaZeroIffEqual(root, RanksOf(digest, s, models));
  }

  lemma RanksSnoc(digest: Model -> Option<Digest>, s: Settings, models: seq<Model>, i: nat)
    requires i < |models|
    ensures RanksOf(digest, s, models[..i + 1]) ==
            RanksOf(digest, s, models[..i]) +
            (if Explored(digest, s, models[i]) then [RankOf(digest, s, models[i])] else [])
  {
    assert models[..i + 1][..i] == models[..i];
  }

  /** The first loop of exploit: under-explored models are neutral, the others are set apart. */
  method Partition(digest: Model -> Option<Digest>, s: Settings, models: seq<Model>)
    returns (scores: map<Model, real>, explored: seq<Model>)
    ensures forall m :: m in scores <==> m in models && !Explored(digest, s, m)
    ensures forall m :: m in scores ==> scores[m] == NEUTRAL
    ensures forall m :: m in explored <==> m in models && Explored(digest, s, m)
    ensures RanksOf(digest, s, explored) == RanksOf(digest, s, models) && |explored| == |RanksOf(digest, s, models)|
  {
    scores, explored := map[], [];
    for i := 0 to |models|
      invariant forall m :: m in scores <==> m in models[..i] && !Explored(digest, s, m)
      invariant forall m :: m in scores ==> scores[m] == NEUTRAL
      invariant forall m :: m in explored <==> m in models[..i] && Explored(digest, s, m)
      invariant RanksOf(digest, s, explored) == RanksOf(digest, s, models[..i])
      invariant |explored| == |RanksOf(digest, s, models[..i])|
    {
      var m := models[i];
      RanksSnoc(digest, s, models, i);
      assert (explored + [m])[..|explored|] == explored;
      if !Explored(digest, s, m) {
        scores := scores[m := NEUTRAL];
      } else {
        explored := explored + [m];
      }
    }
    assert models[..|models|] == models;
  }

  method Ranks(digest: Model -> Option<Digest>, s: Settings, explored: seq<Model>) returns (ranks: seq<real>)
    requires forall m :: m in explored ==> Explored(digest, s, m)
    ensures ranks == RanksOf(digest, s, explored) && |ranks| == |explored|
    ensures forall i :: 0 <= i < |explored| ==> ranks[i] == RankOf(digest, s, explored[i])
  {
    ranks := [];
    for i := 0 to |explored|
      invariant ranks == RanksOf(digest, s, explored[..i]) && |ranks| == i
      invariant forall k :: 0 <= k < i ==> ranks[k] == RankOf(digest, s, explored[k])
    {
      RanksSnoc(digest, s, explored, i);
      ranks := ranks + [RankOf(digest, s, explored[i])];
    }
    assert explored[..|explored|] == explored;
  }

  /** Adds the explored models' scores; f says what the i-th value stands for. */
  method Fill(scores: map<Model, real>, explored: seq<Model>, values: seq<real>, ghost f: Model -> real)
    returns (r: map<Model, real>)
    requires |values| == |explored| && forall i :: 0 <= i < |explored| ==> values[i] == f(explored[i])
    ensures forall m :: m in r <==> m in scores || m in explored
    ensures forall m :: m in r ==> r[m] == if m in explored then f(m) else scores[m]
  {
    r := scores;
    for i := 0 to |explored|
      invariant forall m :: m in r <==> m in scores || m in explored[..i]
      invariant forall m :: m in r ==> r[m] == if m in explored[..i] then f(m) else scores[m]
    {
      r := r[explored[i] := values[i]];
    }
    assert explored[..|explored|] == explored;
  }

  method Sigmoids(sigmoid: real -> real, ranks: seq<real>, med: real, sigma: real) returns (values: seq<real>)
    requires sigma != 0.0
    ensures |values| == |ranks| && forall i :: 0 <= i < |ranks| ==> values[i] == sigmoid(Centred(ranks[i], med, sigma))
  {
    values := [];
    var beta := 1.0 / sigma;
    for i := 0 to |ranks|
      invariant |values| == i && forall k :: 0 <= k < i ==> values[k] == sigmoid(Centred(ranks[k], med, sigma))
    {
      values := values + [sigmoid(Mul(beta, ranks[i] - med))];
    }
  }

  /** Every model gets its score: neutral when under-explored, when fewer than two are explored, or when
      all explored ranks agree; otherwise the sigmoid of its centred rank. */
  method Exploit(
    sigmoid: real -> real, root: real -> real, digest: Model -> Option<Digest>, s: Settings, models: seq<Model>)
    returns (scores: map<Model, real>)
    ensures forall m :: m in scores <==> m in models
    ensures forall m :: m in scores ==> scores[m] == ExploitScore(sigmoid, root, digest, s, models, m)
  {
    var neutral, explored := Partition(digest, s, models);
    var ranks := Ranks(digest, s, explored);
    var sigma := StddevPop(root, ranks);
    var values := seq(|explored|, _ => NEUTRAL);
    if sigma != 0.0 {
      values := Sigmoids(sigmoid, ranks, Median(ranks), sigma);
    }
    scores := Fill(neutral, explored, values, m => ExploitScore(sigmoid, root, digest, s, models, m));
  }

  /** Scores stay strictly between 0 and 1, and of two explored models the cheaper never scores lower. */
  lemma ExploitIsMonotone(
    sigmoid: real -> real, root: real -> real, digest: Model -> Option<Digest>, s: Settings, models: seq<Model>,
    m: Model, n: Model)
    requires IsRoot(root) && IsSigmoid(sigmoid)
    ensures 0.0 < ExploitScore(sigmoid, root, digest, s, models, m) < 1.0
    ensures Explored(digest, s, m) && Explored(digest, s, n) && RankOf(digest, s, m) <= RankOf(digest, s, n) ==>
              ExploitScore(sigmoid, root, digest, s, models, m) >= ExploitScore(sigmoid, root, digest, s, models, n)
  {
    var ranks := RanksOf(digest, s, models);
    if ranks != [] && Explored(digest, s, m) && Explored(digest, s, n) && RankOf(digest, s, m) <= RankOf(digest, s, n) {
      CheaperScoresHigher(sigmoid, root, ranks, RankOf(digest, s, m), RankOf(digest, s, n));
    }
  }

  /** The scorer as the pipeline uses it, in a call that exploits. */
  function AsPlugin(
    sigmoid: real -> real, root: real -> real, digest: Model -> Option<Digest>, s: Settings): Selector.Scorer
  {
    Selector.Scorer("costguard-scorer", (q: Selector.Query, models: seq<Model>) =>
      Some(Selector.Assigned(models, (m: Model) => ExploitScore(sigmoid, root, digest, s, models, m))))
  }

  lemma {:induction false} RankOccurs(digest: Model -> Option<Digest>, s: Settings, models: seq<Model>, m: Model)
    requires m in models && Explored(digest, s, m)
    ensures RankOf(digest, s, m) in RanksOf(digest, s, models)
  {
    var front, last := models[..|models| - 1], models[|models| - 1];
    assert models == front + [last];
    if m != last {
      RankOccurs(digest, s, front, m);
    }
  }

  /** Alone in a pipeline, with a positive weight, an exploiting call makes an explored survivor win only if no
      explored survivor ranks lower. */
  lemma LowestRankWins(
    sigmoid: real -> real, root: real -> real, digest: Model -> Option<Digest>, s: Settings, weight: real,
    q: Selector.Query, models: seq<Model>, n: Model, m: Model)
    requires IsRoot(root) && IsSigmoid(sigmoid) && weight > 0.0
    requires m in models && n in models && Explored(digest, s, m) && Explored(digest, s, n)
    requires var scorer := Selector.WeightedScorer(AsPlugin(sigmoid, root, digest, s), weight);
             Selector.Total([scorer], q, models, m) <= Selector.Total([scorer], q, models, n)
    ensures RankOf(digest, s, n) <= RankOf(digest, s, m)
  {
    var scorer := Selector.WeightedScorer(AsPlugin(sigmoid, root, digest, s), weight);
    var ranks, x, y := RanksOf(digest, s, models), RankOf(digest, s, m), RankOf(digest, s, n);
    RankOccurs(digest, s, models, m);
    RankOccurs(digest, s, models, n);
    Selector.OneScorerDecides(scorer, q, models, m, n);
    ExploitIsMonotone(sigmoid, root, digest, s, models, m, n);
    ExploitIsMonotone(sigmoid, root, digest, s, models, n, m);
    if x < y {
      CheaperScoresHigher(sigmoid, root, ranks, x, y);
    }
  }

  /** One model is promoted to 1, an under-explored one whenever there is any; all others are neutral. */
  method Explore(digest: Model -> Option<Digest>, s: Settings, models: seq<Model>, draw: nat)
    returns (scores: map<Model, real>, pick: Model)
    requires models != []
    ensures forall m :: m in scores <==> m in models
    ensures pick in models && scores[pick] == 1.0
    ensures forall m :: m in models && m != pick ==> scores[m] == NEUTRAL
    ensures (exists m :: m in models && !Explored(digest, s, m)) ==> !Explored(digest, s, pick)
  {
    var pool := [];
    for i := 0 to |models|
      invariant forall m :: m in pool <==> m in models[..i] && !Explored(digest, s, m)
    {
      if !Explored(digest, s, models[i]) {
        pool := pool + [models[i]];
      }
    }
    assert models[..|models|] == models;
    if pool == [] {
      pool := models;
    }
    pick := pool[draw % |pool|];
    scores := map[];
    for i := 0 to |models|
      invariant forall m :: m in scores <==> m in models[..i]
      invariant forall m :: m in scores ==> scores[m] == NEUTRAL
    {
      scores := scores[models[i] := NEUTRAL];
    }
    scores := scores[pick := 1.0];
  }

  /** The scorer in a call that explores; pick is what Explore promotes. */
  function AsExploringPlugin(pick: seq<Model> -> Model): Selector.Scorer {
    Selector.Scorer("costguard-scorer", (q: Selector.Query, models: seq<Model>) =>
      Some(Selector.Assigned(models, (m: Model) => if m == pick(models) then 1.0 else NEUTRAL)))
  }

  /** Alone in a pipeline, with a positive weight, an exploring call makes the promoted model the only winner. */
  lemma PromotedWins(
    pick: seq<Model> -> Model, weight: real, q: Selector.Query, models: seq<Model>, n: Model)
    requires weight > 0.0 && pick(models) in models && n in models
    requires var scorer := Selector.WeightedScorer(AsExploringPlugin(pick), weight);
             Selector.Total([scorer], q, models, pick(models)) <= Selector.Total([scorer], q, models, n)
    ensures n == pick(models)
  {
    Selector.OneScorerDecides(
      Selector.WeightedScorer(AsExploringPlugin(pick), weight), q, models, pick(models), n);
  }
}
