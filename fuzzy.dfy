/** Fuzzy-number arithmetic of src/utils.ts:1-59: the guarded geometric mean, the
    five-component aggregate of a list of triangular numbers, component-wise addition and
    multiplication, and defuzzification. */
module Fuzzy {
  import opened Types

  /** `x` raised to the natural power `n`. */
  function Pow(x: real, n: nat): real {
    if n == 0 then 1.0 else x * Pow(x, n - 1)
  }

  /** `root(x, n)` stands for JavaScript's `Math.pow(x, 1 / n)`, which is not computable
      over the reals; the laws below are all the model assumes of it, and only where a
      lemma names them. */
  type Root = (real, nat) -> real

  /** The n-th root of a positive number is positive. */
  ghost predicate RootPositive(root: Root) {
    forall x: real, n: nat :: 0.0 < x && 0 < n ==> 0.0 < root(x, n)
  }

  /** The n-th root undoes the n-th power on positive numbers. */
  ghost predicate RootInverts(root: Root) {
    forall v: real, n: nat :: 0.0 < v && 0 < n ==> root(Pow(v, n), n) == v
  }

  /** The value the geometric mean multiplies in place of a non-positive input (1e-10). */
  const Epsilon: real := 0.0000000001

  function Guard(v: real): real {
    if v > 0.0 then v else Epsilon
  }

  /** The plain product of a list, folded from the left from 1. */
  function Product(s: seq<real>): real {
    if s == [] then 1.0 else Product(s[..|s| - 1]) * s[|s| - 1]
  }

  /** The product `geometricMean` roots: every factor is first passed through `Guard`,
      so the product is strictly positive whatever the inputs. */
  function GuardedProduct(s: seq<real>): (p: real)
    ensures 0.0 < p
  {
    if s == [] then 1.0 else GuardedProduct(s[..|s| - 1]) * Guard(s[|s| - 1])
  }

  /** `geometricMean`: the |s|-th root of the guarded product. */
  function GeometricMean(root: Root, s: seq<real>): (g: real)
    ensures RootPositive(root) && |s| > 0 ==> 0.0 < g
  {
    root(GuardedProduct(s), |s|)
  }

  /** The guarded product is the plain product of the guarded values. */
  lemma {:induction false} GuardedProductIsProductOfGuards(s: seq<real>)
    ensures GuardedProduct(s) == Product(seq(|s|, i requires 0 <= i < |s| => Guard(s[i])))
  {
    var g := seq(|s|, i requires 0 <= i < |s| => Guard(s[i]));
    if s != [] {
      var s' := s[..|s| - 1];
      GuardedProductIsProductOfGuards(s');
      assert g[..|g| - 1] == seq(|s'|, i requires 0 <= i < |s'| => Guard(s'[i]));
    }
  }

  /** On strictly positive inputs the guard changes nothing: the product is the plain one. */
  lemma {:induction false} GuardedProductOfPositives(s: seq<real>)
    requires forall i :: 0 <= i < |s| ==> 0.0 < s[i]
    ensures GuardedProduct(s) == Product(s)
  {
    if s != [] {
      GuardedProductOfPositives(s[..|s| - 1]);
    }
  }

  /** The guarded product of n copies of a positive value is its n-th power. */
  lemma {:induction false} GuardedProductOfConstant(s: seq<real>, v: real)
    requires 0.0 < v
    requires forall i :: 0 <= i < |s| ==> s[i] == v
    ensures GuardedProduct(s) == Pow(v, |s|)
  {
    if s != [] {
      GuardedProductOfConstant(s[..|s| - 1], v);
    }
  }

  /** A non-positive input counts as `Epsilon`: replacing it by `Epsilon` changes neither
      the guarded product nor the mean, and so cannot zero the mean. */
  lemma GeometricMeanIgnoresZeros(root: Root, s: seq<real>, k: nat)
    requires k < |s| && s[k] <= 0.0
    ensures GuardedProduct(s) == GuardedProduct(s[k := Epsilon])
    ensures GeometricMean(root, s) == GeometricMean(root, s[k := Epsilon])
  {
    var t := s[k := Epsilon];
    GuardedProductIsProductOfGuards(s);
    GuardedProductIsProductOfGuards(t);
    assert seq(|s|, i requires 0 <= i < |s| => Guard(s[i]))
        == seq(|t|, i requires 0 <= i < |t| => Guard(t[i]));
  }

  /** The geometric mean of n copies of a positive value is that value. */
  lemma GeometricMeanOfConstant(root: Root, s: seq<real>, v: real)
    requires RootInverts(root)
    requires 0.0 < v && |s| > 0
    requires forall i :: 0 <= i < |s| ==> s[i] == v
    ensures GeometricMean(root, s) == v
  {
    GuardedProductOfConstant(s, v);
  }

  /** `Math.min(...s)` for a non-empty list: a lower bound that is attained. */
  function MinOf(s: seq<real>): (r: real)
    requires |s| > 0
    ensures forall i :: 0 <= i < |s| ==> r <= s[i]
    ensures exists i :: 0 <= i < |s| && r == s[i]
  {
    if |s| == 1 then s[0]
    else
      var r := MinOf(s[..|s| - 1]);
      if s[|s| - 1] < r then s[|s| - 1] else r
  }

  /** `Math.max(...s)` for a non-empty list: an upper bound that is attained. */
  function MaxOf(s: seq<real>): (r: real)
    requires |s| > 0
    ensures forall i :: 0 <= i < |s| ==> s[i] <= r
    ensures exists i :: 0 <= i < |s| && r == s[i]
  {
    if |s| == 1 then s[0]
    else
      var r := MaxOf(s[..|s| - 1]);
      if s[|s| - 1] > r then s[|s| - 1] else r
  }

  function Lowers(tris: seq<Triangular>): seq<real> {
    seq(|tris|, i requires 0 <= i < |tris| => tris[i].l)
  }

  function Middles(tris: seq<Triangular>): seq<real> {
    seq(|tris|, i requires 0 <= i < |tris| => tris[i].m)
  }

  function Uppers(tris: seq<Triangular>): seq<real> {
    seq(|tris|, i requires 0 <= i < |tris| => tris[i].u)
  }

  /** `calculateFuzzy5`: collapses the experts' triangular numbers for one cell. An empty
      list gives the zero number; otherwise `l` is the least lower bound and `u` the
      greatest upper bound of the inputs, both attained by some input. */
  function CalculateFuzzy5(root: Root, tris: seq<Triangular>): (f: Fuzzy5)
    ensures tris == [] ==> f == Zero5
    ensures forall k :: 0 <= k < |tris| ==> f.l <= tris[k].l && tris[k].u <= f.u
    ensures tris != [] ==> exists k :: 0 <= k < |tris| && f.l == tris[k].l
    ensures tris != [] ==> exists k :: 0 <= k < |tris| && f.u == tris[k].u
    ensures RootPositive(root) && tris != [] ==> 0.0 < f.lp && 0.0 < f.m && 0.0 < f.up
  {
    if tris == [] then Zero5
    else
      var ls, ms, us := Lowers(tris), Middles(tris), Uppers(tris);
      assert forall k :: 0 <= k < |tris| ==> ls[k] == tris[k].l && us[k] == tris[k].u;
      Fuzzy5(MinOf(ls), GeometricMean(root, ls), GeometricMean(root, ms),
             GeometricMean(root, us), MaxOf(us))
  }

  /** When every expert gives the same positive triple (l, m, u), the aggregate is
      (l, l, m, u, u). */
  lemma Fuzzy5OfUnanimous(root: Root, tris: seq<Triangular>, t: Triangular)
    requires RootInverts(root)
    requires 0.0 < t.l && 0.0 < t.m && 0.0 < t.u
    requires tris != [] && forall k :: 0 <= k < |tris| ==> tris[k] == t
    ensures CalculateFuzzy5(root, tris) == Fuzzy5(t.l, t.l, t.m, t.u, t.u)
  {
    GeometricMeanOfConstant(root, Lowers(tris), t.l);
    GeometricMeanOfConstant(root, Middles(tris), t.m);
    GeometricMeanOfConstant(root, Uppers(tris), t.u);
  }

  /** Non-negative triangular inputs give a non-negative aggregate. */
  lemma Fuzzy5NonNeg(root: Root, tris: seq<Triangular>)
    requires RootPositive(root)
    requires forall k :: 0 <= k < |tris| ==> TriNonNeg(tris[k])
    ensures NonNeg(CalculateFuzzy5(root, tris))
  {
  }

  /** `fuzzyAdd`: component-wise sum. */
  function FuzzyAdd(f1: Fuzzy5, f2: Fuzzy5): (r: Fuzzy5)
    ensures forall c :: Get(r, c) == Get(f1, c) + Get(f2, c)
  {
    Fuzzy5(f1.l + f2.l, f1.lp + f2.lp, f1.m + f2.m, f1.up + f2.up, f1.u + f2.u)
  }

  /** `fuzzyMultiply`: component-wise product. */
  function FuzzyMultiply(f1: Fuzzy5, f2: Fuzzy5): (r: Fuzzy5)
    ensures forall c :: Get(r, c) == Get(f1, c) * Get(f2, c)
  {
    Fuzzy5(f1.l * f2.l, f1.lp * f2.lp, f1.m * f2.m, f1.up * f2.up, f1.u * f2.u)
  }

  /** `defuzzify`: the mean of the five components. */
  function Defuzzify(f: Fuzzy5): real {
    (f.l + f.lp + f.m + f.up + f.u) / 5.0
  }

  /** The scalar lies between any bounds on the five components. */
  lemma DefuzzifyBetween(f: Fuzzy5, lo: real, hi: real)
    requires forall c :: lo <= Get(f, c) <= hi
    ensures lo <= Defuzzify(f) <= hi
  {
    assert lo <= f.l <= hi by { assert Get(f, L) == f.l; }
    assert lo <= f.lp <= hi by { assert Get(f, LP) == f.lp; }
    assert lo <= f.m <= hi by { assert Get(f, M) == f.m; }
    assert lo <= f.up <= hi by { assert Get(f, UP) == f.up; }
    assert lo <= f.u <= hi by { assert Get(f, U) == f.u; }
  }

  /** A crisp number defuzzifies to itself. */
  lemma DefuzzifyCrisp(x: real)
    ensures Defuzzify(Fuzzy5(x, x, x, x, x)) == x
  {
  }

  lemma FuzzyAddCommutative(a: Fuzzy5, b: Fuzzy5)
    ensures FuzzyAdd(a, b) == FuzzyAdd(b, a)
  {
  }

  lemma FuzzyAddAssociative(a: Fuzzy5, b: Fuzzy5, c: Fuzzy5)
    ensures FuzzyAdd(FuzzyAdd(a, b), c) == FuzzyAdd(a, FuzzyAdd(b, c))
  {
  }

  lemma FuzzyAddIdentity(a: Fuzzy5)
    ensures FuzzyAdd(Zero5, a) == a && FuzzyAdd(a, Zero5) == a
  {
  }

  /** Defuzzification distributes over addition. */
  lemma DefuzzifyAdditive(a: Fuzzy5, b: Fuzzy5)
    ensures Defuzzify(FuzzyAdd(a, b)) == Defuzzify(a) + Defuzzify(b)
  {
  }

  /** Defuzzification preserves the component-wise order. */
  lemma DefuzzifyMonotone(a: Fuzzy5, b: Fuzzy5)
    requires Le(a, b)
    ensures Defuzzify(a) <= Defuzzify(b)
  {
  }

  /** Multiplying by a non-negative weight preserves the component-wise order and
      non-negativity. */
  lemma FuzzyMultiplyMonotone(a: Fuzzy5, b: Fuzzy5, w: Fuzzy5)
    requires NonNeg(a) && Le(a, b) && NonNeg(w)
    ensures NonNeg(FuzzyMultiply(a, w)) && Le(FuzzyMultiply(a, w), FuzzyMultiply(b, w))
  {
    MulMonotone(a.l, b.l, w.l);
    MulMonotone(a.lp, b.lp, w.lp);
    MulMonotone(a.m, b.m, w.m);
    MulMonotone(a.up, b.up, w.up);
    MulMonotone(a.u, b.u, w.u);
  }

  lemma MulMonotone(x: real, y: real, w: real)
    requires 0.0 <= x <= y && 0.0 <= w
    ensures 0.0 <= x * w <= y * w
  {
  }

  /** The row sum of step 8: `row.reduce(fuzzyAdd, zero)`, a fold from the left. */
  function SumFuzzy(row: seq<Fuzzy5>): Fuzzy5 {
    if row == [] then Zero5 else FuzzyAdd(SumFuzzy(row[..|row| - 1]), row[|row| - 1])
  }

  /** The same sum folded from the right. */
  function SumFuzzyRight(row: seq<Fuzzy5>): Fuzzy5 {
    if row == [] then Zero5 else FuzzyAdd(row[0], SumFuzzyRight(row[1..]))
  }

  /** Summing a concatenation adds the sums of its parts. */
  lemma {:induction false} SumFuzzyAppend(a: seq<Fuzzy5>, b: seq<Fuzzy5>)
    ensures SumFuzzy(a + b) == FuzzyAdd(SumFuzzy(a), SumFuzzy(b))
  {
    if b == [] {
      assert a + b == a;
    } else {
      var b' := b[..|b| - 1];
      assert (a + b)[..|a + b| - 1] == a + b';
      SumFuzzyAppend(a, b');
    }
  }

  /** The fold order is irrelevant: left and right folds agree. */
  lemma {:induction false} SumFuzzyFoldOrder(row: seq<Fuzzy5>)
    ensures SumFuzzy(row) == SumFuzzyRight(row)
  {
    if row != [] {
      SumFuzzyFoldOrder(row[1..]);
      assert row == [row[0]] + row[1..];
      SumFuzzyAppend([row[0]], row[1..]);
      assert SumFuzzy([row[0]]) == FuzzyAdd(Zero5, row[0]);
    }
  }

  /** Row sums preserve a cell-by-cell order between two rows of equal length, and
      non-negativity. */
  lemma {:induction false} SumFuzzyMonotone(a: seq<Fuzzy5>, b: seq<Fuzzy5>)
    requires |a| == |b|
    requires forall j :: 0 <= j < |a| ==> NonNeg(a[j]) && Le(a[j], b[j])
    ensures NonNeg(SumFuzzy(a)) && Le(SumFuzzy(a), SumFuzzy(b))
  {
    if a != [] {
      SumFuzzyMonotone(a[..|a| - 1], b[..|b| - 1]);
    }
  }
}
