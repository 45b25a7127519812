/** The Fuzzy ARAS calculation of `calculate` in src/App.tsx:165-353, steps 3 to 10.
    Each step is a specification function over the previous step's result, and a method
    that computes that step with the source's loops and is proved equal to it. */
module Aras {
  import opened Types
  import opened Fuzzy
  import Constants
  import Reshape

  /** Exactly `rows` rows of exactly `cols` cells. */
  predicate Shaped<T>(m: seq<seq<T>>, rows: nat, cols: nat) {
    |m| == rows && forall i :: 0 <= i < rows ==> |m[i]| == cols
  }

  /** Every cell `[k][j]` with `k < numExperts` and `j < numCriteria` exists. */
  predicate Covers2<T>(m: seq<seq<T>>, numExperts: nat, numCriteria: nat) {
    numCriteria == 0 ||
    (numExperts <= |m| && forall k :: 0 <= k < numExperts ==> numCriteria <= |m[k]|)
  }

  /** Every cell `[k][i][j]` with `k < numExperts`, `i < numAlternatives` and
      `j < numCriteria` exists. */
  predicate Covers3<T>(m: seq<seq<seq<T>>>, numExperts: nat, numAlternatives: nat,
                       numCriteria: nat) {
    numAlternatives == 0 || numCriteria == 0 ||
    (numExperts <= |m| &&
     forall k :: 0 <= k < numExperts ==>
       numAlternatives <= |m[k]| &&
       forall i :: 0 <= i < numAlternatives ==> numCriteria <= |m[k][i]|)
  }

  // ---------------------------------------------------------------------------------
  // Step 3: term codes to triangular numbers

  /** `step3_criteriaTri`: the input's shape, each code looked up in the criteria map. */
  function CriteriaTri(inputs: seq<seq<string>>): (r: seq<seq<Triangular>>)
    ensures |r| == |inputs|
    ensures forall k :: 0 <= k < |inputs| ==> |r[k]| == |inputs[k]|
    ensures forall k, j :: 0 <= k < |inputs| && 0 <= j < |inputs[k]| ==>
      r[k][j] == Constants.ResolveCriteria(inputs[k][j])
  {
    seq(|inputs|, k requires 0 <= k < |inputs| =>
      seq(|inputs[k]|, j requires 0 <= j < |inputs[k]| => Constants.ResolveCriteria(inputs[k][j])))
  }

  /** `step3_alternativeTri`: the input's shape, each code looked up in the alternative map. */
  function AlternativeTri(inputs: seq<seq<seq<string>>>): (r: seq<seq<seq<Triangular>>>)
    ensures |r| == |inputs|
    ensures forall k :: 0 <= k < |inputs| ==> |r[k]| == |inputs[k]|
    ensures forall k, i :: 0 <= k < |inputs| && 0 <= i < |inputs[k]| ==>
      |r[k][i]| == |inputs[k][i]|
    ensures forall k, i, j :: 0 <= k < |inputs| && 0 <= i < |inputs[k]| && 0 <= j < |inputs[k][i]| ==>
      r[k][i][j] == Constants.ResolveAlternative(inputs[k][i][j])
  {
    seq(|inputs|, k requires 0 <= k < |inputs| =>
      seq(|inputs[k]|, i requires 0 <= i < |inputs[k]| =>
        seq(|inputs[k][i]|, j requires 0 <= j < |inputs[k][i]| =>
          Constants.ResolveAlternative(inputs[k][i][j]))))
  }

  // ---------------------------------------------------------------------------------
  // Step 4: aggregating the experts

  /** The experts' triangular numbers for criterion `j`, in expert order. */
  function CriterionTerms(tri: seq<seq<Triangular>>, numExperts: nat, numCriteria: nat, j: nat)
    : (r: seq<Triangular>)
    requires Covers2(tri, numExperts, numCriteria) && j < numCriteria
    ensures |r| == numExperts
  {
    seq(numExperts, k requires 0 <= k < numExperts => tri[k][j])
  }

  /** `step4_criteriaFuzzy`: one aggregate per criterion (the criteria weights). */
  function CriteriaFuzzy(root: Root, tri: seq<seq<Triangular>>, numExperts: nat, numCriteria: nat)
    : (r: seq<Fuzzy5>)
    requires Covers2(tri, numExperts, numCriteria)
    ensures |r| == numCriteria
  {
    seq(numCriteria, j requires 0 <= j < numCriteria =>
      CalculateFuzzy5(root, CriterionTerms(tri, numExperts, numCriteria, j)))
  }

  /** The experts' triangular numbers for alternative `i` on criterion `j`. */
  function CellTerms(tri: seq<seq<seq<Triangular>>>, numExperts: nat, numAlternatives: nat,
                     numCriteria: nat, i: nat, j: nat): (r: seq<Triangular>)
    requires Covers3(tri, numExperts, numAlternatives, numCriteria)
    requires i < numAlternatives && j < numCriteria
    ensures |r| == numExperts
  {
    seq(numExperts, k requires 0 <= k < numExperts => tri[k][i][j])
  }

  /** `step4_alternativeFuzzy`: one aggregate per alternative and criterion. */
  function AlternativeFuzzy(root: Root, tri: seq<seq<seq<Triangular>>>, numExperts: nat,
                            numAlternatives: nat, numCriteria: nat): (r: seq<seq<Fuzzy5>>)
    requires Covers3(tri, numExperts, numAlternatives, numCriteria)
    ensures Shaped(r, numAlternatives, numCriteria)
  {
    seq(numAlternatives, i requires 0 <= i < numAlternatives =>
      seq(numCriteria, j requires 0 <= j < numCriteria =>
        CalculateFuzzy5(root, CellTerms(tri, numExperts, numAlternatives, numCriteria, i, j))))
  }

  /** Builds `step4_criteriaFuzzy` by pushing one aggregate per criterion. */
  method AggregateCriteria(root: Root, tri: seq<seq<Triangular>>, numExperts: nat,
                           numCriteria: nat) returns (w: seq<Fuzzy5>)
    requires Covers2(tri, numExperts, numCriteria)
    ensures w == CriteriaFuzzy(root, tri, numExperts, numCriteria)
  {
    ghost var spec := CriteriaFuzzy(root, tri, numExperts, numCriteria);
    w := [];
    for j := 0 to numCriteria
      invariant w == spec[..j]
    {
      var termsForCriteria: seq<Triangular> := [];
      for k := 0 to numExperts
        invariant |termsForCriteria| == k
        invariant forall q :: 0 <= q < k ==> termsForCriteria[q] == tri[q][j]
      {
        termsForCriteria := termsForCriteria + [tri[k][j]];
      }
      assert termsForCriteria == CriterionTerms(tri, numExperts, numCriteria, j);
      w := w + [CalculateFuzzy5(root, termsForCriteria)];
    }
  }

  /** Fills `step4_alternativeFuzzy` cell by cell, starting from a zero matrix. */
  method AggregateAlternatives(root: Root, tri: seq<seq<seq<Triangular>>>, numExperts: nat,
                               numAlternatives: nat, numCriteria: nat)
    returns (alt: seq<seq<Fuzzy5>>)
    requires Covers3(tri, numExperts, numAlternatives, numCriteria)
    ensures alt == AlternativeFuzzy(root, tri, numExperts, numAlternatives, numCriteria)
  {
    ghost var spec := AlternativeFuzzy(root, tri, numExperts, numAlternatives, numCriteria);
    alt := Reshape.Create2DArray(numAlternatives, numCriteria, Zero5);
    for i := 0 to numAlternatives
      invariant Shaped(alt, numAlternatives, numCriteria)
      invariant forall a, b :: 0 <= a < numAlternatives && 0 <= b < numCriteria ==>
        alt[a][b] == if a < i then spec[a][b] else Zero5
    {
      for j := 0 to numCriteria
        invariant Shaped(alt, numAlternatives, numCriteria)
        invariant forall a, b :: 0 <= a < numAlternatives && 0 <= b < numCriteria ==>
          alt[a][b] == if a < i || (a == i && b < j) then spec[a][b] else Zero5
      {
        var termsForAlt: seq<Triangular> := [];
        for k := 0 to numExperts
          invariant |termsForAlt| == k
          invariant forall q :: 0 <= q < k ==> termsForAlt[q] == tri[q][i][j]
        {
          termsForAlt := termsForAlt + [tri[k][i][j]];
        }
        assert termsForAlt == CellTerms(tri, numExperts, numAlternatives, numCriteria, i, j);
        alt := alt[i := alt[i][j := CalculateFuzzy5(root, termsForAlt)]];
      }
    }
    forall a | 0 <= a < numAlternatives ensures alt[a] == spec[a] {
    }
  }

  // ---------------------------------------------------------------------------------
  // Step 5: the optimal row

  /** The accumulator `max*` of step 5 for component `c` of criterion `j` after the
      first `n` alternatives: `-Infinity`, raised by every strictly larger value. */
  function MaxUpTo(alt: seq<seq<Fuzzy5>>, j: nat, c: Component, n: nat): ExtReal
    requires n <= |alt| && forall i :: 0 <= i < |alt| ==> j < |alt[i]|
  {
    if n == 0 then NegInfinity
    else
      var b := MaxUpTo(alt, j, c, n - 1);
      var x := Get(alt[n - 1][j], c);
      if Exceeds(x, b) then Finite(x) else b
  }

  /** The accumulator stays `-Infinity` only while nothing has been scanned; after that it
      is the largest value scanned, and one of them. */
  lemma {:induction false} MaxUpToIsMax(alt: seq<seq<Fuzzy5>>, j: nat, c: Component, n: nat)
    requires n <= |alt| && forall i :: 0 <= i < |alt| ==> j < |alt[i]|
    ensures n == 0 <==> MaxUpTo(alt, j, c, n).NegInfinity?
    ensures MaxUpTo(alt, j, c, n).Finite? ==>
      forall i :: 0 <= i < n ==> Get(alt[i][j], c) <= MaxUpTo(alt, j, c, n).value
    ensures MaxUpTo(alt, j, c, n).Finite? ==>
      exists i :: 0 <= i < n && MaxUpTo(alt, j, c, n).value == Get(alt[i][j], c)
  {
    if n > 0 {
      MaxUpToIsMax(alt, j, c, n - 1);
    }
  }

  /** `Math.max(0, b)`: never negative, no smaller than a finite `b`, and equal to a
      non-negative one. */
  function MaxWithZero(b: ExtReal): (r: real)
    ensures 0.0 <= r
    ensures b.Finite? ==> b.value <= r
    ensures b.Finite? && 0.0 <= b.value ==> r == b.value
    ensures b.NegInfinity? ==> r == 0.0
  {
    match b
    case NegInfinity => 0.0
    case Finite(v) => if v > 0.0 then v else 0.0
  }

  /** One component of the optimal row: `Math.max(0, max*)`. */
  function OptimalComponent(alt: seq<seq<Fuzzy5>>, j: nat, c: Component): real
    requires forall i :: 0 <= i < |alt| ==> j < |alt[i]|
  {
    MaxWithZero(MaxUpTo(alt, j, c, |alt|))
  }

  /** A component of the optimal row is zero or larger, no smaller than that component of
      any alternative, and either zero or attained by an alternative. */
  lemma OptimalComponentBounds(alt: seq<seq<Fuzzy5>>, j: nat, c: Component)
    requires forall i :: 0 <= i < |alt| ==> j < |alt[i]|
    ensures 0.0 <= OptimalComponent(alt, j, c)
    ensures forall i :: 0 <= i < |alt| ==> Get(alt[i][j], c) <= OptimalComponent(alt, j, c)
    ensures OptimalComponent(alt, j, c) == 0.0 ||
      exists i :: 0 <= i < |alt| && OptimalComponent(alt, j, c) == Get(alt[i][j], c)
  {
    MaxUpToIsMax(alt, j, c, |alt|);
  }

  /** With at least one alternative and no negative components, the clamp at zero changes
      nothing: the component is the maximum over the alternatives, attained by one. */
  lemma OptimalIsAttainedMax(alt: seq<seq<Fuzzy5>>, j: nat, c: Component)
    requires forall i :: 0 <= i < |alt| ==> j < |alt[i]|
    requires |alt| > 0 && forall i :: 0 <= i < |alt| ==> 0.0 <= Get(alt[i][j], c)
    ensures forall i :: 0 <= i < |alt| ==> Get(alt[i][j], c) <= OptimalComponent(alt, j, c)
    ensures exists i :: 0 <= i < |alt| && OptimalComponent(alt, j, c) == Get(alt[i][j], c)
  {
    OptimalComponentBounds(alt, j, c);
    if OptimalComponent(alt, j, c) == 0.0 {
      assert Get(alt[0][j], c) == 0.0;
    }
  }

  /** `step5_optimalValues`: per criterion, each component reduced separately. */
  function OptimalValues(alt: seq<seq<Fuzzy5>>, numAlternatives: nat, numCriteria: nat)
    : (r: seq<Fuzzy5>)
    requires Shaped(alt, numAlternatives, numCriteria)
    ensures |r| == numCriteria
  {
    seq(numCriteria, j requires 0 <= j < numCriteria =>
      Fuzzy5(OptimalComponent(alt, j, L), OptimalComponent(alt, j, LP),
             OptimalComponent(alt, j, M), OptimalComponent(alt, j, UP),
             OptimalComponent(alt, j, U)))
  }

  /** Builds `step5_optimalValues` with five running maxima per criterion. */
  method SelectOptimal(alt: seq<seq<Fuzzy5>>, numAlternatives: nat, numCriteria: nat)
    returns (opt: seq<Fuzzy5>)
    requires Shaped(alt, numAlternatives, numCriteria)
    ensures opt == OptimalValues(alt, numAlternatives, numCriteria)
  {
    ghost var spec := OptimalValues(alt, numAlternatives, numCriteria);
    opt := [];
    for j := 0 to numCriteria
      invariant opt == spec[..j]
    {
      var maxL, maxLp, maxM, maxUp, maxU := NegInfinity, NegInfinity, NegInfinity,
                                            NegInfinity, NegInfinity;
      for i := 0 to numAlternatives
        invariant maxL == MaxUpTo(alt, j, L, i) && maxLp == MaxUpTo(alt, j, LP, i)
        invariant maxM == MaxUpTo(alt, j, M, i) && maxUp == MaxUpTo(alt, j, UP, i)
        invariant maxU == MaxUpTo(alt, j, U, i)
      {
        var f := alt[i][j];
        if Exceeds(f.l, maxL) { maxL := Finite(f.l); }
        if Exceeds(f.lp, maxLp) { maxLp := Finite(f.lp); }
        if Exceeds(f.m, maxM) { maxM := Finite(f.m); }
        if Exceeds(f.up, maxUp) { maxUp := Finite(f.up); }
        if Exceeds(f.u, maxU) { maxU := Finite(f.u); }
      }
      var optimal := Fuzzy5(MaxWithZero(maxL), MaxWithZero(maxLp), MaxWithZero(maxM),
                            MaxWithZero(maxUp), MaxWithZero(maxU));
      assert optimal == spec[j];
      opt := opt + [optimal];
    }
  }

  // ---------------------------------------------------------------------------------
  // Step 6: normalisation

  /** `combinedAltsFuzzy`: the optimal row followed by the alternatives. */
  function Combined(opt: seq<Fuzzy5>, alt: seq<seq<Fuzzy5>>): (r: seq<seq<Fuzzy5>>)
    ensures |r| == |alt| + 1 && r[0] == opt
    ensures forall i :: 0 <= i < |alt| ==> r[i + 1] == alt[i]
  {
    [opt] + alt
  }

  /** `cj_plus` after adding the `u` of the first `n` rows in column `j`. */
  function ColumnUSum(rows: seq<seq<Fuzzy5>>, j: nat, n: nat): real
    requires n <= |rows| && forall i :: 0 <= i < |rows| ==> j < |rows[i]|
  {
    if n == 0 then 0.0 else ColumnUSum(rows, j, n - 1) + rows[n - 1][j].u
  }

  /** The normalisation denominator of column `j`: the sum of `u` over all rows. */
  function CPlus(rows: seq<seq<Fuzzy5>>, j: nat): real
    requires forall i :: 0 <= i < |rows| ==> j < |rows[i]|
  {
    ColumnUSum(rows, j, |rows|)
  }

  /** Every component divided by `d`. */
  function Scale(f: Fuzzy5, d: real): Fuzzy5
    requires d != 0.0
  {
    Fuzzy5(f.l / d, f.lp / d, f.m / d, f.up / d, f.u / d)
  }

  /** `step6_normalized`: each cell divided by its column's `cj_plus`; a column whose
      `cj_plus` is zero stays all zero. */
  function Normalized(rows: seq<seq<Fuzzy5>>, numCriteria: nat): (r: seq<seq<Fuzzy5>>)
    requires Shaped(rows, |rows|, numCriteria)
    ensures Shaped(r, |rows|, numCriteria)
  {
    seq(|rows|, i requires 0 <= i < |rows| =>
      seq(numCriteria, j requires 0 <= j < numCriteria =>
        var d := CPlus(rows, j);
        if d == 0.0 then Zero5 else Scale(rows[i][j], d)))
  }

  /** Fills `step6_normalized` column by column from a zero matrix, skipping a column
      whose `cj_plus` is zero. */
  method Normalize(rows: seq<seq<Fuzzy5>>, numCriteria: nat) returns (norm: seq<seq<Fuzzy5>>)
    requires Shaped(rows, |rows|, numCriteria)
    ensures norm == Normalized(rows, numCriteria)
  {
    ghost var spec := Normalized(rows, numCriteria);
    var n := |rows|;
    norm := Reshape.Create2DArray(n, numCriteria, Zero5);
    for j := 0 to numCriteria
      invariant Shaped(norm, n, numCriteria)
      invariant forall a, b :: 0 <= a < n && 0 <= b < numCriteria ==>
        norm[a][b] == if b < j then spec[a][b] else Zero5
    {
      var cjPlus := 0.0;
      for i := 0 to n
        invariant cjPlus == ColumnUSum(rows, j, i)
      {
        cjPlus := cjPlus + rows[i][j].u;
      }
      if cjPlus == 0.0 {
        continue;
      }
      for i := 0 to n
        invariant Shaped(norm, n, numCriteria)
        invariant forall a, b :: 0 <= a < n && 0 <= b < numCriteria ==>
          norm[a][b] == if b < j || (b == j && a < i) then spec[a][b] else Zero5
      {
        var f := rows[i][j];
        norm := norm[i := norm[i][j := Fuzzy5(f.l / cjPlus, f.lp / cjPlus, f.m / cjPlus,
                                              f.up / cjPlus, f.u / cjPlus)]];
      }
    }
    forall a | 0 <= a < n ensures norm[a] == spec[a] {
    }
  }

  // ---------------------------------------------------------------------------------
  // Steps 7 to 9: weighting, row sums, defuzzification

  /** `step7_weighted`: every cell multiplied component-wise by its criterion's weight. */
  function Weighted(norm: seq<seq<Fuzzy5>>, w: seq<Fuzzy5>, numCriteria: nat)
    : (r: seq<seq<Fuzzy5>>)
    requires Shaped(norm, |norm|, numCriteria) && |w| == numCriteria
    ensures Shaped(r, |norm|, numCriteria)
  {
    seq(|norm|, i requires 0 <= i < |norm| =>
      seq(numCriteria, j requires 0 <= j < numCriteria => FuzzyMultiply(norm[i][j], w[j])))
  }

  /** Fills `step7_weighted` cell by cell from a zero matrix. */
  method Weigh(norm: seq<seq<Fuzzy5>>, w: seq<Fuzzy5>, numCriteria: nat)
    returns (weighted: seq<seq<Fuzzy5>>)
    requires Shaped(norm, |norm|, numCriteria) && |w| == numCriteria
    ensures weighted == Weighted(norm, w, numCriteria)
  {
    ghost var spec := Weighted(norm, w, numCriteria);
    var n := |norm|;
    weighted := Reshape.Create2DArray(n, numCriteria, Zero5);
    for i := 0 to n
      invariant Shaped(weighted, n, numCriteria)
      invariant forall a, b :: 0 <= a < n && 0 <= b < numCriteria ==>
        weighted[a][b] == if a < i then spec[a][b] else Zero5
    {
      for j := 0 to numCriteria
        invariant Shaped(weighted, n, numCriteria)
        invariant forall a, b :: 0 <= a < n && 0 <= b < numCriteria ==>
          weighted[a][b] == if a < i || (a == i && b < j) then spec[a][b] else Zero5
      {
        var rij := norm[i][j];
        var wj := w[j];
        weighted := weighted[i := weighted[i][j := FuzzyMultiply(rij, wj)]];
      }
    }
    forall a | 0 <= a < n ensures weighted[a] == spec[a] {
    }
  }

  /** `step8_overall`: the fuzzy sum of each row. */
  function Overall(weighted: seq<seq<Fuzzy5>>): (r: seq<Fuzzy5>)
    ensures |r| == |weighted|
  {
    seq(|weighted|, i requires 0 <= i < |weighted| => SumFuzzy(weighted[i]))
  }

  /** Builds `step8_overall` by pushing the `reduce` of each row. */
  method SumRows(weighted: seq<seq<Fuzzy5>>) returns (overall: seq<Fuzzy5>)
    ensures overall == Overall(weighted)
  {
    overall := [];
    for i := 0 to |weighted|
      invariant overall == Overall(weighted)[..i]
    {
      var row := weighted[i];
      overall := overall + [SumFuzzy(row)];
    }
  }

  /** `step9_defuzzified`: one scalar per row. */
  function Defuzzified(overall: seq<Fuzzy5>): (r: seq<real>)
    ensures |r| == |overall|
    ensures forall i :: 0 <= i < |overall| ==> r[i] == Defuzzify(overall[i])
  {
    seq(|overall|, i requires 0 <= i < |overall| => Defuzzify(overall[i]))
  }

  // ---------------------------------------------------------------------------------
  // Step 10: utilities and the best alternative

  /** The utility of row `i`: its scalar over the optimal row's, or zero unless the
      optimal scalar is positive. */
  function Utility(s: seq<real>, i: nat): real
    requires 0 < i < |s|
  {
    if s[0] > 0.0 then s[i] / s[0] else 0.0
  }

  /** `step10_utility`: one utility per alternative. */
  function Utilities(s: seq<real>): (r: seq<real>)
    requires |s| > 0
    ensures |r| == |s| - 1
    ensures forall i :: 0 <= i < |r| ==> r[i] == Utility(s, i + 1)
  {
    seq(|s| - 1, i requires 0 <= i < |s| - 1 => Utility(s, i + 1))
  }

  /** `bestAlternativeIndex` after scanning the first `n` utilities with a strict `>`:
      -1 for none, otherwise the lowest index attaining the maximum. */
  function BestUpTo(u: seq<real>, n: nat): (b: int)
    requires n <= |u|
    ensures b == -1 <==> n == 0
    ensures n > 0 ==> 0 <= b < n
    ensures n > 0 ==> forall k :: 0 <= k < n ==> u[k] <= u[b]
    ensures n > 0 ==> forall k :: 0 <= k < b ==> u[k] < u[b]
  {
    if n == 0 then -1
    else
      var b := BestUpTo(u, n - 1);
      if b == -1 || u[n - 1] > u[b] then n - 1 else b
  }

  function BestAlternative(u: seq<real>): int {
    BestUpTo(u, |u|)
  }

  /** The loop of step 10: pushes each utility and keeps the best one seen, from a
      `-Infinity` seed. */
  method Rank(s: seq<real>) returns (utility: seq<real>, best: int)
    requires |s| > 0
    ensures utility == Utilities(s)
    ensures best == BestAlternative(utility)
  {
    ghost var spec := Utilities(s);
    var optimalDefuzzified := s[0];
    utility := [];
    var bestUtility := NegInfinity;
    best := -1;
    for i := 1 to |s|
      invariant utility == spec[..i - 1]
      invariant best == BestUpTo(spec, i - 1)
      invariant bestUtility == if best == -1 then NegInfinity else Finite(spec[best])
    {
      var u := if optimalDefuzzified > 0.0 then s[i] / optimalDefuzzified else 0.0;
      utility := utility + [u];
      if Exceeds(u, bestUtility) {
        bestUtility := Finite(u);
        best := i - 1;
      }
    }
  }

  // ---------------------------------------------------------------------------------
  // The whole calculation

  lemma TriCovers(criteriaInputs: seq<seq<string>>, alternativeInputs: seq<seq<seq<string>>>,
                  numAlternatives: nat, numCriteria: nat, numExperts: nat)
    requires Covers2(criteriaInputs, numExperts, numCriteria)
    requires Covers3(alternativeInputs, numExperts, numAlternatives, numCriteria)
    ensures Covers2(CriteriaTri(criteriaInputs), numExperts, numCriteria)
    ensures Covers3(AlternativeTri(alternativeInputs), numExperts, numAlternatives, numCriteria)
  {
  }

  /** Steps 5 to 10 on the aggregated weights and ratings: optimal row, normalisation,
      weighting, sums, defuzzification and ranking. */
  function Evaluate(criteriaTri: seq<seq<Triangular>>, alternativeTri: seq<seq<seq<Triangular>>>,
                    criteriaFuzzy: seq<Fuzzy5>, alternativeFuzzy: seq<seq<Fuzzy5>>,
                    numAlternatives: nat, numCriteria: nat): CalculationResults
    requires |criteriaFuzzy| == numCriteria
    requires Shaped(alternativeFuzzy, numAlternatives, numCriteria)
  {
    var optimal := OptimalValues(alternativeFuzzy, numAlternatives, numCriteria);
    var normalized := Normalized(Combined(optimal, alternativeFuzzy), numCriteria);
    var weighted := Weighted(normalized, criteriaFuzzy, numCriteria);
    var overall := Overall(weighted);
    var defuzzified := Defuzzified(overall);
    var utility := Utilities(defuzzified);
    CalculationResults(criteriaTri, alternativeTri, criteriaFuzzy, alternativeFuzzy, optimal,
                       normalized, weighted, overall, defuzzified, utility,
                       BestAlternative(utility))
  }

  /** The results of one run, step by step, as the specification functions give them. */
  function Pipeline(root: Root, numAlternatives: nat, numCriteria: nat, numExperts: nat,
                    criteriaInputs: seq<seq<string>>, alternativeInputs: seq<seq<seq<string>>>)
    : CalculationResults
    requires Covers2(criteriaInputs, numExperts, numCriteria)
    requires Covers3(alternativeInputs, numExperts, numAlternatives, numCriteria)
  {
    TriCovers(criteriaInputs, alternativeInputs, numAlternatives, numCriteria, numExperts);
    var criteriaTri := CriteriaTri(criteriaInputs);
    var alternativeTri := AlternativeTri(alternativeInputs);
    Evaluate(criteriaTri, alternativeTri,
             CriteriaFuzzy(root, criteriaTri, numExperts, numCriteria),
             AlternativeFuzzy(root, alternativeTri, numExperts, numAlternatives, numCriteria),
             numAlternatives, numCriteria)
  }

  /** `calculate`. When an input lacks a cell the loops read, the source throws a
      `TypeError` that its `try`/`catch` swallows, so no results are produced: `None`.
      Every step before that point is pure, so checking for it first changes nothing. */
  method Calculate(root: Root, numAlternatives: nat, numCriteria: nat, numExperts: nat,
                   criteriaInputs: seq<seq<string>>, alternativeInputs: seq<seq<seq<string>>>)
    returns (res: Option<CalculationResults>)
    ensures res.None? <==>
      !(Covers2(criteriaInputs, numExperts, numCriteria) &&
        Covers3(alternativeInputs, numExperts, numAlternatives, numCriteria))
    ensures res.Some? ==>
      res.value == Pipeline(root, numAlternatives, numCriteria, numExperts,
                            criteriaInputs, alternativeInputs)
  {
    if !(Covers2(criteriaInputs, numExperts, numCriteria) &&
         Covers3(alternativeInputs, numExperts, numAlternatives, numCriteria)) {
      return None;
    }
    TriCovers(criteriaInputs, alternativeInputs, numAlternatives, numCriteria, numExperts);
    var criteriaTri := CriteriaTri(criteriaInputs);
    var alternativeTri := AlternativeTri(alternativeInputs);
    var criteriaFuzzy := AggregateCriteria(root, criteriaTri, numExperts, numCriteria);
    var alternativeFuzzy :=
      AggregateAlternatives(root, alternativeTri, numExperts, numAlternatives, numCriteria);
    var optimal := SelectOptimal(alternativeFuzzy, numAlternatives, numCriteria);
    var combined := [optimal] + alternativeFuzzy;
    var normalized := Normalize(combined, numCriteria);
    var weighted := Weigh(normalized, criteriaFuzzy, numCriteria);
    var overall := SumRows(weighted);
    var defuzzified := Defuzzified(overall);
    var utility, best := Rank(defuzzified);
    res := Some(CalculationResults(criteriaTri, alternativeTri, criteriaFuzzy, alternativeFuzzy,
                                   optimal, normalized, weighted, overall, defuzzified,
                                   utility, best));
  }
}
