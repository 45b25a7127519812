/** What the Fuzzy ARAS calculation of src/App.tsx:165-353 promises about its results:
    their shapes, the dominance of the optimal row, the zero guard of normalisation, the
    range of the utilities and the tie-break of the ranking. */
module ArasProperties {
  import opened Types
  import opened Fuzzy
  import opened Aras
  import Constants
  import Reshape

  // ---------------------------------------------------------------------------------
  // Shapes and step-by-step relations

  /** The matrices have `numAlternatives + 1` rows (row 0 the optimal row) and
      `numCriteria` columns; each later step is computed from the one before it; there is
      one utility per alternative, the alternative's scalar over the optimal scalar (zero
      when that is not positive); and the best index is -1 exactly when there are no
      alternatives. */
  lemma EvaluateShapes(criteriaTri: seq<seq<Triangular>>, alternativeTri: seq<seq<seq<Triangular>>>,
                       w: seq<Fuzzy5>, alt: seq<seq<Fuzzy5>>, numAlternatives: nat,
                       numCriteria: nat)
    requires |w| == numCriteria && Shaped(alt, numAlternatives, numCriteria)
    ensures var r := Evaluate(criteriaTri, alternativeTri, w, alt, numAlternatives, numCriteria);
      && |r.optimalValues| == numCriteria
      && Shaped(r.normalized, numAlternatives + 1, numCriteria)
      && Shaped(r.weighted, numAlternatives + 1, numCriteria)
      && (forall i, j :: 0 <= i <= numAlternatives && 0 <= j < numCriteria ==>
            r.weighted[i][j] == FuzzyMultiply(r.normalized[i][j], w[j]))
      && |r.overall| == numAlternatives + 1
      && (forall i :: 0 <= i <= numAlternatives ==> r.overall[i] == SumFuzzy(r.weighted[i]))
      && |r.defuzzified| == numAlternatives + 1
      && (forall i :: 0 <= i <= numAlternatives ==>
            r.defuzzified[i] == Defuzzify(r.overall[i]))
      && |r.utility| == numAlternatives
      && (forall i :: 0 <= i < numAlternatives ==>
            r.utility[i] == if r.defuzzified[0] > 0.0
                            then r.defuzzified[i + 1] / r.defuzzified[0] else 0.0)
      && (r.bestAlternativeIndex == -1 <==> numAlternatives == 0)
      && (numAlternatives > 0 ==> 0 <= r.bestAlternativeIndex < numAlternatives)
  {
    var r := Evaluate(criteriaTri, alternativeTri, w, alt, numAlternatives, numCriteria);
    forall i, j | 0 <= i <= numAlternatives && 0 <= j < numCriteria
      ensures r.weighted[i][j] == FuzzyMultiply(r.normalized[i][j], w[j])
    {
    }
  }

  /** Normalisation, column by column: with `d` the column's sum of `u` over the optimal
      row and all alternatives, a zero `d` leaves the whole column zero, and otherwise
      every cell is its combined-matrix cell divided by `d`; row 0 comes from the optimal
      row and row `i + 1` from alternative `i`. */
  lemma EvaluateNormalization(criteriaTri: seq<seq<Triangular>>,
                              alternativeTri: seq<seq<seq<Triangular>>>, w: seq<Fuzzy5>,
                              alt: seq<seq<Fuzzy5>>, numAlternatives: nat, numCriteria: nat,
                              j: nat)
    requires |w| == numCriteria && Shaped(alt, numAlternatives, numCriteria)
    requires j < numCriteria
    ensures var r := Evaluate(criteriaTri, alternativeTri, w, alt, numAlternatives, numCriteria);
      var rows := Combined(r.optimalValues, alt);
      && |r.optimalValues| == numCriteria
      && Shaped(r.normalized, numAlternatives + 1, numCriteria)
      && (CPlus(rows, j) == 0.0 ==>
            forall i :: 0 <= i <= numAlternatives ==> r.normalized[i][j] == Zero5)
      && (CPlus(rows, j) != 0.0 ==>
            forall i :: 0 <= i <= numAlternatives ==>
              r.normalized[i][j] == Scale(rows[i][j], CPlus(rows, j)))
  {
  }

  /** The best index is the lowest index attaining the maximum utility. */
  lemma EvaluateRanking(criteriaTri: seq<seq<Triangular>>, alternativeTri: seq<seq<seq<Triangular>>>,
                        w: seq<Fuzzy5>, alt: seq<seq<Fuzzy5>>, numAlternatives: nat,
                        numCriteria: nat)
    requires |w| == numCriteria && Shaped(alt, numAlternatives, numCriteria)
    requires numAlternatives > 0
    ensures var r := Evaluate(criteriaTri, alternativeTri, w, alt, numAlternatives, numCriteria);
      var b := r.bestAlternativeIndex;
      && |r.utility| == numAlternatives
      && 0 <= b < numAlternatives
      && (forall k :: 0 <= k < numAlternatives ==> r.utility[k] <= r.utility[b])
      && (forall k :: 0 <= k < b ==> r.utility[k] < r.utility[b])
  {
  }

  // ---------------------------------------------------------------------------------
  // The optimal row

  lemma LeByComponents(f: Fuzzy5, g: Fuzzy5)
    requires forall c :: Get(f, c) <= Get(g, c)
    ensures Le(f, g)
  {
    assert Get(f, L) <= Get(g, L) && Get(f, LP) <= Get(g, LP) && Get(f, M) <= Get(g, M);
    assert Get(f, UP) <= Get(g, UP) && Get(f, U) <= Get(g, U);
  }

  /** Every component of the optimal row is zero or larger and no smaller than the same
      component of any alternative on that criterion. */
  lemma OptimalDominates(alt: seq<seq<Fuzzy5>>, numAlternatives: nat, numCriteria: nat)
    requires Shaped(alt, numAlternatives, numCriteria)
    ensures forall j :: 0 <= j < numCriteria ==>
      NonNeg(OptimalValues(alt, numAlternatives, numCriteria)[j])
    ensures forall i, j :: 0 <= i < numAlternatives && 0 <= j < numCriteria ==>
      Le(alt[i][j], OptimalValues(alt, numAlternatives, numCriteria)[j])
  {
    var opt := OptimalValues(alt, numAlternatives, numCriteria);
    forall j, c | 0 <= j < numCriteria
      ensures 0.0 <= Get(opt[j], c)
      ensures forall i :: 0 <= i < numAlternatives ==> Get(alt[i][j], c) <= Get(opt[j], c)
    {
      OptimalComponentBounds(alt, j, c);
      assert Get(opt[j], c) == OptimalComponent(alt, j, c);
    }
    forall j | 0 <= j < numCriteria ensures NonNeg(opt[j]) {
      LeByComponents(Zero5, opt[j]);
    }
    forall i, j | 0 <= i < numAlternatives && 0 <= j < numCriteria
      ensures Le(alt[i][j], opt[j])
    {
      LeByComponents(alt[i][j], opt[j]);
    }
  }

  // ---------------------------------------------------------------------------------
  // Utilities lie in [0, 1]

  /** Cell `[i][j]` is non-negative and no larger, component-wise, than cell `[0][j]`. */
  predicate CellDominated(rows: seq<seq<Fuzzy5>>, i: nat, j: nat) {
    && i < |rows| && j < |rows[i]| && j < |rows[0]|
    && NonNeg(rows[i][j]) && Le(rows[i][j], rows[0][j])
  }

  /** Every cell is dominated by row 0's cell in the same column. */
  predicate RowZeroDominates(rows: seq<seq<Fuzzy5>>, numCriteria: nat) {
    && |rows| > 0
    && Shaped(rows, |rows|, numCriteria)
    && forall i: nat, j: nat :: i < |rows| && j < numCriteria ==> CellDominated(rows, i, j)
  }

  lemma CombinedDominates(alt: seq<seq<Fuzzy5>>, numAlternatives: nat, numCriteria: nat)
    requires Shaped(alt, numAlternatives, numCriteria)
    requires forall i, j :: 0 <= i < numAlternatives && 0 <= j < numCriteria ==> NonNeg(alt[i][j])
    ensures RowZeroDominates(Combined(OptimalValues(alt, numAlternatives, numCriteria), alt),
                             numCriteria)
  {
    OptimalDominates(alt, numAlternatives, numCriteria);
    var rows := Combined(OptimalValues(alt, numAlternatives, numCriteria), alt);
    forall i, j | 0 <= i < |rows| && 0 <= j < numCriteria
      ensures CellDominated(rows, i, j)
    {
      if i > 0 {
        assert rows[i] == alt[i - 1];
      }
    }
  }

  lemma {:induction false} ColumnUSumNonNeg(rows: seq<seq<Fuzzy5>>, j: nat, n: nat)
    requires n <= |rows| && forall i :: 0 <= i < |rows| ==> j < |rows[i]|
    requires forall i :: 0 <= i < |rows| ==> 0.0 <= rows[i][j].u
    ensures 0.0 <= ColumnUSum(rows, j, n)
  {
    if n > 0 {
      ColumnUSumNonNeg(rows, j, n - 1);
    }
  }

  lemma DivMonotone(x: real, y: real, d: real)
    requires 0.0 <= x <= y && 0.0 < d
    ensures 0.0 <= x / d <= y / d
  {
    assert y / d - x / d == (y - x) / d;
  }

  lemma ScaleMonotone(f: Fuzzy5, g: Fuzzy5, d: real)
    requires NonNeg(f) && Le(f, g) && 0.0 < d
    ensures NonNeg(Scale(f, d)) && Le(Scale(f, d), Scale(g, d))
  {
    DivMonotone(f.l, g.l, d);
    DivMonotone(f.lp, g.lp, d);
    DivMonotone(f.m, g.m, d);
    DivMonotone(f.up, g.up, d);
    DivMonotone(f.u, g.u, d);
  }

  lemma NormalizedCellDominated(rows: seq<seq<Fuzzy5>>, numCriteria: nat, i: nat, j: nat)
    requires RowZeroDominates(rows, numCriteria)
    requires i < |rows| && j < numCriteria
    ensures CellDominated(Normalized(rows, numCriteria), i, j)
  {
    var norm := Normalized(rows, numCriteria);
    forall k | 0 <= k < |rows| ensures 0.0 <= rows[k][j].u {
      assert CellDominated(rows, k, j);
    }
    ColumnUSumNonNeg(rows, j, |rows|);
    assert CellDominated(rows, i, j);
    var d := CPlus(rows, j);
    if d == 0.0 {
      assert norm[i][j] == Zero5 && norm[0][j] == Zero5;
    } else {
      assert norm[i][j] == Scale(rows[i][j], d) && norm[0][j] == Scale(rows[0][j], d);
      ScaleMonotone(rows[i][j], rows[0][j], d);
    }
  }

  lemma NormalizePreservesDominance(rows: seq<seq<Fuzzy5>>, numCriteria: nat)
    requires RowZeroDominates(rows, numCriteria)
    ensures RowZeroDominates(Normalized(rows, numCriteria), numCriteria)
  {
    var norm := Normalized(rows, numCriteria);
    forall i, j | 0 <= i < |norm| && 0 <= j < numCriteria
      ensures CellDominated(norm, i, j)
    {
      NormalizedCellDominated(rows, numCriteria, i, j);
    }
  }

  lemma WeightedCellDominated(norm: seq<seq<Fuzzy5>>, w: seq<Fuzzy5>, numCriteria: nat,
                              i: nat, j: nat)
    requires RowZeroDominates(norm, numCriteria) && |w| == numCriteria
    requires forall j :: 0 <= j < numCriteria ==> NonNeg(w[j])
    requires i < |norm| && j < numCriteria
    ensures CellDominated(Weighted(norm, w, numCriteria), i, j)
  {
    var weighted := Weighted(norm, w, numCriteria);
    assert CellDominated(norm, i, j);
    assert weighted[i][j] == FuzzyMultiply(norm[i][j], w[j]);
    assert weighted[0][j] == FuzzyMultiply(norm[0][j], w[j]);
    FuzzyMultiplyMonotone(norm[i][j], norm[0][j], w[j]);
  }

  lemma WeighPreservesDominance(norm: seq<seq<Fuzzy5>>, w: seq<Fuzzy5>, numCriteria: nat)
    requires RowZeroDominates(norm, numCriteria) && |w| == numCriteria
    requires forall j :: 0 <= j < numCriteria ==> NonNeg(w[j])
    ensures RowZeroDominates(Weighted(norm, w, numCriteria), numCriteria)
  {
    var weighted := Weighted(norm, w, numCriteria);
    forall i, j | 0 <= i < |weighted| && 0 <= j < numCriteria
      ensures CellDominated(weighted, i, j)
    {
      WeightedCellDominated(norm, w, numCriteria, i, j);
    }
  }

  lemma OverallDominated(weighted: seq<seq<Fuzzy5>>, numCriteria: nat)
    requires RowZeroDominates(weighted, numCriteria)
    ensures forall i :: 0 <= i < |weighted| ==>
      NonNeg(Overall(weighted)[i]) && Le(Overall(weighted)[i], Overall(weighted)[0])
  {
    forall i | 0 <= i < |weighted|
      ensures NonNeg(Overall(weighted)[i]) && Le(Overall(weighted)[i], Overall(weighted)[0])
    {
      forall k | 0 <= k < numCriteria
        ensures NonNeg(weighted[i][k]) && Le(weighted[i][k], weighted[0][k])
      {
        assert CellDominated(weighted, i, k);
      }
      SumFuzzyMonotone(weighted[i], weighted[0]);
    }
  }

  lemma UtilitiesBounded(s: seq<real>)
    requires |s| > 0
    requires forall i :: 0 <= i < |s| ==> 0.0 <= s[i] <= s[0]
    ensures forall i :: 0 <= i < |s| - 1 ==> 0.0 <= Utilities(s)[i] <= 1.0
  {
    forall i | 0 <= i < |s| - 1 ensures 0.0 <= Utilities(s)[i] <= 1.0 {
      if s[0] > 0.0 {
        DivMonotone(s[i + 1], s[0], s[0]);
      }
    }
  }

  /** Non-negative triangular inputs give non-negative criteria weights. */
  lemma CriteriaFuzzyNonNeg(root: Root, tri: seq<seq<Triangular>>, numExperts: nat,
                            numCriteria: nat)
    requires RootPositive(root)
    requires Covers2(tri, numExperts, numCriteria)
    requires forall k, j :: 0 <= k < numExperts && 0 <= j < numCriteria ==> TriNonNeg(tri[k][j])
    ensures forall j :: 0 <= j < numCriteria ==>
      NonNeg(CriteriaFuzzy(root, tri, numExperts, numCriteria)[j])
  {
    forall j | 0 <= j < numCriteria
      ensures NonNeg(CriteriaFuzzy(root, tri, numExperts, numCriteria)[j])
    {
      Fuzzy5NonNeg(root, CriterionTerms(tri, numExperts, numCriteria, j));
    }
  }

  /** Non-negative triangular inputs give non-negative alternative aggregates. */
  lemma AlternativeFuzzyNonNeg(root: Root, tri: seq<seq<seq<Triangular>>>, numExperts: nat,
                               numAlternatives: nat, numCriteria: nat)
    requires RootPositive(root)
    requires Covers3(tri, numExperts, numAlternatives, numCriteria)
    requires forall k, i, j ::
      0 <= k < numExperts && 0 <= i < numAlternatives && 0 <= j < numCriteria ==>
        TriNonNeg(tri[k][i][j])
    ensures forall i, j :: 0 <= i < numAlternatives && 0 <= j < numCriteria ==>
      NonNeg(AlternativeFuzzy(root, tri, numExperts, numAlternatives, numCriteria)[i][j])
  {
    forall i, j | 0 <= i < numAlternatives && 0 <= j < numCriteria
      ensures NonNeg(AlternativeFuzzy(root, tri, numExperts, numAlternatives, numCriteria)[i][j])
    {
      Fuzzy5NonNeg(root, CellTerms(tri, numExperts, numAlternatives, numCriteria, i, j));
    }
  }

  /** Non-negative weights and ratings give utilities in [0, 1]: the optimal row dominates
      every alternative component-wise, and normalising by a non-negative column sum,
      weighting by non-negative weights, summing and defuzzifying all keep that order. */
  lemma EvaluateUtilitiesInUnitRange(criteriaTri: seq<seq<Triangular>>,
                                     alternativeTri: seq<seq<seq<Triangular>>>,
                                     w: seq<Fuzzy5>, alt: seq<seq<Fuzzy5>>,
                                     numAlternatives: nat, numCriteria: nat)
    requires |w| == numCriteria && Shaped(alt, numAlternatives, numCriteria)
    requires forall j :: 0 <= j < numCriteria ==> NonNeg(w[j])
    requires forall i, j :: 0 <= i < numAlternatives && 0 <= j < numCriteria ==> NonNeg(alt[i][j])
    ensures var r := Evaluate(criteriaTri, alternativeTri, w, alt, numAlternatives, numCriteria);
      forall i :: 0 <= i < |r.utility| ==> 0.0 <= r.utility[i] <= 1.0
  {
    var rows := Combined(OptimalValues(alt, numAlternatives, numCriteria), alt);
    CombinedDominates(alt, numAlternatives, numCriteria);
    var norm := Normalized(rows, numCriteria);
    NormalizePreservesDominance(rows, numCriteria);
    var weighted := Weighted(norm, w, numCriteria);
    WeighPreservesDominance(norm, w, numCriteria);
    var overall := Overall(weighted);
    OverallDominated(weighted, numCriteria);
    var s := Defuzzified(overall);
    forall i | 0 <= i < |s| ensures 0.0 <= s[i] <= s[0] {
      DefuzzifyMonotone(Zero5, overall[i]);
      DefuzzifyMonotone(overall[i], overall[0]);
    }
    UtilitiesBounded(s);
  }

  /** With the built-in vocabularies every resolved triple is non-negative, so every
      utility of a run lies in [0, 1]. */
  lemma UtilitiesInUnitRange(root: Root, numAlternatives: nat, numCriteria: nat,
                             numExperts: nat, criteriaInputs: seq<seq<string>>,
                             alternativeInputs: seq<seq<seq<string>>>)
    requires RootPositive(root)
    requires Covers2(criteriaInputs, numExperts, numCriteria)
    requires Covers3(alternativeInputs, numExperts, numAlternatives, numCriteria)
    ensures var r := Pipeline(root, numAlternatives, numCriteria, numExperts,
                              criteriaInputs, alternativeInputs);
      forall i :: 0 <= i < |r.utility| ==> 0.0 <= r.utility[i] <= 1.0
  {
    TriCovers(criteriaInputs, alternativeInputs, numAlternatives, numCriteria, numExperts);
    var criteriaTri := CriteriaTri(criteriaInputs);
    var alternativeTri := AlternativeTri(alternativeInputs);
    forall k, j | 0 <= k < numExperts && 0 <= j < numCriteria
      ensures TriNonNeg(criteriaTri[k][j])
    {
      Constants.ResolvedInUnitRange(criteriaInputs[k][j]);
    }
    forall k, i, j | 0 <= k < numExperts && 0 <= i < numAlternatives && 0 <= j < numCriteria
      ensures TriNonNeg(alternativeTri[k][i][j])
    {
      Constants.ResolvedInUnitRange(alternativeInputs[k][i][j]);
    }
    var w := CriteriaFuzzy(root, criteriaTri, numExperts, numCriteria);
    var alt := AlternativeFuzzy(root, alternativeTri, numExperts, numAlternatives, numCriteria);
    CriteriaFuzzyNonNeg(root, criteriaTri, numExperts, numCriteria);
    AlternativeFuzzyNonNeg(root, alternativeTri, numExperts, numAlternatives, numCriteria);
    EvaluateUtilitiesInUnitRange(criteriaTri, alternativeTri, w, alt, numAlternatives, numCriteria);
  }

  // ---------------------------------------------------------------------------------
  // Equal rows, equal utilities

  /** Two equal rows of the combined matrix end with equal scalars. */
  lemma EqualRowsEqualScalars(rows: seq<seq<Fuzzy5>>, w: seq<Fuzzy5>, numCriteria: nat,
                              a: nat, b: nat)
    requires Shaped(rows, |rows|, numCriteria) && |w| == numCriteria
    requires a < |rows| && b < |rows| && rows[a] == rows[b]
    ensures var s := Defuzzified(Overall(Weighted(Normalized(rows, numCriteria), w, numCriteria)));
      s[a] == s[b]
  {
    var norm := Normalized(rows, numCriteria);
    assert norm[a] == norm[b];
    var weighted := Weighted(norm, w, numCriteria);
    assert weighted[a] == weighted[b];
  }

  /** Two alternatives with equal aggregates get equal utilities, and the later one is
      never the best: ties go to the lower index. */
  lemma EvaluateTie(criteriaTri: seq<seq<Triangular>>, alternativeTri: seq<seq<seq<Triangular>>>,
                    w: seq<Fuzzy5>, alt: seq<seq<Fuzzy5>>, numAlternatives: nat,
                    numCriteria: nat, p: nat, q: nat)
    requires |w| == numCriteria && Shaped(alt, numAlternatives, numCriteria)
    requires p < q < numAlternatives && alt[p] == alt[q]
    ensures var r := Evaluate(criteriaTri, alternativeTri, w, alt, numAlternatives, numCriteria);
      |r.utility| == numAlternatives &&
      r.utility[p] == r.utility[q] && r.bestAlternativeIndex != q
  {
    var rows := Combined(OptimalValues(alt, numAlternatives, numCriteria), alt);
    assert rows[p + 1] == rows[q + 1];
    EqualRowsEqualScalars(rows, w, numCriteria, p + 1, q + 1);
    var s := Defuzzified(Overall(Weighted(Normalized(rows, numCriteria), w, numCriteria)));
    var u := Utilities(s);
    assert u[p] == u[q] by {
      assert u[p] == Utility(s, p + 1) && u[q] == Utility(s, q + 1);
    }
    var b := BestAlternative(u);
    assert b != q;
  }

  /** Two alternatives judged identically by every expert get equal utilities, and the
      later one is never the best. */
  lemma IdenticalAlternativesTie(root: Root, numAlternatives: nat, numCriteria: nat,
                                 numExperts: nat, criteriaInputs: seq<seq<string>>,
                                 alternativeInputs: seq<seq<seq<string>>>, p: nat, q: nat)
    requires Covers2(criteriaInputs, numExperts, numCriteria)
    requires Covers3(alternativeInputs, numExperts, numAlternatives, numCriteria)
    requires p < q < numAlternatives
    requires forall k, j :: 0 <= k < numExperts && 0 <= j < numCriteria ==>
      alternativeInputs[k][p][j] == alternativeInputs[k][q][j]
    ensures var r := Pipeline(root, numAlternatives, numCriteria, numExperts,
                              criteriaInputs, alternativeInputs);
      |r.utility| == numAlternatives &&
      r.utility[p] == r.utility[q] && r.bestAlternativeIndex != q
  {
    TriCovers(criteriaInputs, alternativeInputs, numAlternatives, numCriteria, numExperts);
    var criteriaTri := CriteriaTri(criteriaInputs);
    var alternativeTri := AlternativeTri(alternativeInputs);
    var alt := AlternativeFuzzy(root, alternativeTri, numExperts, numAlternatives, numCriteria);
    forall j | 0 <= j < numCriteria ensures alt[p][j] == alt[q][j] {
      assert CellTerms(alternativeTri, numExperts, numAlternatives, numCriteria, p, j)
          == CellTerms(alternativeTri, numExperts, numAlternatives, numCriteria, q, j);
    }
    assert alt[p] == alt[q];
    var w := CriteriaFuzzy(root, criteriaTri, numExperts, numCriteria);
    EvaluateTie(criteriaTri, alternativeTri, w, alt, numAlternatives, numCriteria, p, q);
  }

  lemma TopRowUtilityOne(rows: seq<seq<Fuzzy5>>, w: seq<Fuzzy5>, numCriteria: nat, a: nat)
    requires Shaped(rows, |rows|, numCriteria) && |w| == numCriteria
    requires 0 < a < |rows| && rows[a] == rows[0]
    ensures var s := Defuzzified(Overall(Weighted(Normalized(rows, numCriteria), w, numCriteria)));
      s[0] > 0.0 ==> Utilities(s)[a - 1] == 1.0
  {
    EqualRowsEqualScalars(rows, w, numCriteria, a, 0);
    var s := Defuzzified(Overall(Weighted(Normalized(rows, numCriteria), w, numCriteria)));
    if s[0] > 0.0 {
      assert Utilities(s)[a - 1] == s[a] / s[0];
    }
  }

  /** An alternative whose aggregate equals the optimal row has utility 1 whenever the
      optimal row's scalar is positive. */
  lemma OptimalAlternativeHasUtilityOne(criteriaTri: seq<seq<Triangular>>,
                                        alternativeTri: seq<seq<seq<Triangular>>>,
                                        w: seq<Fuzzy5>, alt: seq<seq<Fuzzy5>>,
                                        numAlternatives: nat, numCriteria: nat, p: nat)
    requires |w| == numCriteria && Shaped(alt, numAlternatives, numCriteria)
    requires p < numAlternatives
    requires alt[p] == OptimalValues(alt, numAlternatives, numCriteria)
    ensures var r := Evaluate(criteriaTri, alternativeTri, w, alt, numAlternatives, numCriteria);
      && |r.defuzzified| == numAlternatives + 1 && |r.utility| == numAlternatives
      && (r.defuzzified[0] > 0.0 ==> r.utility[p] == 1.0)
  {
    var rows := Combined(OptimalValues(alt, numAlternatives, numCriteria), alt);
    assert rows[p + 1] == rows[0];
    TopRowUtilityOne(rows, w, numCriteria, p + 1);
  }

  // ---------------------------------------------------------------------------------
  // Inputs kept by the resize effects

  /** Matrices produced by resizing to the current counts always hold every cell the
      calculation reads, so the calculation never fails on them. */
  lemma ResizedInputsCover(prevCriteria: seq<seq<string>>, prevAlternatives: seq<seq<seq<string>>>,
                           numAlternatives: nat, numCriteria: nat, numExperts: nat)
    requires Reshape.Copyable2(prevCriteria, numExperts, numCriteria)
    requires Reshape.Copyable3(prevAlternatives, numExperts, numAlternatives, numCriteria)
    ensures Covers2(Reshape.Resized2(prevCriteria, numExperts, numCriteria, "M"),
                    numExperts, numCriteria)
    ensures Covers3(Reshape.Resized3(prevAlternatives, numExperts, numAlternatives, numCriteria, "G"),
                    numExperts, numAlternatives, numCriteria)
  {
  }
}
