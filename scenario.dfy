/** A worked run of the calculation: two experts, one criterion, two alternatives. Both
    experts rate the criterion "M" and rate alternative A "G" and alternative B "F", so
    A is the optimal row itself and wins with utility 1. */
module Scenario {
  import opened Types
  import opened Fuzzy
  import opened Aras
  import Constants

  const CriteriaInputs: seq<seq<string>> := [["M"], ["M"]]
  const AlternativeInputs: seq<seq<seq<string>>> := [[["G"], ["F"]], [["G"], ["F"]]]

  /** The aggregate of a unanimous "M" criterion weight. */
  const Weight: Fuzzy5 := Fuzzy5(0.3, 0.3, 0.5, 0.7, 0.7)
  /** The aggregate of a unanimous "G" rating. */
  const Good: Fuzzy5 := Fuzzy5(0.7, 0.7, 0.7, 1.0, 1.0)
  /** The aggregate of a unanimous "F" rating. */
  const Fair: Fuzzy5 := Fuzzy5(0.3, 0.3, 0.5, 0.7, 0.7)

  lemma ScenarioCodes()
    ensures Constants.ResolveCriteria("M") == Triangular(0.3, 0.5, 0.7)
    ensures Constants.ResolveAlternative("G") == Triangular(0.7, 0.7, 1.0)
    ensures Constants.ResolveAlternative("F") == Triangular(0.3, 0.5, 0.7)
  {
    Constants.DefaultCodes();
    Constants.TablesHaveUniqueShortNames();
    Constants.ResolveTerm(Constants.AlternativeTerms, 3);
  }

  lemma ScenarioCriteriaTriples()
    ensures Covers2(CriteriaInputs, 2, 1)
    ensures var t := CriteriaTri(CriteriaInputs);
      Covers2(t, 2, 1) && t[0][0] == t[1][0] == Triangular(0.3, 0.5, 0.7)
  {
    ScenarioCodes();
    var t := CriteriaTri(CriteriaInputs);
    assert CriteriaInputs[0][0] == CriteriaInputs[1][0] == "M";
    assert t[0][0] == Constants.ResolveCriteria(CriteriaInputs[0][0]);
    assert t[1][0] == Constants.ResolveCriteria(CriteriaInputs[1][0]);
  }

  lemma ScenarioCovers()
    ensures Covers2(CriteriaInputs, 2, 1) && Covers3(AlternativeInputs, 2, 2, 1)
  {
    forall k | 0 <= k < 2 ensures 2 <= |AlternativeInputs[k]| &&
      forall i :: 0 <= i < 2 ==> 1 <= |AlternativeInputs[k][i]|
    {
      assert AlternativeInputs[k] == [["G"], ["F"]];
    }
  }

  lemma ScenarioAlternativeTriples()
    ensures Covers3(AlternativeInputs, 2, 2, 1)
    ensures var t := AlternativeTri(AlternativeInputs);
      && Covers3(t, 2, 2, 1)
      && t[0][0][0] == t[1][0][0] == Triangular(0.7, 0.7, 1.0)
      && t[0][1][0] == t[1][1][0] == Triangular(0.3, 0.5, 0.7)
  {
    ScenarioCodes();
    ScenarioCovers();
    var t := AlternativeTri(AlternativeInputs);
    assert AlternativeInputs[0][0][0] == AlternativeInputs[1][0][0] == "G";
    assert AlternativeInputs[0][1][0] == AlternativeInputs[1][1][0] == "F";
    assert t[0][0][0] == Constants.ResolveAlternative(AlternativeInputs[0][0][0]);
    assert t[1][0][0] == Constants.ResolveAlternative(AlternativeInputs[1][0][0]);
    assert t[0][1][0] == Constants.ResolveAlternative(AlternativeInputs[0][1][0]);
    assert t[1][1][0] == Constants.ResolveAlternative(AlternativeInputs[1][1][0]);
  }

  /** Two experts giving the same positive triple to a criterion yield (l, l, m, u, u). */
  lemma UnanimousWeight(root: Root, tri: seq<seq<Triangular>>, t: Triangular)
    requires RootInverts(root)
    requires Covers2(tri, 2, 1) && tri[0][0] == tri[1][0] == t
    requires 0.0 < t.l && 0.0 < t.m && 0.0 < t.u
    ensures CriteriaFuzzy(root, tri, 2, 1) == [Fuzzy5(t.l, t.l, t.m, t.u, t.u)]
  {
    var terms := CriterionTerms(tri, 2, 1, 0);
    Fuzzy5OfUnanimous(root, terms, t);
    assert CriteriaFuzzy(root, tri, 2, 1)[0] == CalculateFuzzy5(root, terms);
  }

  /** Two experts giving the same positive triple to cell [i][0] yield (l, l, m, u, u). */
  lemma UnanimousRating(root: Root, tri: seq<seq<seq<Triangular>>>, i: nat, t: Triangular)
    requires RootInverts(root)
    requires Covers3(tri, 2, 2, 1) && i < 2 && tri[0][i][0] == tri[1][i][0] == t
    requires 0.0 < t.l && 0.0 < t.m && 0.0 < t.u
    ensures AlternativeFuzzy(root, tri, 2, 2, 1)[i] == [Fuzzy5(t.l, t.l, t.m, t.u, t.u)]
  {
    var terms := CellTerms(tri, 2, 2, 1, i, 0);
    Fuzzy5OfUnanimous(root, terms, t);
    assert AlternativeFuzzy(root, tri, 2, 2, 1)[i][0] == CalculateFuzzy5(root, terms);
  }

  /** Steps 3 and 4: the weight is (0.3, 0.3, 0.5, 0.7, 0.7), A's aggregate
      (0.7, 0.7, 0.7, 1, 1) and B's (0.3, 0.3, 0.5, 0.7, 0.7). */
  lemma ScenarioAggregates(root: Root)
    requires RootInverts(root)
    ensures Covers2(CriteriaInputs, 2, 1) && Covers3(AlternativeInputs, 2, 2, 1)
    ensures Covers2(CriteriaTri(CriteriaInputs), 2, 1)
    ensures Covers3(AlternativeTri(AlternativeInputs), 2, 2, 1)
    ensures CriteriaFuzzy(root, CriteriaTri(CriteriaInputs), 2, 1) == [Weight]
    ensures AlternativeFuzzy(root, AlternativeTri(AlternativeInputs), 2, 2, 1) == [[Good], [Fair]]
  {
    ScenarioCriteriaTriples();
    ScenarioAlternativeTriples();
    var criteriaTri := CriteriaTri(CriteriaInputs);
    var alternativeTri := AlternativeTri(AlternativeInputs);
    UnanimousWeight(root, criteriaTri, Triangular(0.3, 0.5, 0.7));
    UnanimousRating(root, alternativeTri, 0, Triangular(0.7, 0.7, 1.0));
    UnanimousRating(root, alternativeTri, 1, Triangular(0.3, 0.5, 0.7));
  }

  /** Step 5: the optimal row is A's aggregate. */
  lemma ScenarioOptimal()
    ensures OptimalValues([[Good], [Fair]], 2, 1) == [Good]
  {
    var alt := [[Good], [Fair]];
    forall c ensures OptimalComponent(alt, 0, c) == Get(Good, c) {
      OptimalComponentBounds(alt, 0, c);
      assert alt[0][0] == Good && alt[1][0] == Fair;
      assert Get(Fair, c) <= Get(Good, c) && 0.0 < Get(Good, c);
      var v := OptimalComponent(alt, 0, c);
      if v != 0.0 {
        var i :| 0 <= i < 2 && v == Get(alt[i][0], c);
      }
    }
    var opt := OptimalValues(alt, 2, 1);
    assert opt[0] == Fuzzy5(Get(Good, L), Get(Good, LP), Get(Good, M), Get(Good, UP), Get(Good, U));
  }

  /** Step 6: the column sum is 1 + 1 + 0.7 = 2.7. */
  lemma ScenarioNormalized()
    ensures Normalized(Combined([Good], [[Good], [Fair]]), 1)
         == [[Scale(Good, 2.7)], [Scale(Good, 2.7)], [Scale(Fair, 2.7)]]
  {
    var rows := Combined([Good], [[Good], [Fair]]);
    assert rows == [[Good], [Good], [Fair]];
    assert CPlus(rows, 0) == 2.7 by {
      assert ColumnUSum(rows, 0, 1) == 1.0;
      assert ColumnUSum(rows, 0, 2) == 2.0;
    }
    var norm := Normalized(rows, 1);
    assert norm[0] == [Scale(Good, 2.7)] && norm[1] == [Scale(Good, 2.7)];
    assert norm[2] == [Scale(Fair, 2.7)];
  }

  /** Steps 7 to 9: the optimal row and A end at 2.17 / 13.5 and B at 1.41 / 13.5. */
  lemma ScenarioScalars()
    ensures var s := Defuzzified(Overall(Weighted(Normalized(Combined([Good], [[Good], [Fair]]), 1),
                                                  [Weight], 1)));
      |s| == 3 && s[0] == s[1] == 2.17 / 13.5 && s[2] == 1.41 / 13.5
  {
    ScenarioNormalized();
    var norm := [[Scale(Good, 2.7)], [Scale(Good, 2.7)], [Scale(Fair, 2.7)]];
    var weighted := Weighted(norm, [Weight], 1);
    forall i | 0 <= i < 3 ensures Overall(weighted)[i] == FuzzyMultiply(norm[i][0], Weight) {
      assert weighted[i] == [FuzzyMultiply(norm[i][0], Weight)];
      assert weighted[i][..0] == [];
      assert SumFuzzy(weighted[i]) == FuzzyAdd(SumFuzzy(weighted[i][..0]), weighted[i][0]);
      FuzzyAddIdentity(weighted[i][0]);
    }
    var s := Defuzzified(Overall(weighted));
    assert s[0] == Defuzzify(FuzzyMultiply(Scale(Good, 2.7), Weight));
    assert s[1] == Defuzzify(FuzzyMultiply(Scale(Good, 2.7), Weight));
    assert s[2] == Defuzzify(FuzzyMultiply(Scale(Fair, 2.7), Weight));
  }

  /** Steps 5 to 10 on the scenario's aggregates: A (index 0) is best, with utility 1,
      and B's utility is lower. */
  lemma ScenarioEvaluate(criteriaTri: seq<seq<Triangular>>,
                         alternativeTri: seq<seq<seq<Triangular>>>)
    ensures var r := Evaluate(criteriaTri, alternativeTri, [Weight], [[Good], [Fair]], 2, 1);
      && r.optimalValues == [Good]
      && |r.utility| == 2
      && r.utility[0] == 1.0
      && r.utility[1] < r.utility[0]
      && r.bestAlternativeIndex == 0
  {
    ScenarioOptimal();
    ScenarioScalars();
    var rows := Combined([Good], [[Good], [Fair]]);
    var s := Defuzzified(Overall(Weighted(Normalized(rows, 1), [Weight], 1)));
    var u := Utilities(s);
    assert u[0] == Utility(s, 1) == 1.0;
    assert u[1] == Utility(s, 2) == (1.41 / 13.5) / (2.17 / 13.5);
    assert u[1] < 1.0;
    assert BestAlternative(u) == 0 by {
      assert BestUpTo(u, 1) == 0;
    }
  }

  /** The whole run from the experts' codes. */
  lemma ScenarioRun(root: Root)
    requires RootInverts(root)
    ensures Covers2(CriteriaInputs, 2, 1) && Covers3(AlternativeInputs, 2, 2, 1)
    ensures var r := Pipeline(root, 2, 1, 2, CriteriaInputs, AlternativeInputs);
      && r.criteriaFuzzy == [Weight]
      && r.alternativeFuzzy == [[Good], [Fair]]
      && r.optimalValues == [Good]
      && |r.utility| == 2
      && r.utility[0] == 1.0
      && r.utility[1] < r.utility[0]
      && r.bestAlternativeIndex == 0
  {
    ScenarioAggregates(root);
    var criteriaTri := CriteriaTri(CriteriaInputs);
    var alternativeTri := AlternativeTri(AlternativeInputs);
    ScenarioEvaluate(criteriaTri, alternativeTri);
    assert Pipeline(root, 2, 1, 2, CriteriaInputs, AlternativeInputs)
        == Evaluate(criteriaTri, alternativeTri, [Weight], [[Good], [Fair]], 2, 1);
  }
}
