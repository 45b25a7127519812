/** The two built-in linguistic vocabularies of src/constants.ts and the lookup maps built
    from them. */
module Constants {
  import opened Types

  /** `CRITERIA_TERMS`: importance of a criterion. */
  const CriteriaTerms: seq<LinguisticTerm> := [
    LinguisticTerm("Very low (VL)", "VL", Triangular(0.0, 0.0, 0.1)),
    LinguisticTerm("Low (L)", "L", Triangular(0.0, 0.1, 0.3)),
    LinguisticTerm("Medium low (ML)", "ML", Triangular(0.1, 0.3, 0.5)),
    LinguisticTerm("Medium (M)", "M", Triangular(0.3, 0.5, 0.7)),
    LinguisticTerm("Medium high (MH)", "MH", Triangular(0.5, 0.7, 0.9)),
    LinguisticTerm("High (H)", "H", Triangular(0.7, 0.7, 1.0)),
    LinguisticTerm("Very high (VH)", "VH", Triangular(0.9, 1.0, 1.0))
  ]

  /** `ALTERNATIVE_TERMS`: performance of an alternative on a criterion. */
  const AlternativeTerms: seq<LinguisticTerm> := [
    LinguisticTerm("Very poor (VP)", "VP", Triangular(0.0, 0.0, 0.1)),
    LinguisticTerm("Poor (P)", "P", Triangular(0.0, 0.1, 0.3)),
    LinguisticTerm("Medium poor (MP)", "MP", Triangular(0.1, 0.3, 0.5)),
    LinguisticTerm("Fair (F)", "F", Triangular(0.3, 0.5, 0.7)),
    LinguisticTerm("Medium good (MG)", "MG", Triangular(0.5, 0.7, 0.9)),
    LinguisticTerm("Good (G)", "G", Triangular(0.7, 0.7, 1.0)),
    LinguisticTerm("Very good (VG)", "VG", Triangular(0.9, 1.0, 1.0))
  ]

  /** `new Map(terms.map(t => [t.shortName, t.tri]))`: entries are added in table order,
      so a later term overwrites an earlier one with the same short name. Its keys are
      exactly the short names, and each value is the triple of a term with that name. */
  function TermMap(terms: seq<LinguisticTerm>): (m: map<string, Triangular>)
    ensures m.Keys == set i | 0 <= i < |terms| :: terms[i].shortName
    ensures forall code :: code in m ==>
      exists i :: 0 <= i < |terms| && terms[i].shortName == code && m[code] == terms[i].tri
  {
    if terms == [] then map[]
    else
      var last := terms[|terms| - 1];
      var m := TermMap(terms[..|terms| - 1])[last.shortName := last.tri];
      assert forall i :: 0 <= i < |terms| - 1 ==> terms[..|terms| - 1][i] == terms[i];
      m
  }

  const CriteriaMap: map<string, Triangular> := TermMap(CriteriaTerms)
  const AlternativeMap: map<string, Triangular> := TermMap(AlternativeTerms)

  /** `map.get(code) || { l: 0, m: 0, u: 0 }`: an unknown code resolves to zero. */
  function Resolve(m: map<string, Triangular>, code: string): Triangular {
    if code in m then m[code] else ZeroTri
  }

  function ResolveCriteria(code: string): Triangular {
    Resolve(CriteriaMap, code)
  }

  function ResolveAlternative(code: string): Triangular {
    Resolve(AlternativeMap, code)
  }

  predicate UniqueShortNames(terms: seq<LinguisticTerm>) {
    forall i, j :: 0 <= i < j < |terms| ==> terms[i].shortName != terms[j].shortName
  }

  /** A proper triangular number: `l <= m <= u` and `l < u`. */
  predicate WellFormed(t: Triangular) {
    t.l <= t.m <= t.u && t.l < t.u
  }

  predicate InUnitRange(t: Triangular) {
    0.0 <= t.l <= 1.0 && 0.0 <= t.m <= 1.0 && 0.0 <= t.u <= 1.0
  }

  /** With unique short names, looking up a term's short name gives its triple. */
  lemma {:induction false} ResolveTerm(terms: seq<LinguisticTerm>, i: nat)
    requires UniqueShortNames(terms)
    requires i < |terms|
    ensures Resolve(TermMap(terms), terms[i].shortName) == terms[i].tri
  {
    var init := terms[..|terms| - 1];
    if i < |terms| - 1 {
      assert init[i] == terms[i];
      ResolveTerm(init, i);
    }
  }

  /** A code that is no term's short name resolves to zero. */
  lemma ResolveUnknown(terms: seq<LinguisticTerm>, code: string)
    requires forall i :: 0 <= i < |terms| ==> terms[i].shortName != code
    ensures Resolve(TermMap(terms), code) == ZeroTri
  {
  }

  /** With unique short names the map has one entry per term. */
  lemma {:induction false} TermMapSize(terms: seq<LinguisticTerm>)
    requires UniqueShortNames(terms)
    ensures |TermMap(terms)| == |terms|
  {
    if terms != [] {
      var init := terms[..|terms| - 1];
      assert forall i :: 0 <= i < |init| ==> init[i] == terms[i];
      TermMapSize(init);
      var last := terms[|terms| - 1];
      assert last.shortName !in TermMap(init);
    }
  }

  lemma TablesHaveUniqueShortNames()
    ensures UniqueShortNames(CriteriaTerms) && UniqueShortNames(AlternativeTerms)
  {
  }

  /** Each map holds seven entries. */
  lemma MapSizes()
    ensures |CriteriaMap| == 7 && |AlternativeMap| == 7
  {
    TablesHaveUniqueShortNames();
    TermMapSize(CriteriaTerms);
    TermMapSize(AlternativeTerms);
  }

  /** Every built-in triple is well formed and lies in [0, 1]. */
  lemma TablesWellFormed()
    ensures forall i :: 0 <= i < |CriteriaTerms| ==>
      WellFormed(CriteriaTerms[i].tri) && InUnitRange(CriteriaTerms[i].tri)
    ensures forall i :: 0 <= i < |AlternativeTerms| ==>
      WellFormed(AlternativeTerms[i].tri) && InUnitRange(AlternativeTerms[i].tri)
  {
  }

  /** Within each table the terms are listed in non-decreasing order of l, of m and of u. */
  lemma TablesSorted()
    ensures forall i, j :: 0 <= i <= j < |CriteriaTerms| ==>
      CriteriaTerms[i].tri.l <= CriteriaTerms[j].tri.l &&
      CriteriaTerms[i].tri.m <= CriteriaTerms[j].tri.m &&
      CriteriaTerms[i].tri.u <= CriteriaTerms[j].tri.u
    ensures forall i, j :: 0 <= i <= j < |AlternativeTerms| ==>
      AlternativeTerms[i].tri.l <= AlternativeTerms[j].tri.l &&
      AlternativeTerms[i].tri.m <= AlternativeTerms[j].tri.m &&
      AlternativeTerms[i].tri.u <= AlternativeTerms[j].tri.u
  {
  }

  /** The two tables hold the same triples position by position (VL/VP, ..., VH/VG). */
  lemma TablesAgree()
    ensures |CriteriaTerms| == |AlternativeTerms| == 7
    ensures forall i :: 0 <= i < 7 ==> CriteriaTerms[i].tri == AlternativeTerms[i].tri
  {
  }

  /** The fill codes of new matrix cells: "M" for criteria, "G" for alternatives. */
  lemma DefaultCodes()
    ensures "M" in CriteriaMap && ResolveCriteria("M") == Triangular(0.3, 0.5, 0.7)
    ensures "G" in AlternativeMap && ResolveAlternative("G") == Triangular(0.7, 0.7, 1.0)
  {
    TablesHaveUniqueShortNames();
    ResolveTerm(CriteriaTerms, 3);
    ResolveTerm(AlternativeTerms, 5);
  }

  /** Whatever the code, the resolved triple lies in [0, 1]: it is a table triple or zero. */
  lemma ResolvedInUnitRange(code: string)
    ensures InUnitRange(ResolveCriteria(code)) && InUnitRange(ResolveAlternative(code))
  {
    TablesWellFormed();
  }
}
