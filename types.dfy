/** The value types shared by the Fuzzy ARAS calculation (src/types.ts). */
module Types {

  /** A triangular fuzzy number: lower bound, most likely value, upper bound. */
  datatype Triangular = Triangular(l: real, m: real, u: real)

  /** A five-component fuzzy number: min of the lower bounds, geometric means of the
      lower, middle and upper values, and max of the upper bounds. */
  datatype Fuzzy5 = Fuzzy5(l: real, lp: real, m: real, up: real, u: real)

  /** A linguistic term: a display name, a short code and its triangular number. */
  datatype LinguisticTerm = LinguisticTerm(name: string, shortName: string, tri: Triangular)

  /** Every intermediate result of one calculation run. The step-2 display strings are
      not part of this model. */
  datatype CalculationResults = CalculationResults(
    criteriaTri: seq<seq<Triangular>>,
    alternativeTri: seq<seq<seq<Triangular>>>,
    criteriaFuzzy: seq<Fuzzy5>,
    alternativeFuzzy: seq<seq<Fuzzy5>>,
    optimalValues: seq<Fuzzy5>,
    normalized: seq<seq<Fuzzy5>>,
    weighted: seq<seq<Fuzzy5>>,
    overall: seq<Fuzzy5>,
    defuzzified: seq<real>,
    utility: seq<real>,
    bestAlternativeIndex: int)

  datatype Option<+T> = None | Some(value: T)

  /** A real number or the `-Infinity` seed that JavaScript loops start a maximum from. */
  datatype ExtReal = NegInfinity | Finite(value: real)

  /** `x > b` in JavaScript, where every number exceeds `-Infinity`. */
  predicate Exceeds(x: real, b: ExtReal) {
    b.NegInfinity? || x > b.value
  }

  const ZeroTri := Triangular(0.0, 0.0, 0.0)
  const Zero5 := Fuzzy5(0.0, 0.0, 0.0, 0.0, 0.0)

  /** Names one of the five components of a `Fuzzy5`. */
  datatype Component = L | LP | M | UP | U

  function Get(f: Fuzzy5, c: Component): real {
    match c
    case L => f.l
    case LP => f.lp
    case M => f.m
    case UP => f.up
    case U => f.u
  }

  /** Component-wise `f <= g`. */
  predicate Le(f: Fuzzy5, g: Fuzzy5) {
    f.l <= g.l && f.lp <= g.lp && f.m <= g.m && f.up <= g.up && f.u <= g.u
  }

  /** All five components are non-negative. */
  predicate NonNeg(f: Fuzzy5) {
    Le(Zero5, f)
  }

  predicate TriNonNeg(t: Triangular) {
    0.0 <= t.l && 0.0 <= t.m && 0.0 <= t.u
  }
}
