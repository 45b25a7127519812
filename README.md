# Fuzzy ARAS calculation core

This project models the calculation core of a Fuzzy ARAS decision-support app. In
ARAS (Additive Ratio ASsessment), several experts judge a set of alternatives against a
set of criteria. Each expert gives every criterion a linguistic importance code ("VL"
to "VH") and every alternative/criterion pair a linguistic rating code ("VP" to "VG").
The app then runs these steps:

- **Step 3:** each code becomes a triangular fuzzy number `(l, m, u)` from the built-in
  term tables.
- **Step 4:** the experts' triangles for one cell collapse into a five-component fuzzy
  number `(l, l', m, u', u)`: the minimum of the `l`s, geometric means of the `l`s, `m`s
  and `u`s, and the maximum of the `u`s.
- **Step 5:** an optimal row takes, component by component, the largest value over the
  alternatives, clamped at zero.
- **Step 6:** the optimal row and the alternatives are normalised per criterion by the
  column's sum of `u`; a zero sum leaves the column zero.
- **Steps 7–9:** the normalised matrix is multiplied by the criterion weights, each row
  is summed and then defuzzified to a scalar (the mean of the five components).
- **Step 10:** each alternative's utility is its scalar divided by the optimal row's.
  The strict-`>` scan picks the lowest index with the highest utility.

The model also covers the array helpers behind the input matrices and the label lists:
create, and resize while keeping every cell that still fits. It also covers the three
input handlers: the bounded count field and the single-cell edits.

Modules, one per file:

- `Types`: the records of src/types.ts as datatypes, plus `Option` and an extended real
  (`-Infinity` or a finite value) for the accumulators seeded with `-Infinity`.
- `Fuzzy`: src/utils.ts lines 1–59.
  - `Math.pow(product, 1 / n)` is not computable over the reals, so it is a parameter
    `root`.
  - Two laws about `root` (`RootPositive`, `RootInverts`) are required only by the lemmas
    that need them.
- `Reshape`: src/utils.ts lines 61–136.
  - `resize2DArray` and `resize3DArray` are methods with nested `for` loops. Each is
    proved equal to a specification function.
- `Constants`: src/constants.ts, the two term tables and their lookup maps.
- `Aras`: `calculate` (src/App.tsx:165-353).
  - Each step is a specification function.
  - Each loop of the source is a method proved equal to that function: `push` becomes
    `s + [x]`, an indexed write becomes `m[i := m[i][j := v]]`, and the accumulators are
    locals.
  - `Calculate` chains the methods.
- `ArasProperties`: what the results promise — shapes, optimal-row dominance, the
  normalisation zero guard, utilities in [0, 1] and the tie-break.
- `Scenario`: a complete run with two experts, one criterion and two alternatives.
- `Handlers`: the input handlers of src/App.tsx:115-162.

The source's `try`/`catch` turns a missing matrix cell into "no results". When a cell
that the loops of steps 2 and 4 read is missing, the read throws a `TypeError`, which the
`catch` swallows. Such a read is `alternativeInputs[k][i][j]` in step 2, the reads of the
looked-up triangles in step 4, or `t.l` on an `undefined` cell inside `calculateFuzzy5`.
Step 5 reads only step 4's own matrix, which always has the counted shape, so it
cannot throw. A larger count does not always mean a missing read: with no criteria,
nothing is read per expert, and with no alternatives, nothing is read from the
alternative matrix. `Calculate` returns `None` in exactly the cases where some read cell
is missing, which `Covers2` and `Covers3` state.

Fuzzy ARAS as usually stated also has cost criteria, with a minimum-based optimal row
and reciprocal normalisation. This code has no polarity at all and treats every
criterion as a benefit criterion. The model follows the code.

A textbook statement of the optimal row takes each component's maximum over the
alternatives. The code clamps that maximum at zero, and with no alternatives the optimal
row is all zeros. `Aras.OptimalComponentBounds` states exactly what the code computes, and
`Aras.OptimalIsAttainedMax` states when the two agree.

## Model

| member | source | states |
|---|---|---|
| Fuzzy.GuardedProduct | src/utils.ts:7 | the product `geometricMean` takes its root of is strictly positive whatever the inputs, because every non-positive factor is replaced by 1e-10 |
| Fuzzy.GuardedProductIsProductOfGuards | src/utils.ts:7 | the reduce with the guard equals the plain product of the guarded values |
| Fuzzy.GuardedProductOfPositives | src/utils.ts:7 | on strictly positive inputs the guard changes nothing: the guarded product is the plain product |
| Fuzzy.GuardedProductOfConstant | src/utils.ts:7 | n copies of a positive value multiply to its n-th power |
| Fuzzy.GeometricMean | src/utils.ts:3-9 | for a non-empty list and a root that keeps positives positive, the mean is positive |
| Fuzzy.GeometricMeanIgnoresZeros | src/utils.ts:4-8 | a non-positive input counts as 1e-10: replacing it by 1e-10 changes neither the guarded product nor the mean |
| Fuzzy.GeometricMeanOfConstant | src/utils.ts:3-9 | the mean of n copies of a positive value is that value |
| Fuzzy.MinOf | src/utils.ts:23 | `Math.min(...ls)` bounds every element from below and is one of them |
| Fuzzy.MaxOf | src/utils.ts:27 | `Math.max(...us)` bounds every element from above and is one of them |
| Fuzzy.CalculateFuzzy5 | src/utils.ts:14-30 | an empty list gives zero; otherwise `l` is the least `l` and `u` the greatest `u` of the inputs, both attained; `l'`, `m`, `u'` are positive |
| Fuzzy.Fuzzy5OfUnanimous | src/utils.ts:14-30 | experts who agree on a positive triangle (l, m, u) give (l, l, m, u, u) |
| Fuzzy.Fuzzy5NonNeg | src/utils.ts:14-30 | non-negative triangles give a non-negative aggregate |
| Fuzzy.FuzzyAdd | src/utils.ts:35-41 | component-wise sum; its laws are stated by `FuzzyAddCommutative`, `FuzzyAddAssociative`, `FuzzyAddIdentity` and `DefuzzifyAdditive` |
| Fuzzy.FuzzyMultiply | src/utils.ts:46-52 | component-wise product; the law it obeys is stated by `FuzzyMultiplyMonotone` |
| Fuzzy.FuzzyAddCommutative | src/utils.ts:35-41 | `fuzzyAdd` is commutative |
| Fuzzy.FuzzyAddAssociative | src/utils.ts:35-41 | `fuzzyAdd` is associative |
| Fuzzy.FuzzyAddIdentity | src/utils.ts:35-41 | the zero number is the identity of `fuzzyAdd` |
| Fuzzy.Defuzzify | src/utils.ts:57-59 | the mean of the five components; what it promises is stated by `DefuzzifyBetween`, `DefuzzifyCrisp`, `DefuzzifyAdditive` and `DefuzzifyMonotone` |
| Fuzzy.DefuzzifyBetween | src/utils.ts:57-59 | the scalar lies between any lower and upper bound on the five components |
| Fuzzy.DefuzzifyCrisp | src/utils.ts:57-59 | a crisp number (all five components equal) defuzzifies to itself |
| Fuzzy.DefuzzifyAdditive | src/utils.ts:57-59 | defuzzifying a sum adds the scalars |
| Fuzzy.DefuzzifyMonotone | src/utils.ts:57-59 | a component-wise smaller number has a scalar no larger |
| Fuzzy.FuzzyMultiplyMonotone | src/utils.ts:46-52 | multiplying by a non-negative weight keeps the component-wise order and non-negativity |
| Fuzzy.SumFuzzy | src/App.tsx:298-304 | the row `reduce` with `fuzzyAdd` from zero, as a left fold; its properties are stated by `SumFuzzyAppend`, `SumFuzzyFoldOrder` and `SumFuzzyMonotone` |
| Fuzzy.SumFuzzyAppend | src/App.tsx:298-304 | the zero-seeded `fuzzyAdd` fold of a concatenation is the sum of the folds of its parts |
| Fuzzy.SumFuzzyFoldOrder | src/App.tsx:298-304 | folding the row from the left, as `reduce` does, equals folding from the right |
| Fuzzy.SumFuzzyMonotone | src/App.tsx:298-304 | row sums keep a cell-by-cell order and non-negativity |
| Reshape.Create2DArray | src/utils.ts:64-66 | `rows` rows of `cols` cells, each equal to the fill |
| Reshape.Create3DArray | src/utils.ts:71-78 | a `d1` by `d2` by `d3` block whose every cell is the fill |
| Reshape.NatToString | src/utils.ts:89 | the decimal text of a number is never empty |
| Reshape.NatToStringRoundTrip | src/utils.ts:89 | reading the decimal text back gives the number |
| Reshape.NatToStringInjective | src/utils.ts:89 | distinct numbers have distinct decimal texts |
| Reshape.ResizeLabels | src/utils.ts:83-92 | exactly `newCount` labels; existing labels are kept where they exist and new slots get `prefix i+1` |
| Reshape.DefaultLabelsDistinct | src/utils.ts:83-92 | freshly created labels are pairwise distinct |
| Reshape.ResizeLabelsIdentity | src/utils.ts:83-92 | resizing to the current count changes nothing |
| Reshape.ResizeLabelsGrowShrink | src/utils.ts:83-92 | growing the labels and shrinking them back restores them |
| Reshape.Resized2 | src/utils.ts:97-112 | the requested shape; cells inside both the old rows and the first row's width are copied, all others are the fill |
| Reshape.Resize2DArray | src/utils.ts:97-112 | the nested copy loops produce exactly `Resized2` |
| Reshape.RectangularCopyable2 | src/utils.ts:104-105 | a rectangular array can always be resized |
| Reshape.Resize2Identity | src/utils.ts:97-112 | resizing a rectangular array to its own shape changes nothing |
| Reshape.Resize2GrowShrink | src/utils.ts:97-112 | growing a rectangular array and shrinking it back restores it |
| Reshape.Resized3 | src/utils.ts:117-136 | the requested shape; cells inside the old extent, measured on `[0]` and `[0][0]`, are copied, all others are the fill |
| Reshape.Resize3DArray | src/utils.ts:117-136 | the triple copy loop produces exactly `Resized3` |
| Reshape.CuboidCopyable3 | src/utils.ts:125-127 | a cuboid array can always be resized |
| Reshape.Resize3Identity | src/utils.ts:117-136 | resizing a cuboid array to its own shape changes nothing |
| Reshape.Resize3GrowShrink | src/utils.ts:117-136 | growing a cuboid array and shrinking it back restores it |
| Constants.CriteriaTerms | src/constants.ts:3-19 | the seven criteria terms, VL to VH, with their triangles; their properties are stated by `TablesWellFormed`, `TablesSorted` and `TablesHaveUniqueShortNames` |
| Constants.AlternativeTerms | src/constants.ts:21-37 | the seven alternative terms, VP to VG, with their triangles; their properties are stated by the same lemmas |
| Constants.CriteriaMap | src/constants.ts:40-42 | `TermMap` of the criteria terms, with seven entries by `MapSizes` |
| Constants.AlternativeMap | src/constants.ts:43-45 | `TermMap` of the alternative terms, with seven entries by `MapSizes` |
| Constants.Resolve | src/App.tsx:186 | `map.get(code)`, or (0, 0, 0) when the code is absent; its meaning is stated by `ResolveTerm` and `ResolveUnknown` |
| Constants.ResolveCriteria | src/App.tsx:186 | a criteria code looked up in the criteria map; `ResolvedInUnitRange` states that it lies in [0, 1] |
| Constants.ResolveAlternative | src/App.tsx:193 | an alternative code looked up in the alternative map; `ResolvedInUnitRange` states that it lies in [0, 1] |
| Constants.TermMap | src/constants.ts:40-45 | the map's keys are exactly the short names, and every value is the triangle of a term with that name |
| Constants.ResolveTerm | src/constants.ts:40-45 | with unique short names, looking up a term's code gives its triangle |
| Constants.ResolveUnknown | src/App.tsx:186 | a code that no term has resolves to (0, 0, 0) |
| Constants.TermMapSize | src/constants.ts:40-45 | with unique short names the map has one entry per term |
| Constants.TablesHaveUniqueShortNames | src/constants.ts:3-37 | both tables have pairwise distinct codes |
| Constants.MapSizes | src/constants.ts:40-45 | each lookup map holds seven entries |
| Constants.TablesWellFormed | src/constants.ts:3-37 | every built-in triangle has l <= m <= u, l < u, and lies in [0, 1] |
| Constants.TablesSorted | src/constants.ts:3-37 | each table lists its triangles in non-decreasing order of l, of m and of u |
| Constants.TablesAgree | src/constants.ts:3-37 | the two tables hold the same seven triangles position by position |
| Constants.DefaultCodes | src/App.tsx:97-101 | the fill codes "M" and "G" resolve to (0.3, 0.5, 0.7) and (0.7, 0.7, 1.0) |
| Constants.ResolvedInUnitRange | src/App.tsx:183-196 | every code, known or not, resolves to a triangle in [0, 1] |
| Aras.CriteriaTri | src/App.tsx:183-188 | same shape as the inputs; each cell is its code looked up in the criteria table |
| Aras.AlternativeTri | src/App.tsx:189-196 | same shape as the inputs; each cell is its code looked up in the alternative table |
| Aras.CriteriaFuzzy | src/App.tsx:198-205 | one aggregate per criterion |
| Aras.AlternativeFuzzy | src/App.tsx:207-220 | an alternatives-by-criteria matrix of aggregates |
| Aras.AggregateCriteria | src/App.tsx:198-205 | the push loop equals the specification: each weight aggregates column `j` over the experts |
| Aras.AggregateAlternatives | src/App.tsx:207-220 | the indexed-write loops over a zero matrix equal the specification |
| Aras.MaxUpTo | src/App.tsx:224-236 | the `-Infinity`-seeded running maximum, raised by every strictly larger value; `MaxUpToIsMax` states what it reaches |
| Aras.MaxUpToIsMax | src/App.tsx:224-236 | the `-Infinity`-seeded accumulator stays `-Infinity` only while nothing has been scanned, and is then the largest value scanned, attained |
| Aras.MaxWithZero | src/App.tsx:238-244 | `Math.max(0, b)` is never negative, no smaller than a finite `b`, equal to a non-negative `b`, and 0 for `-Infinity` |
| Aras.OptimalComponentBounds | src/App.tsx:222-245 | each optimal component is at least 0, no smaller than that component of any alternative, and either 0 or attained |
| Aras.OptimalIsAttainedMax | src/App.tsx:222-245 | with alternatives and no negative components, the optimal component is the attained maximum |
| Aras.OptimalValues | src/App.tsx:222-245 | one optimal number per criterion |
| Aras.SelectOptimal | src/App.tsx:222-245 | the five running maxima per criterion produce exactly `OptimalValues` |
| Aras.Combined | src/App.tsx:247-250 | row 0 is the optimal row and row `i + 1` is alternative `i` |
| Aras.ColumnUSum | src/App.tsx:259-262 | `cj_plus` after adding the `u` of the first n rows; `ColumnUSumNonNeg` states that it is non-negative for non-negative rows |
| Aras.CPlus | src/App.tsx:258-262 | the normalisation denominator of a column, the `u`-sum over every combined row; `EvaluateNormalization` states how it is used |
| Aras.Normalized | src/App.tsx:252-279 | a matrix with as many rows as the combined one and one column per criterion |
| Aras.Normalize | src/App.tsx:252-279 | the column loops, including the `continue` on a zero `cj_plus`, produce exactly `Normalized` |
| Aras.Weighted | src/App.tsx:281-293 | same shape as the normalised matrix |
| Aras.Weigh | src/App.tsx:281-293 | the indexed-write loops produce exactly `Weighted` |
| Aras.Overall | src/App.tsx:295-306 | one sum per row |
| Aras.SumRows | src/App.tsx:295-306 | the push loop produces exactly `Overall` |
| Aras.Defuzzified | src/App.tsx:308 | one scalar per row, each the row sum's `defuzzify` |
| Aras.Utilities | src/App.tsx:310-330 | one utility per alternative, each the alternative's scalar over the optimal one, or 0 when that is not positive |
| Aras.Utility | src/App.tsx:320-323 | one alternative's scalar over the optimal scalar, or 0 unless that scalar is positive; `UtilitiesBounded` and `TopRowUtilityOne` state its range and its value on the optimal row |
| Aras.BestUpTo | src/App.tsx:312-330 | -1 exactly when nothing is scanned; otherwise an index in range with maximal utility, strictly greater than every earlier utility |
| Aras.BestAlternative | src/App.tsx:312-330 | `BestUpTo` over every utility; `EvaluateRanking` states that it is the lowest index of the maximum |
| Aras.Rank | src/App.tsx:310-330 | the utility loop, with its `-Infinity`-seeded best, produces exactly `Utilities` and `BestAlternative` |
| Aras.TriCovers | src/App.tsx:183-196 | lookup keeps the shape, so covering inputs give covering triangle matrices |
| Aras.Evaluate | src/App.tsx:222-330 | steps 5 to 10 from the aggregated weights and ratings; `EvaluateShapes`, `EvaluateNormalization`, `EvaluateRanking`, `EvaluateUtilitiesInUnitRange` and `EvaluateTie` state its results |
| Aras.Pipeline | src/App.tsx:183-330 | the lookups of step 3 and the aggregates of step 4, fed to `Evaluate`; `UtilitiesInUnitRange`, `IdenticalAlternativesTie` and `ScenarioRun` state its results |
| Aras.Calculate | src/App.tsx:165-353 | no results exactly when an input matrix does not cover the counts (the swallowed `TypeError`); otherwise the results of every step, as the specification functions give them |
| ArasProperties.EvaluateShapes | src/App.tsx:247-330 | normalised and weighted are (alternatives + 1) by criteria; each weighted cell is normalised times weight; each sum folds its row; each scalar defuzzifies its sum; one utility per alternative, scalar over optimal scalar or 0; the best index is -1 exactly when there are no alternatives and in range otherwise |
| ArasProperties.EvaluateNormalization | src/App.tsx:258-279 | when a column's `cj_plus` is 0, every row's cell in it is zero, including the optimal row; otherwise every cell is its combined cell divided by `cj_plus` |
| ArasProperties.EvaluateRanking | src/App.tsx:312-330 | the best index is the lowest index attaining the maximum utility |
| ArasProperties.OptimalDominates | src/App.tsx:222-245 | the optimal row is non-negative and component-wise no smaller than any alternative |
| ArasProperties.CombinedDominates | src/App.tsx:222-250 | with non-negative aggregates, every cell of the combined matrix is non-negative and dominated by row 0's |
| ArasProperties.ColumnUSumNonNeg | src/App.tsx:259-262 | a column of non-negative `u`s has a non-negative `cj_plus` |
| ArasProperties.ScaleMonotone | src/App.tsx:269-277 | dividing by a positive `cj_plus` keeps order and non-negativity |
| ArasProperties.NormalizedCellDominated | src/App.tsx:258-279 | after normalisation each cell is still non-negative and dominated by row 0's |
| ArasProperties.NormalizePreservesDominance | src/App.tsx:258-279 | normalisation keeps row 0 dominant |
| ArasProperties.WeightedCellDominated | src/App.tsx:287-293 | after weighting by non-negative weights each cell is still non-negative and dominated by row 0's |
| ArasProperties.WeighPreservesDominance | src/App.tsx:287-293 | weighting keeps row 0 dominant |
| ArasProperties.OverallDominated | src/App.tsx:295-306 | every row sum is non-negative and dominated by the optimal row's sum |
| ArasProperties.UtilitiesBounded | src/App.tsx:310-324 | scalars between 0 and the optimal scalar give utilities in [0, 1] |
| ArasProperties.CriteriaFuzzyNonNeg | src/App.tsx:198-205 | non-negative triangles give non-negative weights |
| ArasProperties.AlternativeFuzzyNonNeg | src/App.tsx:207-220 | non-negative triangles give non-negative aggregates |
| ArasProperties.EvaluateUtilitiesInUnitRange | src/App.tsx:222-330 | non-negative weights and aggregates give utilities in [0, 1] |
| ArasProperties.UtilitiesInUnitRange | src/App.tsx:165-353 | with the built-in tables every utility of every run lies in [0, 1] |
| ArasProperties.EqualRowsEqualScalars | src/App.tsx:258-308 | two equal combined rows end with equal scalars |
| ArasProperties.EvaluateTie | src/App.tsx:310-330 | equal aggregates give equal utilities, and the later alternative is never the best |
| ArasProperties.IdenticalAlternativesTie | src/App.tsx:165-353 | two alternatives judged identically by every expert get equal utilities, and the later one is never the best |
| ArasProperties.TopRowUtilityOne | src/App.tsx:320-323 | a row equal to the optimal row has utility 1 when the optimal scalar is positive |
| ArasProperties.OptimalAlternativeHasUtilityOne | src/App.tsx:222-330 | an alternative whose aggregate is the optimal row has utility 1 when the optimal scalar is positive |
| ArasProperties.ResizedInputsCover | src/App.tsx:93-102 | matrices resized to the current counts always cover them, so the calculation never fails on them |
| Scenario.ScenarioCodes | src/constants.ts:11-35 | "M", "G" and "F" resolve to their table triangles |
| Scenario.ScenarioCovers | src/App.tsx:165-220 | the scenario's matrices cover two experts, two alternatives and one criterion |
| Scenario.ScenarioCriteriaTriples | src/App.tsx:183-188 | both experts' "M" becomes (0.3, 0.5, 0.7) |
| Scenario.ScenarioAlternativeTriples | src/App.tsx:189-196 | "G" becomes (0.7, 0.7, 1.0) and "F" becomes (0.3, 0.5, 0.7) for both experts |
| Scenario.UnanimousWeight | src/App.tsx:198-205 | two agreeing experts give a criterion weight (l, l, m, u, u) |
| Scenario.UnanimousRating | src/App.tsx:207-220 | two agreeing experts give a rating (l, l, m, u, u) |
| Scenario.ScenarioAggregates | src/App.tsx:198-220 | the weight is (0.3, 0.3, 0.5, 0.7, 0.7), A is (0.7, 0.7, 0.7, 1, 1) and B is (0.3, 0.3, 0.5, 0.7, 0.7) |
| Scenario.ScenarioOptimal | src/App.tsx:222-245 | the optimal row is A's aggregate |
| Scenario.ScenarioNormalized | src/App.tsx:258-279 | the column sum is 2.7 and every cell is divided by it |
| Scenario.ScenarioScalars | src/App.tsx:287-308 | the optimal row and A end at 2.17/13.5 and B at 1.41/13.5 |
| Scenario.ScenarioEvaluate | src/App.tsx:310-330 | A is best with utility 1 and B's utility is lower |
| Scenario.ScenarioRun | src/App.tsx:165-353 | the whole run from the codes: the aggregates above, A best with utility 1, B lower |
| Handlers.CountChange | src/App.tsx:115-127 | the setter is called exactly for empty text (with 1) or an integer in 1..20 (with that integer), so it only ever sets a count in 1..20 |
| Handlers.CountStaysInRange | src/App.tsx:115-127 | a count in 1..20 stays in 1..20 after a change, and a changed count is in 1..20 |
| Handlers.CountsStayInRange | src/App.tsx:115-127 | any sequence of changes keeps a count in 1..20 |
| Handlers.CriteriaChange | src/App.tsx:137-147 | the copy keeps every row length, holds the new value at the addressed cell and equals the old matrix everywhere else |
| Handlers.AlternativeChange | src/App.tsx:149-162 | the copy keeps every dimension, holds the new value at the addressed cell and equals the old matrix everywhere else |
| Handlers.EditsKeepCover | src/App.tsx:137-147 | an edit that keeps the shape keeps the matrix covering the counts |

## Left out

- Rendering, layout, dialogs and the React state wiring (`useState`, `useMemo`, `useEffect`, `setResults`, `setPage`). The resize calls inside the effects are modelled through `Reshape`, and `ArasProperties.ResizedInputsCover` connects them to the calculation.
- `handleLabelChange` and `resetInputs`. They are UI wiring; the helpers they call (`resizeLabels`, `create2DArray`, `create3DArray`) are modelled.
- src/components/Fuzzy5NumberCell.tsx. It only formats numbers for display.
- Step 2's display strings (`[a, b, ...]`). They are presentation only and feed nothing later. The results record therefore has no `step2_aggregated` field.
- IEEE-754 behaviour. The model uses exact reals: no rounding, `NaN`, infinities or `-0`. The only infinity the source uses, the `-Infinity` seed of the running maxima, is modelled as an extended real.
- `Math.pow(product, 1 / n)`. It is the parameter `root`. Its positivity and its inverting a power are assumed only in lemmas that name them (`RootPositive`, `RootInverts`).
- `parseInt`. `Handlers.CountChange` takes the already-parsed result: empty text, not a number, or an integer.
- `console.warn` and `console.error`. The `try`/`catch` is modelled only as the `None` result of `Aras.Calculate`.
- Benefit/cost polarity and reciprocal normalisation. Fuzzy ARAS as usually stated has them, but this code does not: it treats every criterion as a benefit criterion.
- Reshape.Resize2DArray: requires every copied row to hold the copied columns (`Copyable2`). On a ragged array the source would copy `undefined` into the new array, and the model has no undefined value.
- Reshape.Resize3DArray: requires the copied blocks to hold the copied rows and cells (`Copyable3`). On a ragged array the source would throw or copy `undefined`.
- Handlers.CriteriaChange: requires the addressed cell to exist. The UI only calls it for rendered cells; out of range, JavaScript would throw, or would grow a row sparsely.
- Handlers.AlternativeChange: requires the addressed cell to exist, for the same reason.
