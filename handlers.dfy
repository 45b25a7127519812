/** The input handlers of src/App.tsx: the bounded count setter and the single-cell edits
    of the criteria and alternative matrices. */
module Handlers {
  import opened Types
  import Aras

  /** The text of a count field after `parseInt(text, 10)`: empty, not a number, or an
      integer. */
  datatype CountInput = EmptyText | NotANumber | Integer(value: int)

  /** The largest count the setter accepts. */
  const MaxCount: nat := 20

  /** `handleCountChange`: the count the setter is called with, or `None` when it is not
      called. Empty text sets 1, an integer in 1..20 sets that integer, and anything else
      leaves the count alone. */
  function CountChange(input: CountInput): (r: Option<nat>)
    ensures r.Some? <==> input.EmptyText? || (input.Integer? && 0 < input.value <= MaxCount)
    ensures input.EmptyText? ==> r == Some(1)
    ensures input.Integer? && r.Some? ==> r.value == input.value
    ensures r.Some? ==> 1 <= r.value <= MaxCount
  {
    match input
    case EmptyText => Some(1)
    case NotANumber => None
    case Integer(v) => if 0 < v <= MaxCount then Some(v) else None
  }

  /** The count after one change. */
  function ApplyCount(current: nat, input: CountInput): nat {
    match CountChange(input)
    case None => current
    case Some(v) => v
  }

  /** A count that starts in 1..20 stays in 1..20 whatever is typed, and a change that
      moves it lands in 1..20. */
  lemma CountStaysInRange(current: nat, input: CountInput)
    ensures ApplyCount(current, input) != current ==> 1 <= ApplyCount(current, input) <= MaxCount
    ensures 1 <= current <= MaxCount ==> 1 <= ApplyCount(current, input) <= MaxCount
  {
  }

  /** The count after a sequence of changes, applied in order. */
  function ApplyCounts(current: nat, inputs: seq<CountInput>): nat
    decreases |inputs|
  {
    if inputs == [] then current else ApplyCounts(ApplyCount(current, inputs[0]), inputs[1..])
  }

  /** Any sequence of changes keeps a count in 1..20. */
  lemma {:induction false} CountsStayInRange(current: nat, inputs: seq<CountInput>)
    requires 1 <= current <= MaxCount
    ensures 1 <= ApplyCounts(current, inputs) <= MaxCount
    decreases |inputs|
  {
    if inputs != [] {
      CountStaysInRange(current, inputs[0]);
      CountsStayInRange(ApplyCount(current, inputs[0]), inputs[1..]);
    }
  }

  /** `handleCriteriaChange`: copies the matrix and assigns one cell. The copy keeps every
      row's length, holds `value` at the addressed cell and equals the original
      everywhere else. */
  method CriteriaChange(prev: seq<seq<string>>, expertIndex: nat, criteriaIndex: nat,
                        value: string)
    returns (next: seq<seq<string>>)
    requires expertIndex < |prev| && criteriaIndex < |prev[expertIndex]|
    ensures |next| == |prev|
    ensures forall k :: 0 <= k < |prev| ==> |next[k]| == |prev[k]|
    ensures next[expertIndex][criteriaIndex] == value
    ensures forall k, j ::
      0 <= k < |prev| && 0 <= j < |prev[k]| && (k, j) != (expertIndex, criteriaIndex) ==>
        next[k][j] == prev[k][j]
  {
    next := prev;
    next := next[expertIndex := next[expertIndex][criteriaIndex := value]];
  }

  /** `handleAlternativeChange`: the same on the expert-by-alternative-by-criterion
      matrix. */
  method AlternativeChange(prev: seq<seq<seq<string>>>, expertIndex: nat, altIndex: nat,
                           criteriaIndex: nat, value: string)
    returns (next: seq<seq<seq<string>>>)
    requires expertIndex < |prev| && altIndex < |prev[expertIndex]|
    requires criteriaIndex < |prev[expertIndex][altIndex]|
    ensures |next| == |prev|
    ensures forall k :: 0 <= k < |prev| ==> |next[k]| == |prev[k]|
    ensures forall k, i :: 0 <= k < |prev| && 0 <= i < |prev[k]| ==> |next[k][i]| == |prev[k][i]|
    ensures next[expertIndex][altIndex][criteriaIndex] == value
    ensures forall k, i, j ::
      && 0 <= k < |prev| && 0 <= i < |prev[k]| && 0 <= j < |prev[k][i]|
      && (k, i, j) != (expertIndex, altIndex, criteriaIndex)
      ==> next[k][i][j] == prev[k][i][j]
  {
    next := prev;
    var row := next[expertIndex][altIndex][criteriaIndex := value];
    next := next[expertIndex := next[expertIndex][altIndex := row]];
  }

  /** An edit keeps the matrices covering the counts, so the next calculation still reads
      every cell it needs. */
  lemma EditsKeepCover(prev: seq<seq<string>>, next: seq<seq<string>>,
                       numExperts: nat, numCriteria: nat)
    requires |next| == |prev| && forall k :: 0 <= k < |prev| ==> |next[k]| == |prev[k]|
    ensures Aras.Covers2(prev, numExperts, numCriteria) ==> Aras.Covers2(next, numExperts, numCriteria)
  {
  }
}
