/** The array helpers of src/utils.ts:61-136: filled 2-D and 3-D arrays, resizing a
    label list, and resizing 2-D and 3-D arrays while keeping the cells that still fit. */
module Reshape {

  function Min(a: nat, b: nat): nat {
    if a < b then a else b
  }

  /** `create2DArray`: `rows` rows of `cols` copies of `fill`. */
  function Create2DArray<T>(rows: nat, cols: nat, fill: T): (r: seq<seq<T>>)
    ensures |r| == rows
    ensures forall i :: 0 <= i < rows ==> |r[i]| == cols
    ensures forall i, j :: 0 <= i < rows && 0 <= j < cols ==> r[i][j] == fill
  {
    seq(rows, _ => seq(cols, _ => fill))
  }

  /** `create3DArray`: a `d1` by `d2` by `d3` block of `fill`. */
  function Create3DArray<T>(d1: nat, d2: nat, d3: nat, fill: T): (r: seq<seq<seq<T>>>)
    ensures |r| == d1
    ensures forall i :: 0 <= i < d1 ==> |r[i]| == d2
    ensures forall i, j :: 0 <= i < d1 && 0 <= j < d2 ==> |r[i][j]| == d3
    ensures forall i, j, k :: 0 <= i < d1 && 0 <= j < d2 && 0 <= k < d3 ==> r[i][j][k] == fill
  {
    seq(d1, _ => Create2DArray(d2, d3, fill))
  }

  // ---------------------------------------------------------------------------------
  // Labels

  function DigitChar(d: nat): char
    requires d < 10
  {
    "0123456789"[d]
  }

  /** The decimal text JavaScript writes for a non-negative integer in a template literal. */
  function NatToString(n: nat): (s: string)
    ensures |s| > 0
  {
    if n < 10 then [DigitChar(n)] else NatToString(n / 10) + [DigitChar(n % 10)]
  }

  /** Reads a string of decimal digits back as a number. */
  function DigitsValue(s: string): int {
    if s == [] then 0 else DigitsValue(s[..|s| - 1]) * 10 + (s[|s| - 1] as int - '0' as int)
  }

  /** Reading back the decimal text of `n` gives `n`. */
  lemma {:induction false} NatToStringRoundTrip(n: nat)
    ensures DigitsValue(NatToString(n)) == n
  {
    if n >= 10 {
      NatToStringRoundTrip(n / 10);
      var s := NatToString(n);
      assert s[..|s| - 1] == NatToString(n / 10);
    }
  }

  lemma NatToStringInjective(a: nat, b: nat)
    requires NatToString(a) == NatToString(b)
    ensures a == b
  {
    NatToStringRoundTrip(a);
    NatToStringRoundTrip(b);
  }

  /** The label a new slot `i` (0-based) receives: `${prefix} ${i + 1}`. */
  function DefaultLabel(prefix: string, i: nat): string {
    prefix + " " + NatToString(i + 1)
  }

  /** `resizeLabels`: exactly `newCount` labels; slot `i` keeps `prevLabels[i]` where
      that exists and otherwise gets its default label. */
  function ResizeLabels(prevLabels: seq<string>, newCount: nat, prefix: string): (r: seq<string>)
    ensures |r| == newCount
    ensures forall i :: 0 <= i < newCount && i < |prevLabels| ==> r[i] == prevLabels[i]
    ensures forall i :: |prevLabels| <= i < newCount ==> r[i] == DefaultLabel(prefix, i)
  {
    seq(newCount, i requires 0 <= i < newCount =>
      if i < |prevLabels| then prevLabels[i] else DefaultLabel(prefix, i))
  }

  /** Fresh default labels (those of `resizeLabels([], n, prefix)`) are pairwise distinct. */
  lemma DefaultLabelsDistinct(n: nat, prefix: string, i: nat, j: nat)
    requires i < j < n
    ensures ResizeLabels([], n, prefix)[i] != ResizeLabels([], n, prefix)[j]
  {
    var a, b := DefaultLabel(prefix, i), DefaultLabel(prefix, j);
    if a == b {
      var p := |prefix + " "|;
      assert a[p..] == NatToString(i + 1);
      assert b[p..] == NatToString(j + 1);
      NatToStringInjective(i + 1, j + 1);
    }
  }

  /** Resizing the labels to their own count changes nothing. */
  lemma ResizeLabelsIdentity(prevLabels: seq<string>, prefix: string)
    ensures ResizeLabels(prevLabels, |prevLabels|, prefix) == prevLabels
  {
  }

  /** Growing the label list and shrinking it back restores it. */
  lemma ResizeLabelsGrowShrink(prevLabels: seq<string>, newCount: nat, prefix: string)
    requires |prevLabels| <= newCount
    ensures ResizeLabels(ResizeLabels(prevLabels, newCount, prefix), |prevLabels|, prefix)
            == prevLabels
  {
  }

  // ---------------------------------------------------------------------------------
  // 2-D arrays

  /** `prevArray[0]?.length || 0`. */
  function Width<T>(prev: seq<seq<T>>): nat {
    if |prev| > 0 then |prev[0]| else 0
  }

  /** Every row that `resize2DArray` copies from holds the columns it copies (the source
      would read `undefined` otherwise). */
  predicate Copyable2<T>(prev: seq<seq<T>>, newRows: nat, newCols: nat) {
    forall r :: 0 <= r < |prev| && r < newRows ==> Min(newCols, Width(prev)) <= |prev[r]|
  }

  /** Every row has exactly `width` cells. */
  predicate Rectangular<T>(prev: seq<seq<T>>, width: nat) {
    forall r :: 0 <= r < |prev| ==> |prev[r]| == width
  }

  /** The array `resize2DArray` returns: the requested shape, the overlap with `prev`
      copied, every other cell `fill`. */
  function Resized2<T>(prev: seq<seq<T>>, newRows: nat, newCols: nat, fill: T): (r: seq<seq<T>>)
    requires Copyable2(prev, newRows, newCols)
    ensures |r| == newRows
    ensures forall a :: 0 <= a < newRows ==> |r[a]| == newCols
    ensures forall a, b :: 0 <= a < newRows && 0 <= b < newCols ==>
      r[a][b] == if a < |prev| && b < Width(prev) then prev[a][b] else fill
  {
    var rows, cols := Min(newRows, |prev|), Min(newCols, Width(prev));
    seq(newRows, a requires 0 <= a < newRows =>
      seq(newCols, b requires 0 <= b < newCols =>
        if a < rows && b < cols then prev[a][b] else fill))
  }

  /** `resize2DArray`: starts from `create2DArray(newRows, newCols, fill)` and copies the
      overlap cell by cell. */
  method Resize2DArray<T>(prev: seq<seq<T>>, newRows: nat, newCols: nat, fill: T)
    returns (r: seq<seq<T>>)
    requires Copyable2(prev, newRows, newCols)
    ensures r == Resized2(prev, newRows, newCols, fill)
  {
    r := Create2DArray(newRows, newCols, fill);
    var rowsToCopy := Min(newRows, |prev|);
    var colsToCopy := Min(newCols, Width(prev));
    for row := 0 to rowsToCopy
      invariant |r| == newRows
      invariant forall a :: 0 <= a < newRows ==> |r[a]| == newCols
      invariant forall a, b :: 0 <= a < newRows && 0 <= b < newCols ==>
        r[a][b] == if a < row && b < colsToCopy then prev[a][b] else fill
    {
      for col := 0 to colsToCopy
        invariant |r| == newRows
        invariant forall a :: 0 <= a < newRows ==> |r[a]| == newCols
        invariant forall a, b :: 0 <= a < newRows && 0 <= b < newCols ==>
          r[a][b] == if (a < row && b < colsToCopy) || (a == row && b < col) then prev[a][b] else fill
      {
        r := r[row := r[row][col := prev[row][col]]];
      }
    }
    ghost var want := Resized2(prev, newRows, newCols, fill);
    forall a | 0 <= a < newRows ensures r[a] == want[a] {
    }
  }

  /** A rectangular array can be resized to any shape. */
  lemma RectangularCopyable2<T>(prev: seq<seq<T>>, width: nat, newRows: nat, newCols: nat)
    requires Rectangular(prev, width)
    ensures Copyable2(prev, newRows, newCols)
  {
  }

  /** Resizing a rectangular array to its own shape returns it unchanged. */
  lemma Resize2Identity<T>(prev: seq<seq<T>>, width: nat, fill: T)
    requires Rectangular(prev, width)
    ensures Copyable2(prev, |prev|, width)
    ensures Resized2(prev, |prev|, width, fill) == prev
  {
    var r := Resized2(prev, |prev|, width, fill);
    forall a | 0 <= a < |prev| ensures r[a] == prev[a] {
    }
  }

  /** Growing a rectangular array and shrinking it back to its shape restores it. */
  lemma Resize2GrowShrink<T>(prev: seq<seq<T>>, width: nat, newRows: nat, newCols: nat, fill: T)
    requires Rectangular(prev, width)
    requires |prev| <= newRows && width <= newCols
    ensures Copyable2(prev, newRows, newCols)
    ensures Copyable2(Resized2(prev, newRows, newCols, fill), |prev|, width)
    ensures Resized2(Resized2(prev, newRows, newCols, fill), |prev|, width, fill) == prev
  {
    var big := Resized2(prev, newRows, newCols, fill);
    RectangularCopyable2(big, newCols, |prev|, width);
    var r := Resized2(big, |prev|, width, fill);
    forall a | 0 <= a < |prev| ensures r[a] == prev[a] {
    }
  }

  // ---------------------------------------------------------------------------------
  // 3-D arrays

  /** `prevArray[0]?.[0]?.length || 0`. */
  function Depth<T>(prev: seq<seq<seq<T>>>): nat {
    if |prev| > 0 && |prev[0]| > 0 then |prev[0][0]| else 0
  }

  /** Every part of `prev` that `resize3DArray` copies from exists (the source would
      throw or read `undefined` otherwise). */
  predicate Copyable3<T>(prev: seq<seq<seq<T>>>, d1: nat, d2: nat, d3: nat) {
    forall i :: 0 <= i < |prev| && i < d1 ==>
      Min(d2, Width(prev)) <= |prev[i]| &&
      forall j :: 0 <= j < Min(d2, Width(prev)) ==> Min(d3, Depth(prev)) <= |prev[i][j]|
  }

  /** Every block of `prev` is `d2` rows of `d3` cells. */
  predicate Cuboid<T>(prev: seq<seq<seq<T>>>, d2: nat, d3: nat) {
    forall i :: 0 <= i < |prev| ==>
      |prev[i]| == d2 && forall j :: 0 <= j < d2 ==> |prev[i][j]| == d3
  }

  /** The array `resize3DArray` returns: the requested shape, the overlap with `prev`
      copied, every other cell `fill`. */
  function Resized3<T>(prev: seq<seq<seq<T>>>, d1: nat, d2: nat, d3: nat, fill: T)
    : (r: seq<seq<seq<T>>>)
    requires Copyable3(prev, d1, d2, d3)
    ensures |r| == d1
    ensures forall i :: 0 <= i < d1 ==> |r[i]| == d2
    ensures forall i, j :: 0 <= i < d1 && 0 <= j < d2 ==> |r[i][j]| == d3
    ensures forall i, j, k :: 0 <= i < d1 && 0 <= j < d2 && 0 <= k < d3 ==>
      r[i][j][k] ==
        if i < |prev| && j < Width(prev) && k < Depth(prev) then prev[i][j][k] else fill
  {
    var n1, n2, n3 := Min(d1, |prev|), Min(d2, Width(prev)), Min(d3, Depth(prev));
    seq(d1, i requires 0 <= i < d1 =>
      seq(d2, j requires 0 <= j < d2 =>
        seq(d3, k requires 0 <= k < d3 =>
          if i < n1 && j < n2 && k < n3 then prev[i][j][k] else fill)))
  }

  /** `resize3DArray`: starts from `create3DArray(d1, d2, d3, fill)` and copies the overlap
      cell by cell. */
  method Resize3DArray<T>(prev: seq<seq<seq<T>>>, d1: nat, d2: nat, d3: nat, fill: T)
    returns (r: seq<seq<seq<T>>>)
    requires Copyable3(prev, d1, d2, d3)
    ensures r == Resized3(prev, d1, d2, d3, fill)
  {
    r := Create3DArray(d1, d2, d3, fill);
    var d1ToCopy := Min(d1, |prev|);
    var d2ToCopy := Min(d2, Width(prev));
    var d3ToCopy := Min(d3, Depth(prev));
    for i := 0 to d1ToCopy
      invariant |r| == d1
      invariant forall a :: 0 <= a < d1 ==> |r[a]| == d2
      invariant forall a, b :: 0 <= a < d1 && 0 <= b < d2 ==> |r[a][b]| == d3
      invariant forall a, b, c :: 0 <= a < d1 && 0 <= b < d2 && 0 <= c < d3 ==>
        r[a][b][c] == if a < i && b < d2ToCopy && c < d3ToCopy then prev[a][b][c] else fill
    {
      for j := 0 to d2ToCopy
        invariant |r| == d1
        invariant forall a :: 0 <= a < d1 ==> |r[a]| == d2
        invariant forall a, b :: 0 <= a < d1 && 0 <= b < d2 ==> |r[a][b]| == d3
        invariant forall a, b, c :: 0 <= a < d1 && 0 <= b < d2 && 0 <= c < d3 ==>
          r[a][b][c] ==
            if (a < i || (a == i && b < j)) && b < d2ToCopy && c < d3ToCopy then prev[a][b][c]
            else fill
      {
        for k := 0 to d3ToCopy
          invariant |r| == d1
          invariant forall a :: 0 <= a < d1 ==> |r[a]| == d2
          invariant forall a, b :: 0 <= a < d1 && 0 <= b < d2 ==> |r[a][b]| == d3
          invariant forall a, b, c :: 0 <= a < d1 && 0 <= b < d2 && 0 <= c < d3 ==>
            r[a][b][c] ==
              if ((a < i || (a == i && b < j)) && b < d2ToCopy && c < d3ToCopy)
                 || (a == i && b == j && c < k)
              then prev[a][b][c] else fill
        {
          r := r[i := r[i][j := r[i][j][k := prev[i][j][k]]]];
        }
      }
    }
    ghost var want := Resized3(prev, d1, d2, d3, fill);
    forall a | 0 <= a < d1 ensures r[a] == want[a] {
      forall b | 0 <= b < d2 ensures r[a][b] == want[a][b] {
      }
    }
  }

  /** A cuboid array can be resized to any shape. */
  lemma CuboidCopyable3<T>(prev: seq<seq<seq<T>>>, w: nat, h: nat, d1: nat, d2: nat, d3: nat)
    requires Cuboid(prev, w, h)
    ensures Copyable3(prev, d1, d2, d3)
  {
  }

  /** Resizing a cuboid array to its own shape returns it unchanged. */
  lemma Resize3Identity<T>(prev: seq<seq<seq<T>>>, d2: nat, d3: nat, fill: T)
    requires Cuboid(prev, d2, d3)
    ensures Copyable3(prev, |prev|, d2, d3)
    ensures Resized3(prev, |prev|, d2, d3, fill) == prev
  {
    var r := Resized3(prev, |prev|, d2, d3, fill);
    forall i | 0 <= i < |prev| ensures r[i] == prev[i] {
      forall j | 0 <= j < d2 ensures r[i][j] == prev[i][j] {
      }
    }
  }

  /** Growing a cuboid array and shrinking it back to its shape restores it. */
  lemma Resize3GrowShrink<T>(prev: seq<seq<seq<T>>>, d2: nat, d3: nat,
                             n1: nat, n2: nat, n3: nat, fill: T)
    requires Cuboid(prev, d2, d3)
    requires |prev| <= n1 && d2 <= n2 && d3 <= n3
    ensures Copyable3(prev, n1, n2, n3)
    ensures Copyable3(Resized3(prev, n1, n2, n3, fill), |prev|, d2, d3)
    ensures Resized3(Resized3(prev, n1, n2, n3, fill), |prev|, d2, d3, fill) == prev
  {
    var big := Resized3(prev, n1, n2, n3, fill);
    CuboidCopyable3(big, n2, n3, |prev|, d2, d3);
    var r := Resized3(big, |prev|, d2, d3, fill);
    forall i | 0 <= i < |prev| ensures r[i] == prev[i] {
      forall j | 0 <= j < d2 ensures r[i][j] == prev[i][j] {
      }
    }
  }
}
