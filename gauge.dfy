/**
 * `create_progress_bar(percent, length=10)`: a text gauge of `length`
 * cells, the first `int(length * percent / 100)` of them filled.
 */
module Gauge {

  const FilledCell: char := '\U{2588}'  // █
  const EmptyCell: char := '\U{2591}'   // ░
  const DefaultLength: nat := 10

  /** Python's `int()` on a number: truncation toward zero. */
  function Trunc(x: real): (n: int)
    ensures 0.0 <= x ==> n as real <= x < n as real + 1.0
    ensures x < 0.0 ==> n as real - 1.0 < x <= n as real
  {
    if 0.0 <= x then x.Floor else -((-x).Floor)
  }

  /** Python's `c * n` on a one-character string: `n` copies, none when `n <= 0`. */
  function Repeat(c: char, n: int): (r: string)
    ensures |r| == if n <= 0 then 0 else n
    ensures forall k :: 0 <= k < |r| ==> r[k] == c
  {
    if n <= 0 then [] else seq(n, _ => c)
  }

  /** The number of filled cells: `int(length * percent / 100)`. */
  function FilledCount(percent: real, length: nat): (n: int)
    ensures 0.0 <= percent ==> 0 <= n
    ensures percent <= 100.0 ==> n <= length
  {
    Trunc(length as real * percent / 100.0)
  }

  /** `create_progress_bar`: never shorter than `length`, and made of the two cell characters only. */
  function ProgressBar(percent: real, length: nat): (r: string)
    ensures |r| >= length
    ensures forall k :: 0 <= k < |r| ==> r[k] == FilledCell || r[k] == EmptyCell
  {
    var filled := FilledCount(percent, length);
    Repeat(FilledCell, filled) + Repeat(EmptyCell, length - filled)
  }

  /** For a percentage in [0, 100] the count is the floor and lies in [0, length]. */
  lemma FilledCountInRange(percent: real, length: nat)
    requires 0.0 <= percent <= 100.0
    ensures FilledCount(percent, length) == (length as real * percent / 100.0).Floor
    ensures 0 <= FilledCount(percent, length) <= length
  {
    var x := length as real * percent / 100.0;
    assert 0.0 <= length as real * percent <= length as real * 100.0;
    assert 0.0 <= x <= length as real;
  }

  /**
   * For a percentage in [0, 100] the bar has exactly `length` cells: the first
   * `floor(length * percent / 100)` filled, every later one empty.
   */
  lemma ProgressBarShape(percent: real, length: nat)
    requires 0.0 <= percent <= 100.0
    ensures |ProgressBar(percent, length)| == length
    ensures forall k :: 0 <= k < length ==>
      (ProgressBar(percent, length)[k] == FilledCell <==> k < (length as real * percent / 100.0).Floor)
    ensures forall k :: 0 <= k < length ==>
      (ProgressBar(percent, length)[k] == EmptyCell <==> (length as real * percent / 100.0).Floor <= k)
  {
    FilledCountInRange(percent, length);
    var f := FilledCount(percent, length);
    var bar := ProgressBar(percent, length);
    assert forall k :: 0 <= k < f ==> bar[k] == FilledCell;
    assert forall k :: f <= k < length ==> bar[k] == Repeat(EmptyCell, length - f)[k - f];
  }

  /** Whatever the percentage, no empty cell comes before a filled one. */
  lemma FilledBeforeEmpty(percent: real, length: nat, i: nat, j: nat)
    requires i < j < |ProgressBar(percent, length)|
    requires ProgressBar(percent, length)[j] == FilledCell
    ensures ProgressBar(percent, length)[i] == FilledCell
  {
    var f := FilledCount(percent, length);
    var full, rest := Repeat(FilledCell, f), Repeat(EmptyCell, length - f);
    assert forall k :: |full| <= k < |full| + |rest| ==> ProgressBar(percent, length)[k] == rest[k - |full|];
  }

  /** More percent never fills fewer cells. */
  lemma FilledCountMonotone(p: real, q: real, length: nat)
    requires p <= q
    ensures FilledCount(p, length) <= FilledCount(q, length)
  {
    var x, y := length as real * p / 100.0, length as real * q / 100.0;
    assert length as real * p <= length as real * q;
    assert x <= y;
  }

  /**
   * Outside [0, 100] the bar is longer than `length`: above 100 it has the
   * whole truncated count of filled cells, below 0 extra empty cells.
   */
  lemma ProgressBarOverflow(percent: real, length: nat)
    ensures FilledCount(percent, length) > length ==>
      |ProgressBar(percent, length)| == FilledCount(percent, length)
    ensures FilledCount(percent, length) < 0 ==>
      |ProgressBar(percent, length)| == length - FilledCount(percent, length)
  {
  }

  /** 150 % draws fifteen filled cells instead of ten. */
  lemma ExampleOverflow()
    ensures |ProgressBar(150.0, DefaultLength)| == 15
  {
    assert FilledCount(150.0, DefaultLength) == 15;
  }

  /** 45 % with the default length: four filled, six empty. */
  lemma ExampleDefault()
    ensures ProgressBar(45.0, DefaultLength) == Repeat(FilledCell, 4) + Repeat(EmptyCell, 6)
  {
    assert FilledCount(45.0, DefaultLength) == 4;
  }
}
