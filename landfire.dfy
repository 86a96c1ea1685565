/**
 * Landfire200.calculate_height: turn the LANDFIRE 2.0.0 existing-vegetation-height (EVH)
 * code raster into a height raster. A table gives every EVH class a height, the mean of the
 * numbers in its CLASSNAMES text or 0 when it has none; each cell then takes the height of
 * its code, and 0 when the code is not in the table. The raster is a flat array of cells.
 */
module Landfire {

  /** One row of the EVH csv, indexed by its VALUE code. */
  datatype VegClass = VegClass(value: int, classNames: string)

  function Sum(xs: seq<real>): real {
    if |xs| == 0 then 0.0 else xs[0] + Sum(xs[1..])
  }

  /** np.mean */
  function Mean(xs: seq<real>): real
    requires |xs| > 0
  {
    Sum(xs) / (|xs| as real)
  }

  /** A class's height: 0 when its name yields no number, else the mean of the numbers it yields. */
  function ClassHeight(nums: seq<real>): real {
    if |nums| == 0 then 0.0 else Mean(nums)
  }

  lemma {:induction false} SumBounds(xs: seq<real>, lo: real, hi: real)
    requires forall k :: 0 <= k < |xs| ==> lo <= xs[k] <= hi
    ensures lo * (|xs| as real) <= Sum(xs) <= hi * (|xs| as real)
  {
    if |xs| > 0 {
      SumBounds(xs[1..], lo, hi);
    }
  }

  /** The mean lies between the smallest and the largest number: a height is never outside the range its class name states. */
  lemma MeanWithinRange(xs: seq<real>, lo: real, hi: real)
    requires |xs| > 0
    requires forall k :: 0 <= k < |xs| ==> lo <= xs[k] <= hi
    ensures lo <= Mean(xs) <= hi
  {
    SumBounds(xs, lo, hi);
    var n := |xs| as real;
    assert Mean(xs) * n == Sum(xs);
  }

  /** A class whose name states a single number gets exactly that number. */
  lemma SingleNumberHeight(x: real)
    ensures ClassHeight([x]) == x
  {
    assert Sum([x]) == x + Sum([]);
  }

  /** The table's height column: one height per row, from the numbers found in its CLASSNAMES. */
  function HeightTable(rows: seq<VegClass>, numbers: string -> seq<real>): (heights: seq<real>)
    ensures |heights| == |rows|
  {
    seq(|rows|, i requires 0 <= i < |rows| => ClassHeight(numbers(rows[i].classNames)))
  }

  /** veg_df.loc[code, 'height'] when the code is in the index (the first row with that code), and 0 otherwise. */
  function TableHeight(rows: seq<VegClass>, heights: seq<real>, code: int): (h: real)
    requires |heights| == |rows|
    ensures (forall i :: 0 <= i < |rows| ==> rows[i].value != code) ==> h == 0.0
    ensures forall i :: 0 <= i < |rows| && rows[i].value == code && (forall j :: 0 <= j < i ==> rows[j].value != code) ==> h == heights[i]
  {
    if |rows| == 0 then 0.0
    else if rows[0].value == code then heights[0]
    else
      assert forall i :: 1 <= i < |rows| ==> rows[i] == rows[1..][i - 1] && heights[i] == heights[1..][i - 1];
      TableHeight(rows[1..], heights[1..], code)
  }

  /** The reclassified raster: each cell the table height of its code. */
  function Reclassified(cells: seq<int>, rows: seq<VegClass>, heights: seq<real>): (out: seq<real>)
    requires |heights| == |rows|
    ensures |out| == |cells|
  {
    seq(|cells|, c requires 0 <= c < |cells| => TableHeight(rows, heights, cells[c]))
  }

  /** The EVH codes of the table are distinct: VALUE is the table's index. */
  predicate DistinctCodes(rows: seq<VegClass>) {
    forall i, j :: 0 <= i < j < |rows| ==> rows[i].value != rows[j].value
  }

  /** np.unique: every code of the raster once. */
  function Unique(s: seq<int>): (r: seq<int>)
    ensures forall x :: x in r <==> x in s
    ensures forall i, j :: 0 <= i < j < |r| ==> r[i] != r[j]
  {
    if |s| == 0 then []
    else
      var rest := Unique(s[1..]);
      assert forall x :: x in s <==> x == s[0] || x in s[1..];
      if s[0] in rest then rest else [s[0]] + rest
  }

  /**
   * A cell of the output: 0 when its code is not in the table; the height of its code's row
   * otherwise, which is the mean of the numbers that row's name yields, or 0 if it yields none.
   */
  lemma CellHeight(cells: seq<int>, rows: seq<VegClass>, numbers: string -> seq<real>, c: int)
    requires DistinctCodes(rows) && 0 <= c < |cells|
    ensures (forall i :: 0 <= i < |rows| ==> rows[i].value != cells[c]) ==> Reclassified(cells, rows, HeightTable(rows, numbers))[c] == 0.0
    ensures forall i :: 0 <= i < |rows| && rows[i].value == cells[c] ==>
      Reclassified(cells, rows, HeightTable(rows, numbers))[c] == ClassHeight(numbers(rows[i].classNames))
  {
  }

  /** A cell's height depends on its code alone: cells with equal codes get equal heights. */
  lemma EqualCodesEqualHeights(cells: seq<int>, rows: seq<VegClass>, heights: seq<real>, a: int, b: int)
    requires |heights| == |rows| && 0 <= a < |cells| && 0 <= b < |cells| && cells[a] == cells[b]
    ensures Reclassified(cells, rows, heights)[a] == Reclassified(cells, rows, heights)[b]
  {
  }

  /** Landfire200 after calculate_height: the EVH code raster it read and the height raster it made. */
  class Landfire200 {
    var evh: array<int>
    var vegHeight: array<real>

    constructor (evh: array<int>)
      ensures this.evh == evh
      ensures vegHeight.Length == 0
    {
      this.evh := evh;
      vegHeight := new real[0];
    }

    /** calculate_height: the height table, then the reclassified raster, stored as veg_height. */
    method CalculateHeight(rows: seq<VegClass>, numbers: string -> seq<real>)
      modifies this
      ensures evh == old(evh)
      ensures fresh(vegHeight)
      ensures vegHeight[..] == Reclassified(evh[..], rows, HeightTable(rows, numbers))
    {
      var heights := BuildHeightTable(rows, numbers);
      var height := Reclassify(evh, rows, heights);
      vegHeight := height;
    }
  }

  /** veg_df['height'] = 0, then the row loop that sets the mean of each row's numbers. */
  method BuildHeightTable(rows: seq<VegClass>, numbers: string -> seq<real>) returns (heights: array<real>)
    ensures fresh(heights)
    ensures heights[..] == HeightTable(rows, numbers)
  {
    heights := new real[|rows|](_ => 0.0);
    for i := 0 to |rows|
      invariant forall j :: 0 <= j < i ==> heights[j] == ClassHeight(numbers(rows[j].classNames))
      invariant forall j :: i <= j < |rows| ==> heights[j] == 0.0
    {
      var matches := numbers(rows[i].classNames);
      if |matches| > 0 {
        heights[i] := Mean(matches);
      }
    }
  }

  /**
   * The raster loop: start from all zeros, and for each unique code that the table holds,
   * give its height to every cell with that code.
   */
  method Reclassify(raster: array<int>, rows: seq<VegClass>, heights: array<real>) returns (height: array<real>)
    requires heights.Length == |rows|
    ensures fresh(height)
    ensures height[..] == Reclassified(raster[..], rows, heights[..])
  {
    height := new real[raster.Length](_ => 0.0);
    var codes := Unique(raster[..]);
    ghost var done: set<int> := {};
    for u := 0 to |codes|
      invariant forall k :: 0 <= k < u ==> codes[k] in done
      invariant forall c :: 0 <= c < raster.Length ==>
        height[c] == if raster[c] in done then TableHeight(rows, heights[..], raster[c]) else 0.0
    {
      var code := codes[u];
      if exists k :: 0 <= k < |rows| && rows[k].value == code {
        var h := TableHeight(rows, heights[..], code);
        for c := 0 to raster.Length
          invariant forall c' :: 0 <= c' < raster.Length ==>
            height[c'] == if raster[c'] in done || (c' < c && raster[c'] == code) then TableHeight(rows, heights[..], raster[c']) else 0.0
        {
          if raster[c] == code {
            height[c] := h;
          }
        }
      }
      done := done + {code};
    }
    forall c | 0 <= c < raster.Length
      ensures raster[c] in done
    {
      assert raster[..][c] in codes;
    }
  }
}
