/**
 * The weekly heatmap (src/components/charts/Heatmap.tsx): a 7 x 24 matrix of
 * average consumption by day of week and hour, filled in place from the rows,
 * with the smallest and largest value written, and the cell colour derived
 * from them.
 */
module Heatmap {
  import opened Wrappers
  import opened Records
  import opened Statistics

  const Days: int := 7
  const Hours: int := 24

  /**
   * ISO day 7 (Sunday) becomes 0; every other day number is kept. Exactly the
   * day numbers 0 to 7 land on a row of the matrix; ISO 7 and 0 both mean Sunday.
   */
  function DayIndex(day: int): (d: int)
    ensures 0 <= d < Days <==> 0 <= day <= 7
    ensures 0 <= day < Days ==> d == day
    ensures day == 7 ==> d == 0
  {
    if 1 <= day <= 7 then (if day == 7 then 0 else day) else day
  }

  /** Distinct ISO days (1 to 7) get distinct rows. */
  lemma DayIndexInjective(a: int, b: int)
    requires 1 <= a <= 7 && 1 <= b <= 7 && DayIndex(a) == DayIndex(b)
    ensures a == b
  {
  }

  /** An entry with all three fields present whose (mapped) day and hour fall inside the matrix. */
  predicate Accepted(e: HeatmapCell) {
    && e.dayOfWeek.Some? && e.hour.Some? && e.avgKwh.Some?
    && 0 <= DayIndex(e.dayOfWeek.value) < Days && 0 <= e.hour.value < Hours
  }

  /** The accepted entry writes the cell (day, hour). */
  predicate WritesCell(e: HeatmapCell, day: int, hour: int) {
    Accepted(e) && DayIndex(e.dayOfWeek.value) == day && e.hour.value == hour
  }

  /** The values of the accepted entries, in input order. */
  function AcceptedValues(data: seq<HeatmapCell>): (vs: seq<real>)
    ensures |vs| <= |data|
  {
    if data == [] then []
    else
      var e := data[|data| - 1];
      AcceptedValues(data[..|data| - 1]) + (if Accepted(e) then [e.avgKwh.value] else [])
  }

  /** The value of the last accepted entry for (day, hour), if there is one. */
  function LastAt(data: seq<HeatmapCell>, day: int, hour: int): Option<real> {
    if data == [] then None
    else
      var e := data[|data| - 1];
      if WritesCell(e, day, hour) then Some(e.avgKwh.value) else LastAt(data[..|data| - 1], day, hour)
  }

  /** The matrix entry the loop leaves at (day, hour): the last accepted value there, or the initial 0. */
  function CellValue(data: seq<HeatmapCell>, day: int, hour: int): real {
    LastAt(data, day, hour).GetOr(0.0)
  }

  /** Math.min over the accepted values starting from Infinity (None stands for the sentinel). */
  function Lowest(vs: seq<real>): Option<real> {
    if vs == [] then None else Some(MinOf(vs))
  }

  /** Math.max over the accepted values starting from -Infinity. */
  function Highest(vs: seq<real>): Option<real> {
    if vs == [] then None else Some(MaxOf(vs))
  }

  /** `minVal` after the sentinel is replaced by 0. */
  function MinVal(data: seq<HeatmapCell>): real {
    Lowest(AcceptedValues(data)).GetOr(0.0)
  }

  /** `maxVal` after the sentinel is replaced by 0. */
  function MaxVal(data: seq<HeatmapCell>): real {
    Highest(AcceptedValues(data)).GetOr(0.0)
  }

  function Min(a: real, b: real): real {
    if a <= b then a else b
  }

  function Max(a: real, b: real): real {
    if a >= b then a else b
  }

  /** Appending a value updates the running minimum like Math.min(minVal, value). */
  lemma LowestAppend(vs: seq<real>, x: real)
    ensures Lowest(vs + [x]) == Some(if vs == [] then x else Min(MinOf(vs), x))
  {
    var ws := vs + [x];
    var m := if vs == [] then x else Min(MinOf(vs), x);
    forall i | 0 <= i < |ws| ensures m <= ws[i] {
      if i < |vs| {
        assert ws[i] == vs[i];
      }
    }
    if vs == [] || x <= MinOf(vs) {
      assert ws[|vs|] == m;
    } else {
      var j :| 0 <= j < |vs| && vs[j] == MinOf(vs);
      assert ws[j] == m;
    }
    MinOfUnique(ws, m);
  }

  /** Appending a value updates the running maximum like Math.max(maxVal, value). */
  lemma HighestAppend(vs: seq<real>, x: real)
    ensures Highest(vs + [x]) == Some(if vs == [] then x else Max(MaxOf(vs), x))
  {
    var ws := vs + [x];
    var m := if vs == [] then x else Max(MaxOf(vs), x);
    forall i | 0 <= i < |ws| ensures ws[i] <= m {
      if i < |vs| {
        assert ws[i] == vs[i];
      }
    }
    if vs == [] || x >= MaxOf(vs) {
      assert ws[|vs|] == m;
    } else {
      var j :| 0 <= j < |vs| && vs[j] == MaxOf(vs);
      assert ws[j] == m;
    }
    MaxOfUnique(ws, m);
  }

  /**
   * The useMemo body: a fresh 7 x 24 matrix of zeros, each accepted entry
   * written into its own cell in input order, and the running min and max.
   */
  method BuildHeatmap(data: seq<HeatmapCell>) returns (matrix: array2<real>, minVal: real, maxVal: real)
    ensures fresh(matrix) && matrix.Length0 == Days && matrix.Length1 == Hours
    ensures forall d, h :: 0 <= d < Days && 0 <= h < Hours ==> matrix[d, h] == CellValue(data, d, h)
    ensures minVal == MinVal(data) && maxVal == MaxVal(data)
  {
    matrix := new real[Days, Hours]((d, h) => 0.0);
    var lo: Option<real> := None;
    var hi: Option<real> := None;
    var i := 0;
    while i < |data|
      invariant 0 <= i <= |data|
      invariant forall d, h :: 0 <= d < Days && 0 <= h < Hours ==> matrix[d, h] == CellValue(data[..i], d, h)
      invariant lo == Lowest(AcceptedValues(data[..i])) && hi == Highest(AcceptedValues(data[..i]))
    {
      assert data[..i + 1] == data[..i] + [data[i]];
      lo, hi := ApplyEntry(matrix, data[..i], data[i], lo, hi);
      i := i + 1;
    }
    assert data[..i] == data;
    minVal := if lo.None? then 0.0 else lo.value;
    maxVal := if hi.None? then 0.0 else hi.value;
  }

  /**
   * One turn of the forEach: an accepted entry is written into its cell and
   * folded into the running min and max; any other entry is skipped.
   */
  method ApplyEntry(matrix: array2<real>, done: seq<HeatmapCell>, e: HeatmapCell, lo: Option<real>, hi: Option<real>)
    returns (lo': Option<real>, hi': Option<real>)
    requires matrix.Length0 == Days && matrix.Length1 == Hours
    requires forall d, h :: 0 <= d < Days && 0 <= h < Hours ==> matrix[d, h] == CellValue(done, d, h)
    requires lo == Lowest(AcceptedValues(done)) && hi == Highest(AcceptedValues(done))
    modifies matrix
    ensures forall d, h :: 0 <= d < Days && 0 <= h < Hours ==> matrix[d, h] == CellValue(done + [e], d, h)
    ensures lo' == Lowest(AcceptedValues(done + [e])) && hi' == Highest(AcceptedValues(done + [e]))
  {
    lo', hi' := lo, hi;
    if e.dayOfWeek.Some? && e.hour.Some? && e.avgKwh.Some? {
      var dayIndex := e.dayOfWeek.value;
      if dayIndex >= 1 && dayIndex <= 7 {
        dayIndex := if dayIndex == 7 then 0 else dayIndex;
      }
      var hourIndex := e.hour.value;
      assert dayIndex == DayIndex(e.dayOfWeek.value);
      if dayIndex >= 0 && dayIndex < Days && hourIndex >= 0 && hourIndex < Hours {
        var v := e.avgKwh.value;
        label BeforeWrite:
        matrix[dayIndex, hourIndex] := v;
        AcceptedEntryWritesOwnCell(done, e);
        forall d, h | 0 <= d < Days && 0 <= h < Hours ensures matrix[d, h] == CellValue(done + [e], d, h) {
          if d != dayIndex || h != hourIndex {
            assert matrix[d, h] == old@BeforeWrite(matrix[d, h]);
          }
        }
        LowestAppend(AcceptedValues(done), v);
        HighestAppend(AcceptedValues(done), v);
        lo' := Some(if lo.None? then v else Min(lo.value, v));
        hi' := Some(if hi.None? then v else Max(hi.value, v));
      } else {
        SkippedEntryIgnored(done, e);
      }
    } else {
      SkippedEntryIgnored(done, e);
    }
  }

  // ---------------------------------------------------------------------------
  // What the matrix and the bounds satisfy

  /** A skipped entry (a field missing, or out of range) changes neither the matrix nor the bounds. */
  lemma SkippedEntryIgnored(data: seq<HeatmapCell>, e: HeatmapCell)
    requires !Accepted(e)
    ensures AcceptedValues(data + [e]) == AcceptedValues(data)
    ensures forall d, h :: CellValue(data + [e], d, h) == CellValue(data, d, h)
    ensures MinVal(data + [e]) == MinVal(data) && MaxVal(data + [e]) == MaxVal(data)
  {
    assert (data + [e])[..|data|] == data;
  }

  /** An accepted entry adds its value to the accepted ones, and writes its own cell and no other. */
  lemma AcceptedEntryWritesOwnCell(data: seq<HeatmapCell>, e: HeatmapCell)
    requires Accepted(e)
    ensures AcceptedValues(data + [e]) == AcceptedValues(data) + [e.avgKwh.value]
    ensures forall d, h :: CellValue(data + [e], d, h) ==
              (if d == DayIndex(e.dayOfWeek.value) && h == e.hour.value then e.avgKwh.value else CellValue(data, d, h))
  {
    assert (data + [e])[..|data|] == data;
  }

  /** A value the last write left in a cell is one of the accepted values. */
  lemma {:induction false} LastAtAccepted(data: seq<HeatmapCell>, d: int, h: int)
    requires LastAt(data, d, h).Some?
    ensures LastAt(data, d, h).value in AcceptedValues(data)
  {
    var e := data[|data| - 1];
    if !WritesCell(e, d, h) {
      LastAtAccepted(data[..|data| - 1], d, h);
    }
  }

  /** The bounds are ordered, and every written cell lies between them. */
  lemma BoundsEnclose(data: seq<HeatmapCell>, d: int, h: int)
    ensures MinVal(data) <= MaxVal(data)
    ensures LastAt(data, d, h).Some? ==> MinVal(data) <= CellValue(data, d, h) <= MaxVal(data)
  {
    var vs := AcceptedValues(data);
    if vs != [] {
      assert MinOf(vs) <= vs[0] <= MaxOf(vs);
    }
    if LastAt(data, d, h).Some? {
      LastAtAccepted(data, d, h);
    }
  }

  /** With no accepted entry the matrix stays all zeros and both bounds are 0. */
  lemma {:induction false} NothingAccepted(data: seq<HeatmapCell>, d: int, h: int)
    requires forall k :: 0 <= k < |data| ==> !Accepted(data[k])
    ensures AcceptedValues(data) == [] && CellValue(data, d, h) == 0.0
    ensures MinVal(data) == 0.0 && MaxVal(data) == 0.0
  {
    if data != [] {
      var init := data[..|data| - 1];
      assert forall k :: 0 <= k < |init| ==> init[k] == data[k];
      NothingAccepted(init, d, h);
    }
  }

  /** Cells outside the matrix are never written. */
  lemma {:induction false} OutsideNeverWritten(data: seq<HeatmapCell>, d: int, h: int)
    requires !(0 <= d < Days && 0 <= h < Hours)
    ensures LastAt(data, d, h).None?
  {
    if data != [] {
      OutsideNeverWritten(data[..|data| - 1], d, h);
    }
  }

  // ---------------------------------------------------------------------------
  // getColor

  datatype Color = Muted | Teal(lightness: real)

  /** The muted colour for 0 or a flat range; otherwise lightness 85 - 45 * (value - min) / (max - min). */
  function GetColor(value: real, minVal: real, maxVal: real): (c: Color)
    ensures c.Muted? <==> value == 0.0 || maxVal == minVal
  {
    if value == 0.0 || maxVal == minVal then Muted
    else
      var ratio := (value - minVal) / (maxVal - minVal);
      Teal(85.0 - ratio * 45.0)
  }

  /** Teal lightness runs from 85 at the minimum to 40 at the maximum, never leaving [40, 85]. */
  lemma ColorRange(value: real, minVal: real, maxVal: real)
    requires minVal <= value <= maxVal && GetColor(value, minVal, maxVal).Teal?
    ensures 40.0 <= GetColor(value, minVal, maxVal).lightness <= 85.0
    ensures value == minVal ==> GetColor(value, minVal, maxVal).lightness == 85.0
    ensures value == maxVal ==> GetColor(value, minVal, maxVal).lightness == 40.0
  {
    var ratio := (value - minVal) / (maxVal - minVal);
    RatioInUnit(value - minVal, maxVal - minVal);
    if value == maxVal {
      assert ratio * (maxVal - minVal) == maxVal - minVal;
      assert ratio == 1.0;
    }
  }

  /** 0 <= a / b <= 1 for 0 <= a <= b with b > 0. */
  lemma RatioInUnit(a: real, b: real)
    requires 0.0 <= a <= b && b > 0.0
    ensures 0.0 <= a / b <= 1.0
  {
  }

  /** Fractions over one denominator add numerators. */
  lemma DivideSum(x: real, y: real, c: real)
    requires c != 0.0
    ensures x / c + y / c == (x + y) / c
  {
  }

  /** A larger value is never lighter: the gradient darkens as consumption grows. */
  lemma ColorMonotone(v1: real, v2: real, minVal: real, maxVal: real)
    requires minVal <= v1 <= v2 <= maxVal
    requires GetColor(v1, minVal, maxVal).Teal? && GetColor(v2, minVal, maxVal).Teal?
    ensures GetColor(v2, minVal, maxVal).lightness <= GetColor(v1, minVal, maxVal).lightness
  {
    RatioInUnit(v2 - v1, maxVal - minVal);
    DivideSum(v1 - minVal, v2 - v1, maxVal - minVal);
  }
}
