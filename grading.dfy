/**
 * The grading engine of the screener: threshold walks that map a ratio to an ordinal grade
 * (1 best, 6 worst), the substitutions made at the call sites, and the composite grade.
 */
module Grading {
  import opened Options
  import opened Numerics

  /** A bound of the ascending walk: a finite threshold, or `float("inf")`. */
  datatype Bound = At(x: real) | Infinity

  /** `value <= bound`; every real is below infinity. */
  predicate AtMost(value: real, bound: Bound) {
    bound.Infinity? || value <= bound.x
  }

  /** The value fed to the descending walk when a ratio cannot be computed. */
  const Sentinel: real := 100.0
  /** The value fed to the PEG walk when the PEG ratio is falsy. */
  const PegFallback: real := 10.0
  /** The grade given when no threshold matches. */
  const WorstGrade: nat := 6

  /** Thresholds for growth-to-P/E ratios and growth-adjusted P/E ratios, highest first. */
  const GrowthTable: seq<(real, nat)> := [(2.0, 1), (1.7, 2), (1.4, 3), (1.2, 4), (0.85, 5)]
  /** Thresholds for the PEG ratio, lowest first. */
  const PegTable: seq<(Bound, nat)> :=
    [(At(0.0), 6), (At(0.7), 1), (At(1.0), 2), (At(1.2), 3), (At(1.5), 4), (At(1.8), 5), (Infinity, 6)]

  /**
   * `grade_value`: the grade of the first threshold that `value` meets or exceeds, 6 when none
   * does. The sentinel test sits inside the walk, so the sentinel yields `None` only for a
   * non-empty table.
   */
  function GradeValue(value: real, thresholds: seq<(real, nat)>): (g: Option<nat>)
    ensures g.None? <==> value == Sentinel && |thresholds| > 0
  {
    if |thresholds| == 0 then Some(WorstGrade)
    else if value == Sentinel then None
    else if value >= thresholds[0].0 then Some(thresholds[0].1)
    else GradeValue(value, thresholds[1..])
  }

  /** `grade_value2`: the grade of the first bound that `value` does not exceed, 6 when none matches. */
  function GradeValue2(value: real, thresholds: seq<(Bound, nat)>): (g: nat)
    ensures (forall k :: 0 <= k < |thresholds| ==> 1 <= thresholds[k].1 <= WorstGrade) ==> 1 <= g <= WorstGrade
  {
    if |thresholds| == 0 then WorstGrade
    else if AtMost(value, thresholds[0].0) then thresholds[0].1
    else GradeValue2(value, thresholds[1..])
  }

  /** The walk stops at the first threshold met. */
  lemma {:induction false} GradeValueFirstMatch(value: real, thresholds: seq<(real, nat)>, k: nat)
    requires value != Sentinel
    requires k < |thresholds| && value >= thresholds[k].0
    requires forall j :: 0 <= j < k ==> value < thresholds[j].0
    ensures GradeValue(value, thresholds) == Some(thresholds[k].1)
  {
    if k > 0 {
      GradeValueFirstMatch(value, thresholds[1..], k - 1);
    }
  }

  /** A value below every threshold gets the worst grade. */
  lemma {:induction false} GradeValueNoMatch(value: real, thresholds: seq<(real, nat)>)
    requires value != Sentinel
    requires forall j :: 0 <= j < |thresholds| ==> value < thresholds[j].0
    ensures GradeValue(value, thresholds) == Some(WorstGrade)
  {
    if |thresholds| > 0 {
      GradeValueNoMatch(value, thresholds[1..]);
    }
  }

  /** The ascending walk stops at the first bound the value does not exceed. */
  lemma {:induction false} GradeValue2FirstMatch(value: real, thresholds: seq<(Bound, nat)>, k: nat)
    requires k < |thresholds| && AtMost(value, thresholds[k].0)
    requires forall j :: 0 <= j < k ==> !AtMost(value, thresholds[j].0)
    ensures GradeValue2(value, thresholds) == thresholds[k].1
  {
    if k > 0 {
      GradeValue2FirstMatch(value, thresholds[1..], k - 1);
    }
  }

  /** Thresholds strictly decreasing, grades non-decreasing and at most 6: a well-formed descending table. */
  predicate DescendingTable(t: seq<(real, nat)>) {
    && (forall i, j :: 0 <= i < j < |t| ==> t[i].0 > t[j].0 && t[i].1 <= t[j].1)
    && (forall i :: 0 <= i < |t| ==> t[i].1 <= WorstGrade)
  }

  /** Every grade the walk gives lies between the least grade of the table and 6. */
  lemma {:induction false} GradeValueAtLeast(value: real, t: seq<(real, nat)>, lo: nat)
    requires value != Sentinel && lo <= WorstGrade
    requires forall i :: 0 <= i < |t| ==> lo <= t[i].1 <= WorstGrade
    ensures lo <= GradeValue(value, t).value <= WorstGrade
  {
    if |t| > 0 && value < t[0].0 {
      GradeValueAtLeast(value, t[1..], lo);
    }
  }

  /** On a well-formed descending table, a larger value never gets a worse grade. */
  lemma {:induction false} GradeValueAntitone(v1: real, v2: real, t: seq<(real, nat)>)
    requires DescendingTable(t)
    requires v1 <= v2 && v1 != Sentinel && v2 != Sentinel
    ensures GradeValue(v2, t).value <= GradeValue(v1, t).value
  {
    if |t| > 0 {
      if v2 >= t[0].0 {
        GradeValueAtLeast(v1, t, t[0].1);
      } else {
        GradeValueAntitone(v1, v2, t[1..]);
      }
    }
  }

  lemma GrowthTableDescending()
    ensures DescendingTable(GrowthTable)
  {
  }

  /** The growth table in closed form: the grade bands of the descending walk. */
  lemma GrowthGradeBands(v: real)
    ensures GradeValue(v, GrowthTable) ==
      if v == Sentinel then None
      else if v >= 2.0 then Some(1)
      else if v >= 1.7 then Some(2)
      else if v >= 1.4 then Some(3)
      else if v >= 1.2 then Some(4)
      else if v >= 0.85 then Some(5)
      else Some(6)
  {
    var t := GrowthTable;
    if v != Sentinel {
      if v >= 2.0 { GradeValueFirstMatch(v, t, 0); }
      else if v >= 1.7 { GradeValueFirstMatch(v, t, 1); }
      else if v >= 1.4 { GradeValueFirstMatch(v, t, 2); }
      else if v >= 1.2 { GradeValueFirstMatch(v, t, 3); }
      else if v >= 0.85 { GradeValueFirstMatch(v, t, 4); }
      else { GradeValueNoMatch(v, t); }
    }
  }

  /** On the growth table a value that is not the sentinel is graded, and a larger value is never graded worse. */
  lemma GrowthGradeAntitone(v1: real, v2: real)
    requires v1 <= v2 && v1 != Sentinel && v2 != Sentinel
    ensures GradeValue(v1, GrowthTable).Some? && GradeValue(v2, GrowthTable).Some?
    ensures 1 <= GradeValue(v2, GrowthTable).value <= GradeValue(v1, GrowthTable).value <= WorstGrade
  {
    GrowthTableDescending();
    GradeValueAntitone(v1, v2, GrowthTable);
    GradeValueAtLeast(v1, GrowthTable, 1);
    GradeValueAtLeast(v2, GrowthTable, 1);
  }

  /** The PEG table in closed form; it never yields `None` and always a grade from 1 to 6. */
  lemma PegGradeBands(v: real)
    ensures GradeValue2(v, PegTable) ==
      if v <= 0.0 then 6
      else if v <= 0.7 then 1
      else if v <= 1.0 then 2
      else if v <= 1.2 then 3
      else if v <= 1.5 then 4
      else if v <= 1.8 then 5
      else 6
  {
    var t := PegTable;
    if v <= 0.0 { GradeValue2FirstMatch(v, t, 0); }
    else if v <= 0.7 { GradeValue2FirstMatch(v, t, 1); }
    else if v <= 1.0 { GradeValue2FirstMatch(v, t, 2); }
    else if v <= 1.2 { GradeValue2FirstMatch(v, t, 3); }
    else if v <= 1.5 { GradeValue2FirstMatch(v, t, 4); }
    else if v <= 1.8 { GradeValue2FirstMatch(v, t, 5); }
    else { GradeValue2FirstMatch(v, t, 6); }
  }

  /** The graded ratio of a growth figure to the P/E: the sentinel when either is missing or zero. */
  function RatioGrade(growth: Option<real>, kgv: Option<real>): (g: Option<nat>)
    ensures g.None? <==> !Truthy(growth) || !Truthy(kgv) || growth.value / kgv.value == Sentinel
    ensures g.Some? ==> 1 <= g.value <= WorstGrade
  {
    var v := if Truthy(growth) && Truthy(kgv) then growth.value / kgv.value else Sentinel;
    GrowthGradeBands(v);
    GradeValue(v, GrowthTable)
  }

  /** A ratio replaced by the sentinel when it is falsy: `None` and `0.0` are both unscored. */
  function TruthyGrade(ratio: Option<real>): (g: Option<nat>)
    ensures g.None? <==> !Truthy(ratio) || ratio.value == Sentinel
    ensures g.Some? ==> 1 <= g.value <= WorstGrade
  {
    var v := if Truthy(ratio) then ratio.value else Sentinel;
    GrowthGradeBands(v);
    GradeValue(v, GrowthTable)
  }

  /** A ratio replaced by the sentinel only when it is not a float: `0.0` is graded, and graded 6. */
  function FloatGrade(ratio: Option<real>): (g: Option<nat>)
    ensures g.None? <==> ratio.None? || ratio.value == Sentinel
    ensures ratio == Some(0.0) ==> g == Some(WorstGrade)
    ensures g.Some? ==> 1 <= g.value <= WorstGrade
  {
    var v := if ratio.Some? then ratio.value else Sentinel;
    GrowthGradeBands(v);
    GradeValue(v, GrowthTable)
  }

  /**
   * Growth-adjusted P/E ratios just below a threshold get the grade of the band below it:
   * 1.67 is under 1.7 and grades 3, 1.30 is under 1.4 and grades 4.
   */
  lemma AdjustedRatioGradesBelowThreshold()
    ensures FloatGrade(Some(1.67)) == Some(3)
    ensures TruthyGrade(Some(1.30)) == Some(4)
  {
    GrowthGradeBands(1.67);
    GrowthGradeBands(1.30);
  }

  /** The PEG grade: a falsy PEG is fed as 10, so it is graded 6; the grade is always from 1 to 6. */
  function PegGrade(peg: real): (g: nat)
    ensures 1 <= g <= WorstGrade
    ensures peg == 0.0 ==> g == WorstGrade
  {
    PegGradeBands(if peg != 0.0 then peg else PegFallback);
    GradeValue2(if peg != 0.0 then peg else PegFallback, PegTable)
  }

  function Sum(s: seq<nat>): nat {
    if s == [] then 0 else s[0] + Sum(s[1..])
  }

  /** How many sub-grades are present. */
  function PresentCount(gs: seq<Option<nat>>): nat {
    if gs == [] then 0 else (if gs[0].Some? then 1 else 0) + PresentCount(gs[1..])
  }

  /** The total of the sub-grades that are present. */
  function PresentSum(gs: seq<Option<nat>>): nat {
    if gs == [] then 0 else (if gs[0].Some? then gs[0].value else 0) + PresentSum(gs[1..])
  }

  /** The sub-grades that are not `None`, in order: as many as are present, with the same total. */
  function ValidGrades(gs: seq<Option<nat>>): (vs: seq<nat>)
    ensures |vs| == PresentCount(gs) <= |gs|
    ensures Sum(vs) == PresentSum(gs)
    ensures vs == [] <==> forall i :: 0 <= i < |gs| ==> gs[i].None?
    ensures forall g :: g in vs <==> Some(g) in gs
  {
    if gs == [] then []
    else
      var rest := ValidGrades(gs[1..]);
      if gs[0].Some? then
        assert ([gs[0].value] + rest)[1..] == rest;
        [gs[0].value] + rest
      else rest
  }

  /** The sum of `|s|` grades from 1 to 6 lies between `|s|` and `6 * |s|`. */
  lemma {:induction false} SumOfGrades(s: seq<nat>)
    requires forall g :: g in s ==> 1 <= g <= WorstGrade
    ensures |s| <= Sum(s) <= 6 * |s|
  {
    if s != [] {
      assert forall g :: g in s[1..] ==> g in s;
      SumOfGrades(s[1..]);
      assert s[0] in s;
      assert Sum(s) == s[0] + Sum(s[1..]);
      assert |s| == 1 + |s[1..]|;
    }
  }

  /** Every sub-grade that is present lies between 1 and 6. */
  predicate GradesInRange(gs: seq<Option<nat>>) {
    forall i :: 0 <= i < |gs| && gs[i].Some? ==> 1 <= gs[i].value <= WorstGrade
  }

  lemma QuotientBounds(total: real, n: real)
    requires 0.0 < n && n <= total <= 6.0 * n
    ensures 1.0 <= total / n <= 6.0
  {
  }

  /** The mean of grades from 1 to 6 lies between 1 and 6. */
  lemma MeanInRange(vs: seq<nat>)
    requires vs != [] && forall g :: g in vs ==> 1 <= g <= WorstGrade
    ensures 1.0 <= Sum(vs) as real / |vs| as real <= 6.0
  {
    SumOfGrades(vs);
    QuotientBounds(Sum(vs) as real, |vs| as real);
  }

  /**
   * The composite grade: the mean of the sub-grades that are not `None`, rounded to two places
   * (so within 0.005 of that mean); `None` exactly when every sub-grade is `None`.
   */
  function CompositeGrade(gs: seq<Option<nat>>): (r: Option<real>)
    ensures r.None? <==> forall i :: 0 <= i < |gs| ==> gs[i].None?
    ensures r.Some? ==>
      && PresentCount(gs) > 0
      && r.value == Round(PresentSum(gs) as real / PresentCount(gs) as real, 2)
      && -0.005 <= r.value - PresentSum(gs) as real / PresentCount(gs) as real <= 0.005
    ensures r.Some? && GradesInRange(gs) ==> 1.0 <= r.value <= 6.0
  {
    var vs := ValidGrades(gs);
    if vs == [] then None
    else
      var mean := Sum(vs) as real / |vs| as real;
      Pow10Two();
      if GradesInRange(gs) then
        assert forall g :: g in vs ==> 1 <= g <= WorstGrade;
        MeanInRange(vs);
        RoundTwoWithin(mean, 1, 6);
        Some(Round(mean, 2))
      else
        Some(Round(mean, 2))
  }

  /** A whole number is its own rounding. */
  lemma RoundWhole(n: nat)
    ensures Round(n as real, 2) == n as real
  {
    assert Pow10(2) == 100 by {
      assert Pow10(1) == 10;
    }
    var y := n as real * 100.0;
    assert y.Floor == n * 100;
  }

  /** Exactly one computable sub-grade `g` gives the composite grade `g`. */
  lemma {:induction false} CompositeOfOne(gs: seq<Option<nat>>, i: nat)
    requires i < |gs| && gs[i].Some?
    requires forall j :: 0 <= j < |gs| && j != i ==> gs[j].None?
    ensures CompositeGrade(gs) == Some(gs[i].value as real)
  {
    OnlyValidGrade(gs, i);
    assert Sum([gs[i].value]) == gs[i].value;
    RoundWhole(gs[i].value);
  }

  lemma {:induction false} OnlyValidGrade(gs: seq<Option<nat>>, i: nat)
    requires i < |gs| && gs[i].Some?
    requires forall j :: 0 <= j < |gs| && j != i ==> gs[j].None?
    ensures ValidGrades(gs) == [gs[i].value]
  {
    if i == 0 {
      assert ValidGrades(gs[1..]) == [];
    } else {
      OnlyValidGrade(gs[1..], i - 1);
    }
  }
}
