/**
 * The histogram card: 40-bin binning of the inactive and active values,
 * the summary statistics, and the county lookup by value.
 */
module HistogramChart {
  import opened Wrappers
  import opened Numbers
  import opened Dashboard
  import Page

  const NUM_BINS: nat := 40

  /** One bar of the histogram. */
  datatype Bin = Bin(
    rangeStart: Num,
    rangeEnd: Num,
    lawInactive: int,
    lawActive: int,
    isHighlightedActive: bool,
    isHighlightedInactive: bool)

  /** `binData` either throws (an index outside the bins array) or returns the bars and the extremes. */
  datatype BinOutcome = TypeError | Binned(bins: seq<Bin>, min: Num, max: Num)

  /** The bin layout: `numBins` bins of equal width starting at `min`. */
  datatype Grid = Grid(min: real, width: real, numBins: nat)

  /** `Math.min(...s)` of a non-empty array. */
  function MinOf(s: seq<real>): (m: real)
    requires |s| > 0
    ensures forall i :: 0 <= i < |s| ==> m <= s[i]
    ensures exists i :: 0 <= i < |s| && m == s[i]
  {
    if |s| == 1 then s[0]
    else
      var rest := MinOf(s[..|s| - 1]);
      assert forall i :: 0 <= i < |s| - 1 ==> s[..|s| - 1][i] == s[i];
      Min(rest, s[|s| - 1])
  }

  /** `Math.max(...s)` of a non-empty array. */
  function MaxOf(s: seq<real>): (m: real)
    requires |s| > 0
    ensures forall i :: 0 <= i < |s| ==> s[i] <= m
    ensures exists i :: 0 <= i < |s| && m == s[i]
  {
    if |s| == 1 then s[0]
    else
      var rest := MaxOf(s[..|s| - 1]);
      assert forall i :: 0 <= i < |s| - 1 ==> s[..|s| - 1][i] == s[i];
      Max(rest, s[|s| - 1])
  }

  /** The grid `binData` lays over non-empty data: width (max - min) / numBins. */
  function GridFor(data: seq<real>, numBins: nat): (g: Grid)
    requires |data| > 0 && numBins >= 1
    ensures g.numBins == numBins && g.width >= 0.0
    ensures forall i :: 0 <= i < |data| ==> g.min <= data[i] <= g.min + g.width * (numBins as real)
  {
    var lo, hi := MinOf(data), MaxOf(data);
    Grid(lo, (hi - lo) / (numBins as real), numBins)
  }

  /**
   * `Math.min(Math.floor((v - min) / binWidth), numBins - 1)` as written:
   * None where the index is not a position of the bins array (NaN when the
   * width is 0, negative below `min`), so that the `bins[binIndex]` access throws.
   */
  function BinIndexAsWritten(v: real, g: Grid): (r: Option<int>)
    requires g.numBins >= 1
    ensures r.Some? ==> 0 <= r.value < g.numBins
  {
    if g.width == 0.0 then None
    else
      var raw := ((v - g.min) / g.width).Floor;
      var index := if raw < g.numBins - 1 then raw else g.numBins - 1;
      if index < 0 then None else Some(index)
  }

  /**
   * The bin index with the width-0 case repaired: when every value is the
   * same, all of them fall into the first bin.
   */
  function BinIndex(v: real, g: Grid): (k: int)
    requires g.numBins >= 1
    ensures k <= g.numBins - 1
    ensures g.width > 0.0 ==> BinIndexAsWritten(v, g) == if k < 0 then None else Some(k)
  {
    if g.width == 0.0 then 0
    else
      var raw := ((v - g.min) / g.width).Floor;
      if raw < g.numBins - 1 then raw else g.numBins - 1
  }

  /** A value inside the grid's span lands in one of its bins, the top value in the last one. */
  lemma BinIndexInRange(v: real, g: Grid)
    requires g.numBins >= 1 && g.width >= 0.0
    requires g.min <= v <= g.min + g.width * (g.numBins as real)
    ensures 0 <= BinIndex(v, g) < g.numBins
    ensures g.width > 0.0 && v == g.min + g.width * (g.numBins as real) ==> BinIndex(v, g) == g.numBins - 1
  {
    if g.width > 0.0 {
      var q := (v - g.min) / g.width;
      assert q >= 0.0;
      if v == g.min + g.width * (g.numBins as real) {
        assert q == g.numBins as real;
      }
    }
  }

  /** Every value that falls outside the grid's bins makes the as-written index fail. */
  lemma AllEqualDataCrashes(inactive: seq<real>, active: seq<real>)
    requires |inactive| > 0
    requires forall i :: 0 <= i < |inactive + active| ==> (inactive + active)[i] == inactive[0]
    ensures GridFor(inactive + active, NUM_BINS).width == 0.0
    ensures BinIndexAsWritten(inactive[0], GridFor(inactive + active, NUM_BINS)) == None
  {
    var data := inactive + active;
    var lo, hi := MinOf(data), MaxOf(data);
    var i :| 0 <= i < |data| && lo == data[i];
    var j :| 0 <= j < |data| && hi == data[j];
  }

  /** How many of the values fall into bin `k`. */
  function CountIn(values: seq<real>, g: Grid, k: int): (c: nat)
    requires g.numBins >= 1
    ensures c <= |values|
  {
    if values == [] then 0
    else CountIn(values[..|values| - 1], g, k) + (if BinIndex(values[|values| - 1], g) == k then 1 else 0)
  }

  /** The counts of the first `m` bins added up. */
  function SumCounts(values: seq<real>, g: Grid, m: nat): int
    requires g.numBins >= 1
  {
    if m == 0 then 0 else SumCounts(values, g, m - 1) + CountIn(values, g, m - 1)
  }

  lemma {:induction false} SumCountsAppend(values: seq<real>, v: real, g: Grid, m: nat)
    requires g.numBins >= 1
    requires 0 <= BinIndex(v, g)
    ensures SumCounts(values + [v], g, m) == SumCounts(values, g, m) + (if BinIndex(v, g) < m then 1 else 0)
  {
    assert (values + [v])[..|values + [v]| - 1] == values;
    if m > 0 {
      SumCountsAppend(values, v, g, m - 1);
    }
  }

  /** Count conservation: values inside the grid's span are counted once each over all bins. */
  lemma {:induction false} CountsConserved(values: seq<real>, g: Grid)
    requires g.numBins >= 1 && g.width >= 0.0
    requires forall i :: 0 <= i < |values| ==> g.min <= values[i] <= g.min + g.width * (g.numBins as real)
    ensures SumCounts(values, g, g.numBins) == |values|
  {
    if values == [] {
      SumCountsEmpty(g, g.numBins);
    } else {
      var init, v := values[..|values| - 1], values[|values| - 1];
      assert values == init + [v];
      CountsConserved(init, g);
      BinIndexInRange(v, g);
      SumCountsAppend(init, v, g, g.numBins);
    }
  }

  lemma {:induction false} SumCountsEmpty(g: Grid, m: nat)
    requires g.numBins >= 1
    ensures SumCounts([], g, m) == 0
  {
    if m > 0 {
      SumCountsEmpty(g, m - 1);
    }
  }

  /** JavaScript truthiness of an optional number: null and 0 are falsy. */
  predicate Truthy(v: Option<real>)
  {
    v.Some? && v.value != 0.0
  }

  function Sign(useNegativeInactive: bool): int
  {
    if useNegativeInactive then -1 else 1
  }

  /** The bars of non-empty data, before highlighting. */
  predicate Counted(bins: seq<Bin>, inactive: seq<real>, active: seq<real>, g: Grid, useNegativeInactive: bool)
    requires g.numBins >= 1
  {
    |bins| == g.numBins &&
    forall k :: 0 <= k < |bins| ==>
      bins[k].rangeStart == Fin(g.min + (k as real) * g.width) &&
      bins[k].rangeEnd == Fin(g.min + ((k + 1) as real) * g.width) &&
      bins[k].lawInactive == Sign(useNegativeInactive) * CountIn(inactive, g, k) &&
      bins[k].lawActive == CountIn(active, g, k)
  }

  function SumInactive(bins: seq<Bin>): int
  {
    if bins == [] then 0 else SumInactive(bins[..|bins| - 1]) + bins[|bins| - 1].lawInactive
  }

  function SumActive(bins: seq<Bin>): int
  {
    if bins == [] then 0 else SumActive(bins[..|bins| - 1]) + bins[|bins| - 1].lawActive
  }

  lemma {:induction false} SumsOfPrefix(bins: seq<Bin>, inactive: seq<real>, active: seq<real>, g: Grid, useNegativeInactive: bool, m: nat)
    requires g.numBins >= 1 && m <= |bins|
    requires forall k :: 0 <= k < |bins| ==>
      bins[k].lawInactive == Sign(useNegativeInactive) * CountIn(inactive, g, k) &&
      bins[k].lawActive == CountIn(active, g, k)
    ensures SumActive(bins[..m]) == SumCounts(active, g, m)
    ensures SumInactive(bins[..m]) == Sign(useNegativeInactive) * SumCounts(inactive, g, m)
  {
    if m > 0 {
      SumsOfPrefix(bins, inactive, active, g, useNegativeInactive, m - 1);
      assert bins[..m][..m - 1] == bins[..m - 1];
    }
  }

  /**
   * The bars of in-span data add up to the data: the active bars to the
   * number of active values, the inactive bars to the number of inactive
   * values, negated when inactive values are drawn downwards.
   */
  lemma BinsConserveCounts(bins: seq<Bin>, inactive: seq<real>, active: seq<real>, g: Grid, useNegativeInactive: bool)
    requires g.numBins >= 1 && g.width >= 0.0
    requires Counted(bins, inactive, active, g, useNegativeInactive)
    requires forall i :: 0 <= i < |inactive| ==> g.min <= inactive[i] <= g.min + g.width * (g.numBins as real)
    requires forall i :: 0 <= i < |active| ==> g.min <= active[i] <= g.min + g.width * (g.numBins as real)
    ensures SumActive(bins) == |active|
    ensures SumInactive(bins) == Sign(useNegativeInactive) * |inactive|
  {
    SumsOfPrefix(bins, inactive, active, g, useNegativeInactive, |bins|);
    assert bins[..|bins|] == bins;
    CountsConserved(inactive, g);
    CountsConserved(active, g);
  }

  /** Where a highlighted value would be marked: None if it lies below the grid (the access throws). */
  function HighlightIndex(v: real, g: Grid): (r: Option<int>)
    requires g.numBins >= 1 && g.width >= 0.0
    ensures r.None? <==> v < g.min
    ensures r.Some? ==> r.value == BinIndex(v, g) && 0 <= r.value < g.numBins
  {
    if v < g.min then None
    else
      assert g.width > 0.0 ==> (v - g.min) / g.width >= 0.0;
      Some(BinIndex(v, g))
  }

  /** `true` when the highlight is active and falls into bin `k`. */
  predicate MarksBin(h: Option<real>, g: Grid, k: int)
    requires g.numBins >= 1 && g.width >= 0.0
  {
    Truthy(h) && HighlightIndex(h.value, g) == Some(k)
  }

  /** A truthy highlight that no bin can hold. */
  predicate HighlightThrows(h: Option<real>, g: Grid)
    requires g.numBins >= 1 && g.width >= 0.0
  {
    Truthy(h) && HighlightIndex(h.value, g).None?
  }

  /** Bar `k` of the grid before anything is counted. */
  function EmptyBin(g: Grid, k: int): Bin
  {
    Bin(Fin(g.min + (k as real) * g.width), Fin(g.min + ((k + 1) as real) * g.width), 0, 0, false, false)
  }

  /** Bar `b` with `d` added to the count of one side. */
  function Bump(b: Bin, inactiveSide: bool, d: int): Bin
  {
    if inactiveSide then b.(lawInactive := b.lawInactive + d) else b.(lawActive := b.lawActive + d)
  }

  /** The counting pass of `binData`: add `delta` to bar `BinIndex(v)` of one side for every value `v`. */
  method CountValues(bins: array<Bin>, values: seq<real>, g: Grid, inactiveSide: bool, delta: int)
    requires g.numBins >= 1 && g.width >= 0.0 && bins.Length == g.numBins
    requires forall i :: 0 <= i < |values| ==> g.min <= values[i] <= g.min + g.width * (g.numBins as real)
    modifies bins
    ensures forall k :: 0 <= k < bins.Length ==>
      bins[k] == Bump(old(bins[k]), inactiveSide, delta * CountIn(values, g, k))
  {
    var j := 0;
    assert values[..0] == [];
    while j < |values|
      invariant 0 <= j <= |values|
      invariant forall k :: 0 <= k < bins.Length ==>
        bins[k] == Bump(old(bins[k]), inactiveSide, delta * CountIn(values[..j], g, k))
    {
      BinIndexInRange(values[j], g);
      var k := BinIndex(values[j], g);
      ghost var prev := bins[..];
      bins[k] := Bump(bins[k], inactiveSide, delta);
      forall i | 0 <= i < bins.Length
        ensures bins[i] == Bump(old(bins[i]), inactiveSide, delta * CountIn(values[..j + 1], g, i))
      {
        CountStep(values, j, g, i, delta);
        assert prev[i] == Bump(old(bins[i]), inactiveSide, delta * CountIn(values[..j], g, i));
      }
      j := j + 1;
    }
    assert values[..|values|] == values;
  }

  /** Counting one more value adds `delta` to its own bin and nothing to the others. */
  lemma CountStep(values: seq<real>, j: nat, g: Grid, i: int, delta: int)
    requires g.numBins >= 1 && j < |values|
    ensures delta * CountIn(values[..j + 1], g, i)
      == delta * CountIn(values[..j], g, i) + (if BinIndex(values[j], g) == i then delta else 0)
  {
    assert values[..j + 1][..j] == values[..j];
    var c := CountIn(values[..j], g, i);
    if BinIndex(values[j], g) == i {
      assert delta * (c + 1) == delta * c + delta;
    }
  }

  /** The highlighting step of `binData` for one side; false when the access would throw. */
  method MarkHighlight(bins: array<Bin>, h: Option<real>, g: Grid, activeSide: bool) returns (ok: bool)
    requires g.numBins >= 1 && g.width >= 0.0 && bins.Length == g.numBins
    modifies bins
    ensures ok <==> !HighlightThrows(h, g)
    ensures ok ==> forall k :: 0 <= k < bins.Length ==>
      if activeSide then bins[k] == old(bins[k]).(isHighlightedActive := old(bins[k]).isHighlightedActive || MarksBin(h, g, k))
      else bins[k] == old(bins[k]).(isHighlightedInactive := old(bins[k]).isHighlightedInactive || MarksBin(h, g, k))
  {
    if !Truthy(h) {
      return true;
    }
    var index := HighlightIndex(h.value, g);
    if index.None? {
      return false;
    }
    if activeSide {
      bins[index.value] := bins[index.value].(isHighlightedActive := true);
    } else {
      bins[index.value] := bins[index.value].(isHighlightedInactive := true);
    }
    ok := true;
  }

  /** A fresh bins array holding the counts of both sides and no highlight. */
  method CountAll(inactive: seq<real>, active: seq<real>, g: Grid, useNegativeInactive: bool) returns (bins: array<Bin>)
    requires g.numBins >= 1 && g.width >= 0.0
    requires forall i :: 0 <= i < |inactive| ==> g.min <= inactive[i] <= g.min + g.width * (g.numBins as real)
    requires forall i :: 0 <= i < |active| ==> g.min <= active[i] <= g.min + g.width * (g.numBins as real)
    ensures fresh(bins)
    ensures Counted(bins[..], inactive, active, g, useNegativeInactive)
    ensures forall k :: 0 <= k < bins.Length ==> !bins[k].isHighlightedActive && !bins[k].isHighlightedInactive
  {
    bins := new Bin[g.numBins](k => EmptyBin(g, k));
    ghost var empty := bins[..];
    CountValues(bins, inactive, g, true, Sign(useNegativeInactive));
    ghost var half := bins[..];
    CountValues(bins, active, g, false, 1);
    forall k | 0 <= k < bins.Length
      ensures bins[k] == EmptyBin(g, k).(lawInactive := Sign(useNegativeInactive) * CountIn(inactive, g, k),
                                         lawActive := CountIn(active, g, k))
    {
      assert empty[k] == EmptyBin(g, k);
      assert half[k] == Bump(empty[k], true, Sign(useNegativeInactive) * CountIn(inactive, g, k));
      assert bins[k] == Bump(half[k], false, 1 * CountIn(active, g, k));
    }
  }

  /** The bars are counted over `g` and exactly the bins a truthy highlight falls in are marked. */
  predicate BarsOver(bins: seq<Bin>, inactive: seq<real>, active: seq<real>, g: Grid, useNegativeInactive: bool,
                     activeHighlightedValue: Option<real>, inactiveHighlightedValue: Option<real>)
    requires g.numBins >= 1 && g.width >= 0.0
  {
    Counted(bins, inactive, active, g, useNegativeInactive) &&
    forall k :: 0 <= k < g.numBins ==>
      bins[k].isHighlightedActive == MarksBin(activeHighlightedValue, g, k) &&
      bins[k].isHighlightedInactive == MarksBin(inactiveHighlightedValue, g, k)
  }

  /** The bars of data with at least one value, laid over the grid `g`. */
  method BinOnGrid(inactive: seq<real>, active: seq<real>, g: Grid, useNegativeInactive: bool,
                   activeHighlightedValue: Option<real>, inactiveHighlightedValue: Option<real>)
    returns (bins: Option<seq<Bin>>)
    requires g.numBins >= 1 && g.width >= 0.0
    requires forall i :: 0 <= i < |inactive + active| ==>
      g.min <= (inactive + active)[i] <= g.min + g.width * (g.numBins as real)
    ensures bins.None? <==> HighlightThrows(activeHighlightedValue, g) || HighlightThrows(inactiveHighlightedValue, g)
    ensures bins.Some? ==>
      BarsOver(bins.value, inactive, active, g, useNegativeInactive, activeHighlightedValue, inactiveHighlightedValue)
  {
    PartsInSpan(inactive, active, g);
    var a := CountAll(inactive, active, g, useNegativeInactive);
    ghost var counted := a[..];
    var ok := MarkHighlight(a, activeHighlightedValue, g, true);
    if !ok {
      return None;
    }
    ok := MarkHighlight(a, inactiveHighlightedValue, g, false);
    if !ok {
      return None;
    }
    assert forall k :: 0 <= k < g.numBins ==>
      a[k] == counted[k].(isHighlightedActive := MarksBin(activeHighlightedValue, g, k),
                          isHighlightedInactive := MarksBin(inactiveHighlightedValue, g, k));
    return Some(a[..]);
  }

  lemma PartsInSpan(inactive: seq<real>, active: seq<real>, g: Grid)
    requires forall i :: 0 <= i < |inactive + active| ==>
      g.min <= (inactive + active)[i] <= g.min + g.width * (g.numBins as real)
    ensures forall i :: 0 <= i < |inactive| ==> g.min <= inactive[i] <= g.min + g.width * (g.numBins as real)
    ensures forall i :: 0 <= i < |active| ==> g.min <= active[i] <= g.min + g.width * (g.numBins as real)
  {
    assert forall i :: 0 <= i < |inactive| ==> inactive[i] == (inactive + active)[i];
    assert forall i :: 0 <= i < |active| ==> active[i] == (inactive + active)[|inactive| + i];
  }

  /** `binData`, with the width-0 index repaired. */
  method BinData(inactive: seq<real>, active: seq<real>, numBins: nat, useNegativeInactive: bool,
                 activeHighlightedValue: Option<real>, inactiveHighlightedValue: Option<real>)
    returns (out: BinOutcome)
    requires numBins >= 1
    ensures |inactive + active| == 0 ==>
      (out.TypeError? <==> Truthy(activeHighlightedValue) || Truthy(inactiveHighlightedValue))
    ensures |inactive + active| == 0 && out.Binned? ==>
      out.min == PosInf && out.max == NegInf && |out.bins| == numBins &&
      forall k :: 0 <= k < numBins ==> out.bins[k] == Bin(NaN, NaN, 0, 0, false, false)
    ensures |inactive + active| > 0 ==>
      var g := GridFor(inactive + active, numBins);
      (out.TypeError? <==> HighlightThrows(activeHighlightedValue, g) || HighlightThrows(inactiveHighlightedValue, g)) &&
      (out.Binned? ==>
        out.min == Fin(MinOf(inactive + active)) && out.max == Fin(MaxOf(inactive + active)) &&
        BarsOver(out.bins, inactive, active, g, useNegativeInactive, activeHighlightedValue, inactiveHighlightedValue))
  {
    var data := inactive + active;
    if |data| == 0 {
      if Truthy(activeHighlightedValue) || Truthy(inactiveHighlightedValue) {
        return TypeError;
      }
      var empty := seq(numBins, k => Bin(NaN, NaN, 0, 0, false, false));
      return Binned(empty, PosInf, NegInf);
    }
    out := BinNonEmpty(inactive, active, numBins, useNegativeInactive, activeHighlightedValue, inactiveHighlightedValue);
  }

  /** `binData` once there is at least one value: bars over the grid spanning the data. */
  method BinNonEmpty(inactive: seq<real>, active: seq<real>, numBins: nat, useNegativeInactive: bool,
                     activeHighlightedValue: Option<real>, inactiveHighlightedValue: Option<real>)
    returns (out: BinOutcome)
    requires numBins >= 1 && |inactive + active| > 0
    ensures var g := GridFor(inactive + active, numBins);
      (out.TypeError? <==> HighlightThrows(activeHighlightedValue, g) || HighlightThrows(inactiveHighlightedValue, g)) &&
      (out.Binned? ==>
        out.min == Fin(MinOf(inactive + active)) && out.max == Fin(MaxOf(inactive + active)) &&
        BarsOver(out.bins, inactive, active, g, useNegativeInactive, activeHighlightedValue, inactiveHighlightedValue))
  {
    var data := inactive + active;
    var lo, hi := MinOf(data), MaxOf(data);
    var bins := BinOnGrid(inactive, active, GridFor(data, numBins), useNegativeInactive, activeHighlightedValue, inactiveHighlightedValue);
    if bins.None? {
      return TypeError;
    }
    out := Binned(bins.value, Fin(lo), Fin(hi));
  }

  /** `calculateMean`: 0 for an empty array, else the sum over the length. */
  function CalculateMean(data: seq<real>): (m: real)
    ensures |data| == 0 ==> m == 0.0
    ensures |data| > 0 ==> m * (|data| as real) == Sum(data)
  {
    Mean(data)
  }

  /** The summary the chart derives from the payload in its effect. */
  function ChartStatInfo(d: HistData): StatInfo
  {
    StatInfo(CalculateMean(d.inactiveValues), CalculateMean(d.activeValues),
             d.testScores.1, d.testScores.0, d.iteScores.0, d.iteScores.1,
             d.testScores.3, d.testScores.4)
  }

  /** The chart's summary is the page's `processHistogramData` on the same payload. */
  lemma ChartStatInfoMatchesPage(d: HistData)
    ensures Page.ProcessHistogramData(Some(d)) == Some(ChartStatInfo(d))
  {
  }

  /** The row a lookup reports; `undefined` entries past an array's end are None. */
  datatype CountyMatch = CountyMatch(
    county: string, state: Option<string>, activeValue: Option<real>, inactiveValue: Option<real>, index: nat)

  /** `findCountyByValues`: null, `{}`, or `{selectedCounty}`. */
  datatype Lookup = NullInput | NoMatch | Selected(m: CountyMatch)


  /** Row `i` matches the given value(s); with no value given nothing matches. */
  predicate MatchesAt(d: HistData, activeValue: Option<real>, inactiveValue: Option<real>, i: int)
  {
    if activeValue.Some? && inactiveValue.Some? then
      At(d.activeValues, i) == activeValue && At(d.inactiveValues, i) == inactiveValue
    else if activeValue.Some? then At(d.activeValues, i) == activeValue
    else if inactiveValue.Some? then At(d.inactiveValues, i) == inactiveValue
    else false
  }

  /**
   * `findCountyByValues`: scan the counties in order and report the first
   * whose value(s) equal the given one(s).
   */
  method FindCountyByValues(countyNames: Option<seq<string>>, stateNames: Option<seq<string>>, histData: Option<HistData>,
                            activeValue: Option<real>, inactiveValue: Option<real>)
    returns (r: Lookup)
    ensures r.NullInput? <==> countyNames.None? || stateNames.None? || histData.None?
    ensures r.NoMatch? ==>
      forall i :: 0 <= i < |countyNames.value| ==> !MatchesAt(histData.value, activeValue, inactiveValue, i)
    ensures r.Selected? ==>
      var i := r.m.index;
      i < |countyNames.value| && MatchesAt(histData.value, activeValue, inactiveValue, i) &&
      (forall j :: 0 <= j < i ==> !MatchesAt(histData.value, activeValue, inactiveValue, j)) &&
      r.m == CountyMatch(countyNames.value[i], At(stateNames.value, i),
                         At(histData.value.activeValues, i), At(histData.value.inactiveValues, i), i)
  {
    if countyNames.None? || stateNames.None? || histData.None? {
      return NullInput;
    }
    var names, states, d := countyNames.value, stateNames.value, histData.value;
    r := NoMatch;
    var i := 0;
    while i < |names|
      invariant 0 <= i <= |names|
      invariant forall j :: 0 <= j < i ==> !MatchesAt(d, activeValue, inactiveValue, j)
    {
      if MatchesAt(d, activeValue, inactiveValue, i) {
        r := Selected(CountyMatch(names[i], At(states, i), At(d.activeValues, i), At(d.inactiveValues, i), i));
        return;
      }
      i := i + 1;
    }
  }
}
