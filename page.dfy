/**
 * The dashboard page: its state cells and the handlers that overwrite them.
 * Fetch results enter as method arguments; a handler that would start a
 * request returns what it would send.
 */
module Page {
  import opened Wrappers
  import opened Numbers
  import opened Dashboard
  import MultiSliderCard

  // ---------------------------------------------------------------- ranges

  /** `checkRangeOverlap`: max(a.lo, b.lo) <= min(a.hi, b.hi). */
  predicate CheckRangeOverlap(a: Range, b: Range)
  {
    Max(a.lo, b.lo) <= Min(a.hi, b.hi)
  }

  predicate Covers(r: Range, x: real)
  {
    r.lo <= x <= r.hi
  }

  /** Two ranges overlap exactly when some value lies in both. */
  lemma OverlapIffCommonPoint(a: Range, b: Range)
    ensures CheckRangeOverlap(a, b) <==> exists x :: Covers(a, x) && Covers(b, x)
  {
    if CheckRangeOverlap(a, b) {
      assert Covers(a, Max(a.lo, b.lo)) && Covers(b, Max(a.lo, b.lo));
    }
  }

  lemma OverlapSymmetric(a: Range, b: Range)
    ensures CheckRangeOverlap(a, b) == CheckRangeOverlap(b, a)
  {
  }

  /** A well-formed range overlaps itself and any range it touches at an endpoint. */
  lemma OverlapReflexiveAndTouching(a: Range, b: Range)
    requires a.lo <= a.hi && b.lo <= b.hi
    ensures CheckRangeOverlap(a, a)
    ensures a.hi == b.lo ==> CheckRangeOverlap(a, b)
  {
  }

  /** The 40%/60% default ranges of a column with min < max never overlap. */
  lemma DefaultRangesDisjoint(m: MinMax)
    requires m.min < m.max
    ensures !CheckRangeOverlap(DefaultActive(m), DefaultInactive(m))
  {
    DefaultRangesSeparated(m);
  }

  // ----------------------------------------------------------- step sizes

  /**
   * The step rule written inline in `generateSlidersFromConstraints`: start
   * at 1, then 0.01 if range <= 5, 0.1 if range >= 100, 10 if range > 1000,
   * each later assignment winning.
   */
  function InlineStepSize(range: real): (step: real)
    ensures range <= 5.0 ==> step == 0.01
    ensures 5.0 < range < 100.0 ==> step == 1.0
    ensures 100.0 <= range <= 1000.0 ==> step == 0.1
    ensures range > 1000.0 ==> step == 10.0
  {
    var step1 := 1.0;
    var step2 := if range <= 5.0 then 0.01 else step1;
    var step3 := if range >= 100.0 then 0.1 else step2;
    if range > 1000.0 then 10.0 else step3
  }

  /** The inline rule is not monotone: a wider range can get a finer step. */
  lemma InlineStepSizeNotMonotone()
    ensures exists r1: real, r2: real :: r1 < r2 && InlineStepSize(r1) > InlineStepSize(r2)
  {
    assert InlineStepSize(50.0) == 1.0 && InlineStepSize(200.0) == 0.1;
  }

  lemma FloorLog10IsThree(r: real)
    requires 1000.0 <= r < 10000.0
    ensures FloorLog10(r) == 3
  {
    var e := FloorLog10(r);
    assert Pow10(3) == 1000.0 && Pow10(4) == 10000.0;
    Pow10Order(3, e);
    Pow10Order(e, 3);
  }

  /**
   * The page's inline rule and the constraint card's `determineStepSize`
   * agree exactly on ranges up to 5 other than the unit range, on the range
   * 100, and on ranges strictly between 1000 and 10000.
   */
  lemma StepRulesDiverge(min: real, max: real)
    ensures InlineStepSize(max - min) == MultiSliderCard.DetermineStepSize(min, max) <==>
      ((max - min <= 5.0 && !(max == 1.0 && min == 0.0)) ||
       max - min == 100.0 ||
       1000.0 < max - min < 10000.0)
  {
    var r := max - min;
    if 1000.0 < r < 10000.0 {
      FloorLog10IsThree(r);
      assert Pow10(1) == 10.0;
    }
  }

  // -------------------------------------------------------------- sliders

  /** A `constraintsBounds` entry: the column's min and max as finite numbers. */
  datatype ColumnBounds = ColumnBounds(lb: real, ub: real)

  /** The slider for one constraint: infinite bounds become -1000 and 1000. */
  function SliderFor(name: string, b: Bounds, m: ColumnBounds): (s: SliderConfig)
    ensures s.name == name && s.min == m.lb && s.max == m.ub
    ensures s.defaultValue.0 == (if b.lb == NegInf then Fin(-1000.0) else b.lb)
    ensures s.defaultValue.1 == (if b.ub == PosInf then Fin(1000.0) else b.ub)
    ensures s.step == InlineStepSize(m.ub - m.lb)
  {
    var lb := if b.lb == NegInf then Fin(-1000.0) else b.lb;
    var ub := if b.ub == PosInf then Fin(1000.0) else b.ub;
    SliderConfig(name, m.lb, m.ub, InlineStepSize(m.ub - m.lb), (lb, ub))
  }

  /** The keys of `constraints` other than `law`, in order. */
  function NonLawKeys(constraints: Constraint, law: string): (ks: seq<string>)
    ensures forall i :: 0 <= i < |ks| ==> ks[i] != law
  {
    if constraints == [] then []
    else if constraints[0].0 == law then NonLawKeys(constraints[1..], law)
    else [constraints[0].0] + NonLawKeys(constraints[1..], law)
  }

  /** The entries of `constraints` other than `law`, in order: the ones the loop does not skip. */
  function NonLawEntries(constraints: Constraint, law: string): (es: Constraint)
    ensures forall e :: e in es <==> e in constraints && e.0 != law
    ensures |es| == |NonLawKeys(constraints, law)|
    ensures forall i :: 0 <= i < |es| ==> es[i].0 == NonLawKeys(constraints, law)[i]
  {
    if constraints == [] then []
    else if constraints[0].0 == law then NonLawEntries(constraints[1..], law)
    else [constraints[0]] + NonLawEntries(constraints[1..], law)
  }

  /**
   * Slider `i` is the slider of entry `i`: its name, handles and step come
   * from that constraint and its min and max from the entry's bounds.
   */
  predicate SliderPerEntry(sliders: seq<SliderConfig>, entries: Constraint, bounds: Dict<ColumnBounds>)
  {
    |sliders| == |entries| &&
    forall i :: 0 <= i < |sliders| ==>
      Get(bounds, entries[i].0).Some? &&
      sliders[i] == SliderFor(entries[i].0, entries[i].1, Get(bounds, entries[i].0).value)
  }

  function Names(sliders: seq<SliderConfig>): (ns: seq<string>)
    ensures |ns| == |sliders| && forall i :: 0 <= i < |sliders| ==> ns[i] == sliders[i].name
  {
    seq(|sliders|, i requires 0 <= i < |sliders| => sliders[i].name)
  }

  /** Some constraint other than the law has no `constraintsBounds` entry. */
  predicate MissingBounds(constraints: Constraint, bounds: Dict<ColumnBounds>, law: string)
  {
    exists i :: 0 <= i < |constraints| && constraints[i].0 != law && !HasKey(bounds, constraints[i].0)
  }

  /**
   * What `generateSlidersFromConstraints` builds: one slider per constraint
   * other than the law, in order; None where the lookup of a missing
   * `constraintsBounds` entry throws.
   */
  function SlidersFor(constraints: Constraint, bounds: Dict<ColumnBounds>, law: string): (r: Option<seq<SliderConfig>>)
    ensures r.None? <==> MissingBounds(constraints, bounds, law)
    ensures r.Some? ==> Names(r.value) == NonLawKeys(constraints, law)
    ensures r.Some? ==> forall i :: 0 <= i < |r.value| ==>
      r.value[i].defaultValue.0 != NegInf && r.value[i].defaultValue.1 != PosInf &&
      Get(bounds, r.value[i].name) == Some(ColumnBounds(r.value[i].min, r.value[i].max))
  {
    if constraints == [] then Some([])
    else
      var (name, b) := constraints[0];
      var rest := SlidersFor(constraints[1..], bounds, law);
      MissingBoundsCons(constraints, bounds, law);
      if name == law then rest
      else match Get(bounds, name)
        case None => None
        case Some(m) =>
          match rest
          case None => None
          case Some(tail) =>
            var s := [SliderFor(name, b, m)] + tail;
            assert Names(s) == [name] + Names(tail);
            assert forall i :: 1 <= i < |s| ==> s[i] == tail[i - 1];
            Some(s)
  }

  /** A constraint list misses a bounds entry exactly when its head or its tail does. */
  lemma MissingBoundsCons(constraints: Constraint, bounds: Dict<ColumnBounds>, law: string)
    requires constraints != []
    ensures MissingBounds(constraints, bounds, law) <==>
      (constraints[0].0 != law && !HasKey(bounds, constraints[0].0)) || MissingBounds(constraints[1..], bounds, law)
  {
    if MissingBounds(constraints[1..], bounds, law) {
      var i :| 0 <= i < |constraints[1..]| && constraints[1..][i].0 != law && !HasKey(bounds, constraints[1..][i].0);
      assert constraints[i + 1] == constraints[1..][i];
    }
    if MissingBounds(constraints, bounds, law) {
      var i :| 0 <= i < |constraints| && constraints[i].0 != law && !HasKey(bounds, constraints[i].0);
      if i > 0 {
        assert constraints[1..][i - 1] == constraints[i];
      }
    }
  }

  function Prepend<T>(acc: seq<T>, rest: Option<seq<T>>): Option<seq<T>>
  {
    match rest
    case None => None
    case Some(t) => Some(acc + t)
  }

  lemma SlidersForCons(c: Constraint, bounds: Dict<ColumnBounds>, law: string)
    requires c != []
    ensures SlidersFor(c, bounds, law) ==
      if c[0].0 == law then SlidersFor(c[1..], bounds, law)
      else if Get(bounds, c[0].0).None? then None
      else Prepend([SliderFor(c[0].0, c[0].1, Get(bounds, c[0].0).value)], SlidersFor(c[1..], bounds, law))
  {
  }

  /** Whenever no lookup throws, the sliders are exactly one `SliderFor` per non-law entry, in order. */
  lemma {:induction false} SlidersForEntries(constraints: Constraint, bounds: Dict<ColumnBounds>, law: string)
    requires SlidersFor(constraints, bounds, law).Some?
    ensures SliderPerEntry(SlidersFor(constraints, bounds, law).value, NonLawEntries(constraints, law), bounds)
  {
    if constraints != [] {
      SlidersForCons(constraints, bounds, law);
      SlidersForEntries(constraints[1..], bounds, law);
      var (name, b) := constraints[0];
      if name != law {
        SliderPerEntryCons(SliderFor(name, b, Get(bounds, name).value), SlidersFor(constraints[1..], bounds, law).value,
                           constraints[0], NonLawEntries(constraints[1..], law), bounds);
      }
    }
  }

  lemma SliderPerEntryCons(x: SliderConfig, tail: seq<SliderConfig>, e: (string, Bounds), rest: Constraint, bounds: Dict<ColumnBounds>)
    requires SliderPerEntry(tail, rest, bounds)
    requires Get(bounds, e.0).Some? && x == SliderFor(e.0, e.1, Get(bounds, e.0).value)
    ensures SliderPerEntry([x] + tail, [e] + rest, bounds)
  {
    var s, es := [x] + tail, [e] + rest;
    forall i | 1 <= i < |s|
      ensures s[i] == tail[i - 1] && es[i] == rest[i - 1]
    {
    }
  }

  lemma PrependAssoc<T>(a: seq<T>, b: seq<T>, rest: Option<seq<T>>)
    ensures Prepend(a, Prepend(b, rest)) == Prepend(a + b, rest)
  {
    if rest.Some? {
      assert a + (b + rest.value) == a + b + rest.value;
    }
  }

  /** `generateSlidersFromConstraints`: the loop that pushes one slider per constraint. */
  method GenerateSlidersFromConstraints(constraints: Constraint, bounds: Dict<ColumnBounds>, law: string)
    returns (sliders: Option<seq<SliderConfig>>)
    ensures sliders == SlidersFor(constraints, bounds, law)
    ensures sliders.Some? ==> SliderPerEntry(sliders.value, NonLawEntries(constraints, law), bounds)
  {
    var acc: seq<SliderConfig> := [];
    var i := 0;
    assert constraints[0..] == constraints;
    assert Prepend(acc, SlidersFor(constraints, bounds, law)) == SlidersFor(constraints, bounds, law) by {
      var all := SlidersFor(constraints, bounds, law);
      if all.Some? {
        assert acc + all.value == all.value;
      }
    }
    while i < |constraints|
      invariant 0 <= i <= |constraints|
      invariant SlidersFor(constraints, bounds, law) == Prepend(acc, SlidersFor(constraints[i..], bounds, law))
    {
      var (name, b) := constraints[i];
      SlidersForCons(constraints[i..], bounds, law);
      assert constraints[i..][1..] == constraints[i + 1..];
      if name != law {
        var m := Get(bounds, name);
        if m.None? {
          return None;
        }
        PrependAssoc(acc, [SliderFor(name, b, m.value)], SlidersFor(constraints[i + 1..], bounds, law));
        acc := acc + [SliderFor(name, b, m.value)];
      }
      i := i + 1;
    }
    assert constraints[i..] == [];
    assert acc + [] == acc;
    sliders := Some(acc);
    SlidersForEntries(constraints, bounds, law);
  }

  // ------------------------------------------------------------ statistics

  /**
   * `processHistogramData`: the means of the two value lists and the test
   * scores read from positions 0, 1, 3 and 4 (position 2 is not used).
   */
  function ProcessHistogramData(h: Option<HistData>): (s: Option<StatInfo>)
    ensures s.None? <==> h.None?
    ensures s.Some? ==>
      s.value.inactiveMean == Mean(h.value.inactiveValues) &&
      s.value.activeMean == Mean(h.value.activeValues) &&
      s.value.mannWhitneyPValue == h.value.testScores.0 &&
      s.value.pairedTPValue == h.value.testScores.1 &&
      s.value.imbalanceRatio == h.value.testScores.3 &&
      s.value.cohensD == h.value.testScores.4 &&
      s.value.avgITE == h.value.iteScores.0 &&
      s.value.stdevITE == h.value.iteScores.1
  {
    match h
    case None => None
    case Some(d) =>
      Some(StatInfo(
        Mean(d.inactiveValues), Mean(d.activeValues),
        d.testScores.1, d.testScores.0, d.iteScores.0, d.iteScores.1,
        d.testScores.3, d.testScores.4))
  }

  /** The third test score has no influence on the summary. */
  lemma ThirdTestScoreIgnored(d: HistData, other: real)
    ensures ProcessHistogramData(Some(d)) ==
            ProcessHistogramData(Some(d.(testScores := d.testScores.(2 := other))))
  {
  }

  /** Each mean lies between the smallest and largest value of its list. */
  lemma SummaryMeansWithinValues(d: HistData, lo: real, hi: real)
    requires |d.activeValues| > 0
    requires forall i :: 0 <= i < |d.activeValues| ==> lo <= d.activeValues[i] <= hi
    ensures lo <= ProcessHistogramData(Some(d)).value.activeMean <= hi
  {
    MeanWithinBounds(d.activeValues, lo, hi);
  }

  // ------------------------------------------------------------ page state

  /** `findIndex(id => id === countyId)`: the first position of the county, or -1. */
  function FindIndex(ids: seq<int>, countyId: int): (r: int)
    ensures r == -1 <==> countyId !in ids
    ensures r != -1 ==> 0 <= r < |ids| && ids[r] == countyId && countyId !in ids[..r]
  {
    if ids == [] then -1
    else if ids[0] == countyId then 0
    else
      var r := FindIndex(ids[1..], countyId);
      if r == -1 then -1
      else
        assert ids[..r + 1] == [ids[0]] + ids[1..][..r];
        r + 1
  }

  /** JavaScript truthiness of a nullable number. */
  predicate Truthy(v: Option<int>)
  {
    v.Some? && v.value != 0
  }

  const PatternFetchError := "Failed to fetch constraints for the selected pattern."
  const SubmitFetchError := "Failed to fetch data."
  const NoDataError := "No data available for the selected constraints."

  /** What `fetchConstraints` resolves to on success. */
  datatype ConstraintsResponse = ConstraintsResponse(
    constraints: Constraint,
    countiesIndices: seq<int>,
    constraintsBounds: Dict<ColumnBounds>,
    law: string)

  /** What `fetchGeomapOnly` resolves to; its failure value has no active or inactive list. */
  datatype GeomapResult = GeomapResult(
    countiesIndices: seq<int>,
    activeCountiesIndices: Option<seq<int>>,
    inactiveCountiesIndices: Option<seq<int>>)

  const GeomapFailure := GeomapResult([], None, None)

  datatype MapHistResult = MapHistResult(
    countiesIndices: seq<int>,
    histData: HistData,
    countyNames: seq<string>,
    stateNames: seq<string>,
    activeCountiesIndices: Option<seq<int>>,
    inactiveCountiesIndices: Option<seq<int>>)

  /** What `fetchMapHist` resolves to: null, a payload whose countiesIndices is 400, or data. */
  datatype MapHistOutcome = MapHistFailed | NoCounties | MapHistFetched(result: MapHistResult)

  /** The request the page issues for a geomap refresh: only when constraints are set. */
  function RefreshRequest(constraints: Option<Constraint>, law: string, active: Range, inactive: Range): (p: Option<UserPattern>)
    ensures p.Some? <==> constraints.Some?
    ensures p.Some? ==> p.value == UserPattern(constraints, law, Some(active), Some(inactive))
  {
    if constraints.Some? then Some(UserPattern(constraints, law, Some(active), Some(inactive))) else None
  }

  class PageComponent {
    var columnRanges: map<string, MinMax>
    var controlVariable: string
    var currentLaw: string
    var statInfo: Option<StatInfo>
    var kFoldScore: Option<real>
    var constraints: Option<Constraint>
    var activeRange: Range
    var inactiveRange: Range
    var rangeOverlap: bool
    var geomapData: Option<seq<int>>
    var histoData: Option<HistData>
    var countyNames: Option<seq<string>>
    var stateNames: Option<seq<string>>
    var sliders: seq<SliderConfig>
    var isLoading: bool
    var isGeomapLoading: bool
    var error: Option<string>
    var activeGeomapData: Option<seq<int>>
    var inactiveGeomapData: Option<seq<int>>
    var highlightedCounty: Option<int>
    var highlightedActiveVal: Option<real>
    var highlightedInactiveVal: Option<real>
    var featureImportance: Option<FeatureImportance>
    var columnHistograms: Option<Dict<Histogram>>
    var fullColumnHistograms: Option<Dict<Histogram>>

    /** The initial state cells; the initial ranges do not overlap. */
    constructor ()
      ensures columnRanges == map[] && controlVariable == "delta_death_rate" && currentLaw == "goodsam-law"
      ensures statInfo == None && kFoldScore == None && constraints == None
      ensures activeRange == DefaultActive(UnitRange) && inactiveRange == DefaultInactive(UnitRange)
      ensures !rangeOverlap && !CheckRangeOverlap(activeRange, inactiveRange)
      ensures geomapData == None && histoData == None && countyNames == None && stateNames == None
      ensures sliders == [] && !isLoading && !isGeomapLoading && error == None
      ensures activeGeomapData == None && inactiveGeomapData == None
      ensures highlightedCounty == None && highlightedActiveVal == None && highlightedInactiveVal == None
      ensures featureImportance == None && columnHistograms == None && fullColumnHistograms == None
    {
      columnRanges, controlVariable, currentLaw := map[], "delta_death_rate", "goodsam-law";
      statInfo, kFoldScore, constraints := None, None, None;
      activeRange, inactiveRange, rangeOverlap := Range(0.0, 0.4), Range(0.6, 1.0), false;
      geomapData, histoData, countyNames, stateNames := None, None, None, None;
      sliders, isLoading, isGeomapLoading, error := [], false, false, None;
      activeGeomapData, inactiveGeomapData := None, None;
      highlightedCounty, highlightedActiveVal, highlightedInactiveVal := None, None, None;
      featureImportance, columnHistograms, fullColumnHistograms := None, None, None;
      DefaultRangesDisjoint(UnitRange);
    }

    /** `handlePatternChange`, up to the request: the 0-based pattern id to fetch. */
    method PatternChangeStart(pattern: int) returns (patternId: int)
      modifies this`isLoading, this`error
      ensures patternId == pattern - 1
      ensures isLoading && error == None
    {
      isLoading := true;
      error := None;
      patternId := pattern - 1;
    }

    /**
     * `handlePatternChange`, once `fetchConstraints` has resolved: store the
     * pattern and its sliders, or record the failure. When a constraint has
     * no bounds entry the slider generation throws after the constraints
     * were stored, and the remaining writes (including the end of loading)
     * never happen.
     */
    method PatternFetched(fetched: Option<ConstraintsResponse>)
      modifies this`constraints, this`sliders, this`geomapData, this`currentLaw, this`error, this`isLoading
      ensures fetched.None? ==>
        constraints == None && sliders == [] && error == Some(PatternFetchError) && !isLoading &&
        geomapData == old(geomapData) && currentLaw == old(currentLaw)
      ensures fetched.Some? ==> constraints == Some(fetched.value.constraints) && error == old(error)
      ensures fetched.Some? && SlidersFor(fetched.value.constraints, fetched.value.constraintsBounds, fetched.value.law).None? ==>
        sliders == old(sliders) && geomapData == old(geomapData) && currentLaw == old(currentLaw) &&
        isLoading == old(isLoading)
      ensures fetched.Some? && SlidersFor(fetched.value.constraints, fetched.value.constraintsBounds, fetched.value.law).Some? ==>
        sliders == SlidersFor(fetched.value.constraints, fetched.value.constraintsBounds, fetched.value.law).value &&
        geomapData == Some(fetched.value.countiesIndices) && currentLaw == fetched.value.law && !isLoading
    {
      if fetched.Some? {
        var f := fetched.value;
        constraints := Some(f.constraints);
        var generated := GenerateSlidersFromConstraints(f.constraints, f.constraintsBounds, f.law);
        if generated.None? {
          return;
        }
        sliders := generated.value;
        geomapData := Some(f.countiesIndices);
        currentLaw := f.law;
      } else {
        constraints := None;
        sliders := [];
        error := Some(PatternFetchError);
      }
      isLoading := false;
    }

    /**
     * `handleLawChange`: select the law, reset both ranges to the 40%/60%
     * defaults of its column range (or of [0, 1]), and request a geomap
     * refresh when constraints are set.
     */
    method HandleLawChange(law: string) returns (refresh: Option<UserPattern>)
      modifies this`currentLaw, this`activeRange, this`inactiveRange
      ensures currentLaw == law
      ensures var m := if law in columnRanges then columnRanges[law] else UnitRange;
        activeRange == DefaultActive(m) && inactiveRange == DefaultInactive(m)
      ensures refresh == RefreshRequest(constraints, law, activeRange, inactiveRange)
      ensures (law !in columnRanges || columnRanges[law].min < columnRanges[law].max) ==>
        !CheckRangeOverlap(activeRange, inactiveRange)
    {
      currentLaw := law;
      var newActive := Range(0.0, 0.4);
      var newInactive := Range(0.6, 1.0);
      DefaultRangesDisjoint(UnitRange);
      if law in columnRanges {
        var m := columnRanges[law];
        newActive := Range(m.min, m.min + (m.max - m.min) * 0.4);
        newInactive := Range(m.min + (m.max - m.min) * 0.6, m.max);
        if m.min < m.max {
          DefaultRangesDisjoint(m);
        }
      }
      activeRange := newActive;
      inactiveRange := newInactive;
      refresh := if constraints.Some? then Some(UserPattern(constraints, law, Some(newActive), Some(newInactive))) else None;
    }

    /** `handleActiveRangeChange`: store the range; refresh with the card's law when constraints are set. */
    method HandleActiveRangeChange(range: Range, law: string) returns (refresh: Option<UserPattern>)
      modifies this`activeRange
      ensures activeRange == range
      ensures refresh == RefreshRequest(constraints, law, range, inactiveRange)
    {
      activeRange := range;
      refresh := if constraints.Some? then Some(UserPattern(constraints, law, Some(range), Some(inactiveRange))) else None;
    }

    /** `handleInactiveRangeChange`: store the range; refresh with the card's law when constraints are set. */
    method HandleInactiveRangeChange(range: Range, law: string) returns (refresh: Option<UserPattern>)
      modifies this`inactiveRange
      ensures inactiveRange == range
      ensures refresh == RefreshRequest(constraints, law, activeRange, range)
    {
      inactiveRange := range;
      refresh := if constraints.Some? then Some(UserPattern(constraints, law, Some(activeRange), Some(range))) else None;
    }

    /** `handleConstraintsChange`: store what the constraint card reported; refresh when constraints are set. */
    method HandleConstraintsChange(newSliders: seq<SliderConfig>, newConstraints: Option<Constraint>)
      returns (refresh: Option<UserPattern>)
      modifies this`constraints, this`sliders
      ensures constraints == newConstraints && sliders == newSliders
      ensures refresh == RefreshRequest(newConstraints, currentLaw, activeRange, inactiveRange)
    {
      constraints := newConstraints;
      sliders := newSliders;
      refresh := if newConstraints.Some? then Some(UserPattern(newConstraints, currentLaw, Some(activeRange), Some(inactiveRange))) else None;
    }

    /**
     * The synchronous part of `debouncedFetchGeomap`: with both ranges given,
     * overlapping ranges only raise the overlap flag; otherwise the flag is
     * cleared and the lightweight fetch starts. Missing ranges do nothing.
     */
    method GeomapGate(p: UserPattern) returns (fetch: bool)
      modifies this`rangeOverlap, this`isGeomapLoading
      ensures fetch <==> p.activeRange.Some? && p.inactiveRange.Some? &&
                         !CheckRangeOverlap(p.activeRange.value, p.inactiveRange.value)
      ensures (p.activeRange.None? || p.inactiveRange.None?) ==>
        rangeOverlap == old(rangeOverlap) && isGeomapLoading == old(isGeomapLoading)
      ensures p.activeRange.Some? && p.inactiveRange.Some? && !fetch ==>
        rangeOverlap && isGeomapLoading == old(isGeomapLoading)
      ensures fetch ==> !rangeOverlap && isGeomapLoading
    {
      fetch := false;
      if p.activeRange.Some? && p.inactiveRange.Some? {
        if CheckRangeOverlap(p.activeRange.value, p.inactiveRange.value) {
          rangeOverlap := true;
        } else {
          rangeOverlap := false;
          isGeomapLoading := true;
          fetch := true;
        }
      }
    }

    /** The end of `debouncedFetchGeomap`: the three county lists are overwritten with the result. */
    method GeomapArrived(r: GeomapResult)
      modifies this`geomapData, this`activeGeomapData, this`inactiveGeomapData, this`isGeomapLoading
      ensures geomapData == Some(r.countiesIndices)
      ensures activeGeomapData == r.activeCountiesIndices && inactiveGeomapData == r.inactiveCountiesIndices
      ensures !isGeomapLoading
    {
      geomapData := Some(r.countiesIndices);
      activeGeomapData := r.activeCountiesIndices;
      inactiveGeomapData := r.inactiveCountiesIndices;
      isGeomapLoading := false;
    }

    /** `handleDataFileChanged`: clear the selections and everything derived from the old file. */
    method HandleDataFileChanged()
      modifies this`currentLaw, this`controlVariable, this`geomapData, this`activeGeomapData,
               this`inactiveGeomapData, this`histoData, this`statInfo, this`kFoldScore,
               this`featureImportance, this`constraints, this`sliders, this`columnRanges
      ensures currentLaw == "" && controlVariable == ""
      ensures geomapData == None && activeGeomapData == None && inactiveGeomapData == None
      ensures histoData == None && statInfo == None && kFoldScore == None && featureImportance == None
      ensures constraints == None && sliders == [] && columnRanges == map[]
    {
      currentLaw := "";
      controlVariable := "";
      geomapData := None;
      activeGeomapData := None;
      inactiveGeomapData := None;
      histoData := None;
      statInfo := None;
      kFoldScore := None;
      featureImportance := None;
      constraints := None;
      sliders := [];
      columnRanges := map[];
    }

    /**
     * `handleCountyClick`: a county found in the geomap list, with histogram
     * data present, is highlighted with the values at its position.
     */
    method HandleCountyClick(countyId: int)
      modifies this`highlightedCounty, this`highlightedActiveVal, this`highlightedInactiveVal
      ensures geomapData.None? || countyId !in geomapData.value || histoData.None? ==>
        highlightedCounty == old(highlightedCounty) &&
        highlightedActiveVal == old(highlightedActiveVal) &&
        highlightedInactiveVal == old(highlightedInactiveVal)
      ensures geomapData.Some? && countyId in geomapData.value && histoData.Some? ==>
        var index := FindIndex(geomapData.value, countyId);
        highlightedInactiveVal == At(histoData.value.inactiveValues, index) &&
        highlightedActiveVal == At(histoData.value.activeValues, index) &&
        highlightedCounty == Some(countyId)
    {
      if geomapData.Some? {
        var index := FindIndex(geomapData.value, countyId);
        if index != -1 && histoData.Some? {
          highlightedInactiveVal := At(histoData.value.inactiveValues, index);
          highlightedActiveVal := At(histoData.value.activeValues, index);
          highlightedCounty := Some(countyId);
        }
      }
    }

    /** `handleUserPatternSubmit`, up to the requests: the pattern sent carries the page's own ranges. */
    method SubmitStart(user: UserPattern) returns (request: UserPattern)
      modifies this`isLoading, this`error, this`kFoldScore
      ensures request == user.(activeRange := Some(activeRange), inactiveRange := Some(inactiveRange))
      ensures isLoading && error == None && kFoldScore == None
    {
      isLoading := true;
      error := None;
      kFoldScore := None;
      request := user.(activeRange := Some(activeRange), inactiveRange := Some(inactiveRange));
    }

    /**
     * `handleUserPatternSubmit`, once `fetchMapHist` has resolved. A failed
     * fetch ends the handler before the cross-validation result is awaited;
     * the "no counties" payload records an error but leaves loading on.
     */
    method SubmitMapHistArrived(outcome: MapHistOutcome) returns (awaitCrossVal: bool)
      modifies this`error, this`isLoading, this`geomapData, this`activeGeomapData, this`inactiveGeomapData,
               this`histoData, this`countyNames, this`stateNames,
               this`highlightedCounty, this`highlightedActiveVal, this`highlightedInactiveVal
      ensures awaitCrossVal <==> !outcome.MapHistFailed?
      ensures outcome.MapHistFailed? ==> error == Some(SubmitFetchError) && !isLoading
      ensures outcome.NoCounties? ==> error == Some(NoDataError) && isLoading == old(isLoading)
      ensures !outcome.MapHistFetched? ==>
        geomapData == old(geomapData) && activeGeomapData == old(activeGeomapData) &&
        inactiveGeomapData == old(inactiveGeomapData) && histoData == old(histoData) &&
        countyNames == old(countyNames) && stateNames == old(stateNames) &&
        highlightedCounty == old(highlightedCounty) && highlightedActiveVal == old(highlightedActiveVal) &&
        highlightedInactiveVal == old(highlightedInactiveVal)
      ensures outcome.MapHistFetched? ==>
        var r := outcome.result;
        error == old(error) && !isLoading &&
        geomapData == Some(r.countiesIndices) && histoData == Some(r.histData) &&
        activeGeomapData == r.activeCountiesIndices && inactiveGeomapData == r.inactiveCountiesIndices &&
        countyNames == Some(r.countyNames) && stateNames == Some(r.stateNames)
      ensures outcome.MapHistFetched? && Truthy(old(highlightedCounty)) ==>
        highlightedCounty == Some(-1) && highlightedActiveVal == None && highlightedInactiveVal == None
      ensures outcome.MapHistFetched? && !Truthy(old(highlightedCounty)) ==>
        highlightedCounty == old(highlightedCounty) && highlightedActiveVal == old(highlightedActiveVal) &&
        highlightedInactiveVal == old(highlightedInactiveVal)
    {
      match outcome {
        case MapHistFailed =>
          error := Some(SubmitFetchError);
          isLoading := false;
          return false;
        case NoCounties =>
          error := Some(NoDataError);
        case MapHistFetched(r) =>
          geomapData := Some(r.countiesIndices);
          activeGeomapData := r.activeCountiesIndices;
          inactiveGeomapData := r.inactiveCountiesIndices;
          histoData := Some(r.histData);
          countyNames := Some(r.countyNames);
          stateNames := Some(r.stateNames);
          if Truthy(highlightedCounty) {
            highlightedCounty := Some(-1);
            highlightedActiveVal := None;
            highlightedInactiveVal := None;
          }
          isLoading := false;
      }
      awaitCrossVal := true;
    }

    /** The cross-validation continuation: a non-null result sets the k-fold score. */
    method CrossValArrived(score: Option<real>)
      modifies this`kFoldScore
      ensures kFoldScore == if score.Some? then score else old(kFoldScore)
    {
      if score.Some? {
        kFoldScore := score;
      }
    }

    /** The effect on `histoData`: derive the summary, feature importance and column histograms. */
    method HistoDataEffect()
      modifies this`statInfo, this`featureImportance, this`columnHistograms, this`fullColumnHistograms
      ensures histoData.None? ==>
        statInfo == old(statInfo) && featureImportance == old(featureImportance) &&
        columnHistograms == old(columnHistograms) && fullColumnHistograms == old(fullColumnHistograms)
      ensures histoData.Some? ==>
        statInfo == ProcessHistogramData(histoData) && statInfo.Some? &&
        featureImportance == histoData.value.featureImportance &&
        columnHistograms == histoData.value.columnHistograms &&
        fullColumnHistograms == histoData.value.fullColumnHistograms
    {
      if histoData.Some? {
        var h := histoData.value;
        statInfo := ProcessHistogramData(histoData);
        featureImportance := h.featureImportance;
        columnHistograms := h.columnHistograms;
        fullColumnHistograms := h.fullColumnHistograms;
      }
    }
  }
}
