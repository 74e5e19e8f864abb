/**
 * The feature-importance card: the bar list sorted by importance and the
 * per-feature histogram points, optionally log-scaled.
 */
module FeatureImportanceChart {
  import opened Wrappers
  import opened Numbers
  import opened Strings
  import opened Dashboard
  import Page
  import Sorting

  /** `formatFeatureName`: every '-' becomes a space. */
  function FormatFeatureName(name: string): (r: string)
  {
    ReplaceAll(name, '-', ' ')
  }

  /** The formatted name has no '-' left, and every other character is kept in place. */
  lemma FormatFeatureNameSpec(name: string)
    ensures |FormatFeatureName(name)| == |name|
    ensures Count('-', FormatFeatureName(name)) == 0
    ensures forall i :: 0 <= i < |name| && name[i] != '-' ==> FormatFeatureName(name)[i] == name[i]
    ensures FormatFeatureName(FormatFeatureName(name)) == FormatFeatureName(name)
  {
    NoHyphenCount(FormatFeatureName(name));
  }

  lemma {:induction false} NoHyphenCount(s: string)
    requires forall i :: 0 <= i < |s| ==> s[i] != '-'
    ensures Count('-', s) == 0
  {
    if s != [] {
      NoHyphenCount(s[1..]);
    }
  }

  /** A bar of the chart; `undefined` importance (a short importance list) is None. */
  datatype Bar = Bar(name: string, importance: Option<real>, negativeImportance: Option<real>)

  function BarAt(d: FeatureImportance, i: nat): Bar
    requires i < |d.features|
  {
    var imp := At(d.importance, i);
    Bar(d.features[i], imp, if imp.Some? then Some(-imp.value) else None)
  }

  /** `b.importance - a.importance < 0`: `a` has the larger importance; NaN compares as equal. */
  predicate MoreImportant(a: Bar, b: Bar)
  {
    a.importance.Some? && b.importance.Some? && a.importance.value > b.importance.value
  }

  function ByImportance(): (Bar, Bar) -> bool
  {
    (a: Bar, b: Bar) => MoreImportant(a, b)
  }

  /** `prepareData`: one bar per feature, largest importance first. */
  function PrepareData(featureData: Option<FeatureImportance>): (bars: seq<Bar>)
    ensures featureData.None? || |featureData.value.features| == 0 ==> bars == []
    ensures featureData.Some? ==> |bars| == |featureData.value.features|
    ensures featureData.Some? ==>
      multiset(bars) == multiset(seq(|featureData.value.features|, i requires 0 <= i < |featureData.value.features| => BarAt(featureData.value, i)))
  {
    if featureData.None? || |featureData.value.features| == 0 then []
    else
      var d := featureData.value;
      Sorting.Sort(seq(|d.features|, i requires 0 <= i < |d.features| => BarAt(d, i)), ByImportance())
  }

  /** Every bar has an importance, its negation alongside, and the importances never increase. */
  predicate Descending(bars: seq<Bar>)
  {
    (forall i :: 0 <= i < |bars| ==>
      bars[i].importance.Some? && bars[i].negativeImportance == Some(-bars[i].importance.value)) &&
    (forall i, j :: 0 <= i < j < |bars| ==> bars[i].importance.value >= bars[j].importance.value)
  }

  predicate WellFormed(b: Bar)
  {
    b.importance.Some? && b.negativeImportance == Some(-b.importance.value)
  }

  lemma DescendingOfSorted(bars: seq<Bar>)
    requires Sorting.Sorted(bars, ByImportance())
    requires Sorting.All(bars, (b: Bar) => WellFormed(b))
    ensures Descending(bars)
  {
    forall i, j | 0 <= i < j < |bars|
      ensures bars[i].importance.value >= bars[j].importance.value
    {
      assert WellFormed(bars[i]) && WellFormed(bars[j]) && !ByImportance()(bars[j], bars[i]);
    }
  }

  /** With an importance for every feature, the bars are in descending order of importance. */
  lemma PrepareDataDescending(d: FeatureImportance)
    requires |d.importance| >= |d.features|
    ensures Descending(PrepareData(Some(d)))
  {
    var ok := (b: Bar) => WellFormed(b);
    var bars := seq(|d.features|, i requires 0 <= i < |d.features| => BarAt(d, i));
    if |d.features| > 0 {
      assert Sorting.All(bars, ok);
      Sorting.SortSorted(bars, ByImportance(), ok);
      DescendingOfSorted(Sorting.Sort(bars, ByImportance()));
    }
  }

  /**
   * `applyLogScaling`: 0 for a non-positive count, otherwise the base-10
   * logarithm of count + 1 raised to at least 0.2. `log10` stands for
   * `Math.log(x) / Math.log(10)`.
   */
  function ApplyLogScaling(count: real, log10: real -> real): (r: real)
    ensures count <= 0.0 ==> r == 0.0
    ensures count > 0.0 ==> r >= 0.2 && r >= log10(count + 1.0)
    ensures count > 0.0 && log10(count + 1.0) >= 0.2 ==> r == log10(count + 1.0)
    ensures count > 0.0 && log10(count + 1.0) < 0.2 ==> r == 0.2
  {
    if count <= 0.0 then 0.0 else Max(log10(count + 1.0), 0.2)
  }

  /** One point of a feature's histogram. */
  datatype Point = Point(
    binStart: real, binEnd: real,
    frequency: real, scaledFrequency: real,
    fullFrequency: real, scaledFullFrequency: real)

  /** `fullHistogram?.counts[i] || 0`: a missing count falls back to 0 (a count of 0 stays 0). */
  function FullCount(full: Option<Histogram>, i: nat): (c: real)
    ensures full.Some? && i < |full.value.counts| ==> c == full.value.counts[i]
    ensures full.None? || i >= |full.value.counts| ==> c == 0.0
  {
    if full.Some? && i < |full.value.counts| then full.value.counts[i] else 0.0
  }

  function Scale(count: real, useLogScale: bool, log10: real -> real): real
  {
    if useLogScale then ApplyLogScaling(count, log10) else count
  }

  function HistogramOf(hists: Option<Dict<Histogram>>, feature: string): Option<Histogram>
  {
    if hists.None? then None else Get(hists.value, feature)
  }

  /**
   * `prepareHistogramData`: one point per filtered count; None when a bin
   * edge `bin_edges[i + 1]` is missing, so that `.toFixed` throws.
   */
  function PrepareHistogramData(feature: string, columnHistograms: Option<Dict<Histogram>>,
                                fullColumnHistograms: Option<Dict<Histogram>>,
                                useLogScale: bool, log10: real -> real): (r: Option<seq<Point>>)
    ensures HistogramOf(columnHistograms, feature).None? ==> r == Some([])
    ensures HistogramOf(columnHistograms, feature).Some? ==>
      var h := HistogramOf(columnHistograms, feature).value;
      (r.None? <==> |h.counts| > 0 && |h.binEdges| < |h.counts| + 1) &&
      (r.Some? ==> (|r.value| == |h.counts| &&
        forall i :: 0 <= i < |h.counts| ==>
          var full := FullCount(HistogramOf(fullColumnHistograms, feature), i);
          r.value[i] == Point(h.binEdges[i], h.binEdges[i + 1], h.counts[i], Scale(h.counts[i], useLogScale, log10),
                              full, Scale(full, useLogScale, log10))))
  {
    var h := HistogramOf(columnHistograms, feature);
    if h.None? then Some([])
    else if |h.value.counts| > 0 && |h.value.binEdges| < |h.value.counts| + 1 then None
    else
      var fh := HistogramOf(fullColumnHistograms, feature);
      Some(seq(|h.value.counts|, i requires 0 <= i < |h.value.counts| =>
        Point(h.value.binEdges[i], h.value.binEdges[i + 1], h.value.counts[i], Scale(h.value.counts[i], useLogScale, log10),
              FullCount(fh, i), Scale(FullCount(fh, i), useLogScale, log10))))
  }

  /** With the log scale off, the scaled values are the raw counts. */
  lemma LinearScaleIsIdentity(feature: string, columnHistograms: Option<Dict<Histogram>>,
                              fullColumnHistograms: Option<Dict<Histogram>>, log10: real -> real)
    ensures var r := PrepareHistogramData(feature, columnHistograms, fullColumnHistograms, false, log10);
      r.Some? ==> forall i :: 0 <= i < |r.value| ==>
        r.value[i].scaledFrequency == r.value[i].frequency && r.value[i].scaledFullFrequency == r.value[i].fullFrequency
  {
  }

  /** With the log scale on, every positive count is drawn at height 0.2 or more. */
  lemma LogScaleKeepsBarsVisible(feature: string, columnHistograms: Option<Dict<Histogram>>,
                                 fullColumnHistograms: Option<Dict<Histogram>>, log10: real -> real)
    ensures var r := PrepareHistogramData(feature, columnHistograms, fullColumnHistograms, true, log10);
      r.Some? ==> forall i :: 0 <= i < |r.value| ==>
        (r.value[i].frequency > 0.0 ==> r.value[i].scaledFrequency >= 0.2) &&
        (r.value[i].frequency <= 0.0 ==> r.value[i].scaledFrequency == 0.0)
  {
  }
}
