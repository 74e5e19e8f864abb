/**
 * Values exchanged between the dashboard's page and its cards: ranges,
 * constraint dictionaries, slider configurations and the histogram payload
 * returned by the backend.
 */
module Dashboard {
  import opened Wrappers
  import opened Numbers

  /** A `[number, number]` range as the page and the cards hold it. */
  datatype Range = Range(lo: real, hi: real)

  /** A `{min, max}` entry of the column-ranges table. */
  datatype MinMax = MinMax(min: real, max: real)

  /** The default active range: the lower 40% of [min, max]. */
  function DefaultActive(m: MinMax): (r: Range)
    ensures r.lo == m.min
    ensures m.min <= m.max ==> m.min <= r.hi <= m.max
  {
    Range(m.min, m.min + (m.max - m.min) * 0.4)
  }

  /** The default inactive range: the upper 40% of [min, max]. */
  function DefaultInactive(m: MinMax): (r: Range)
    ensures r.hi == m.max
    ensures m.min <= m.max ==> m.min <= r.lo <= m.max
  {
    Range(m.min + (m.max - m.min) * 0.6, m.max)
  }

  /** The fallback column range `{min: 0, max: 1}`. */
  const UnitRange := MinMax(0.0, 1.0)

  /**
   * `getMinMax(column)` of the range cards: the column's entry in the
   * column-ranges table, or {0, 1} for an empty or unknown column.
   */
  function GetMinMax(column: string, columnRanges: map<string, MinMax>): (m: MinMax)
    ensures column != "" && column in columnRanges ==> m == columnRanges[column]
    ensures column == "" || column !in columnRanges ==> m == UnitRange
  {
    if column == "" then UnitRange
    else if column in columnRanges then columnRanges[column]
    else UnitRange
  }

  /** The default ranges leave a gap between active and inactive when min < max. */
  lemma DefaultRangesSeparated(m: MinMax)
    requires m.min < m.max
    ensures DefaultActive(m).lo <= DefaultActive(m).hi < DefaultInactive(m).lo <= DefaultInactive(m).hi
  {
  }

  /** A numeric input field's content: empty, or the number its text parses to. */
  datatype Input = Empty | Text(parsed: Num)

  /** A `{lb, ub}` bound pair of a constraint. */
  datatype Bounds = Bounds(lb: Num, ub: Num)

  /**
   * A JavaScript object (or Python dict) keyed by strings: an association
   * list in insertion order.
   */
  type Dict<V> = seq<(string, V)>

  predicate HasKey<V>(d: Dict<V>, k: string)
  {
    exists i :: 0 <= i < |d| && d[i].0 == k
  }

  predicate DistinctKeys<V>(d: Dict<V>)
  {
    forall i, j :: 0 <= i < j < |d| ==> d[i].0 != d[j].0
  }

  function Keys<V>(d: Dict<V>): (ks: seq<string>)
    ensures |ks| == |d| && forall i :: 0 <= i < |d| ==> ks[i] == d[i].0
  {
    seq(|d|, i requires 0 <= i < |d| => d[i].0)
  }

  /** `d[k]`: the value stored under the first entry named `k`, if any. */
  function Get<V>(d: Dict<V>, k: string): (r: Option<V>)
    ensures r.None? <==> !HasKey(d, k)
    ensures r.Some? ==> exists i :: 0 <= i < |d| && d[i] == (k, r.value)
  {
    if d == [] then None
    else if d[0].0 == k then Some(d[0].1)
    else
      var r := Get(d[1..], k);
      assert r.Some? ==> exists i :: 0 <= i < |d| - 1 && d[1..][i] == (k, r.value);
      r
  }

  /**
   * `d[k] = v`: an existing key keeps its position and takes the new value,
   * a new key is appended.
   */
  function Put<V>(d: Dict<V>, k: string, v: V): (r: Dict<V>)
    ensures HasKey(d, k) ==> |r| == |d|
    ensures !HasKey(d, k) ==> r == d + [(k, v)]
    ensures forall i :: 0 <= i < |d| ==> r[i].0 == d[i].0
  {
    if d == [] then [(k, v)]
    else if d[0].0 == k then [(k, v)] + d[1..]
    else [d[0]] + Put(d[1..], k, v)
  }

  lemma {:induction false} PutGet<V>(d: Dict<V>, k: string, v: V, q: string)
    ensures Get(Put(d, k, v), q) == if q == k then Some(v) else Get(d, q)
  {
    if d != [] && d[0].0 != k {
      PutGet(d[1..], k, v, q);
    }
  }

  lemma {:induction false} PutDistinct<V>(d: Dict<V>, k: string, v: V)
    requires DistinctKeys(d)
    ensures DistinctKeys(Put(d, k, v))
  {
    if d != [] && d[0].0 != k {
      PutDistinct(d[1..], k, v);
      var r := Put(d, k, v);
      forall j | 0 < j < |r| ensures r[0].0 != r[j].0 {
        if j - 1 < |d| - 1 {
          assert r[j].0 == d[1..][j - 1].0;
        } else {
          assert r[j].0 == k;
        }
      }
    }
  }

  /** A constraint dictionary: attribute name to bound pair. */
  type Constraint = Dict<Bounds>

  /** The payload the page sends for a geomap refresh or an analysis run. */
  datatype UserPattern = UserPattern(
    constraints: Option<Constraint>,
    law: string,
    activeRange: Option<Range>,
    inactiveRange: Option<Range>)

  /** A slider of the constraint card. */
  datatype SliderConfig = SliderConfig(
    name: string, min: real, max: real, step: real, defaultValue: (Num, Num))

  /** A numpy histogram as the backend serialises it. */
  datatype Histogram = Histogram(counts: seq<real>, binEdges: seq<real>)

  datatype FeatureImportance = FeatureImportance(features: seq<string>, importance: seq<real>)

  /**
   * The histogram payload of an analysis run: `histogram_data[0]` holds the
   * inactive values, `histogram_data[1]` the active ones.
   */
  datatype HistData = HistData(
    cleanedConds: seq<string>,
    inactiveValues: seq<real>,
    activeValues: seq<real>,
    iteScores: (real, real),
    testScores: (real, real, real, real, real),
    featureImportance: Option<FeatureImportance>,
    columnHistograms: Option<Dict<Histogram>>,
    fullColumnHistograms: Option<Dict<Histogram>>)

  /** The summary statistics shown beside the histogram. */
  datatype StatInfo = StatInfo(
    inactiveMean: real,
    activeMean: real,
    pairedTPValue: real,
    mannWhitneyPValue: real,
    avgITE: real,
    stdevITE: real,
    imbalanceRatio: real,
    cohensD: real)
}
