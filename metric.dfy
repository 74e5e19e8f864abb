/**
 * The statistics card: its accordion, the statistics/feature-importance
 * view switch, and the pass rules behind the green and red ticks.
 */
module MetricCard {
  import opened Wrappers
  import opened Numbers
  import opened Dashboard

  /** `prev.filter((item) => item !== value)`. */
  function RemoveAll(s: seq<string>, value: string): (r: seq<string>)
    ensures multiset(r) == multiset(s)[value := 0]
    ensures forall x :: x in r <==> x in s && x != value
  {
    if s == [] then []
    else
      assert s == [s[0]] + s[1..];
      if s[0] == value then RemoveAll(s[1..], value) else [s[0]] + RemoveAll(s[1..], value)
  }

  /** `toggleAccordion`'s update: close an open item (every copy of it), open a closed one at the end. */
  function Toggled(items: seq<string>, value: string): (r: seq<string>)
    ensures value in items ==> value !in r
    ensures value !in items ==> r == items + [value]
    ensures forall x :: x != value ==> (x in r <==> x in items)
  {
    if value in items then RemoveAll(items, value) else items + [value]
  }

  /** Toggling the same item twice restores which items are open. */
  lemma ToggleTwiceRestores(items: seq<string>, value: string)
    ensures forall x :: x in Toggled(Toggled(items, value), value) <==> x in items
    ensures value !in items ==> Toggled(Toggled(items, value), value) == items
  {
    if value !in items {
      assert RemoveAll(items + [value], value) == items by {
        RemoveAllAbsent(items, value);
        RemoveAllAppend(items, value);
      }
    }
  }

  lemma {:induction false} RemoveAllAbsent(s: seq<string>, value: string)
    requires value !in s
    ensures RemoveAll(s, value) == s
  {
    if s != [] {
      RemoveAllAbsent(s[1..], value);
    }
  }

  lemma {:induction false} RemoveAllAppend(s: seq<string>, value: string)
    ensures RemoveAll(s + [value], value) == RemoveAll(s, value)
  {
    if s == [] {
      assert RemoveAll([value], value) == RemoveAll([], value);
    } else {
      assert (s + [value])[1..] == s[1..] + [value];
      RemoveAllAppend(s[1..], value);
    }
  }

  // ---------------------------------------------------------------- pass rules

  function Abs(x: real): real
  {
    if x < 0.0 then -x else x
  }

  predicate PairedTPasses(p: real) { p < 0.05 }
  predicate MannWhitneyPasses(p: real) { p < 0.05 }
  predicate ImbalancePasses(ratio: real) { ratio <= 10.0 }
  predicate CohensDPasses(d: real) { Abs(d) >= 0.2 }
  predicate KFoldPasses(nrmse: real) { nrmse <= 0.2 && nrmse >= 0.1 }

  /** Cohen's d passes on its magnitude: the sign of the effect does not matter. */
  lemma CohensDSignFree(d: real)
    ensures CohensDPasses(d) <==> CohensDPasses(-d)
    ensures CohensDPasses(d) <==> d <= -0.2 || d >= 0.2
  {
  }

  /** One accordion row: its id, the number shown, and the tick when it has one. */
  datatype StatRow = StatRow(id: string, value: real, tick: Option<bool>)

  /**
   * The rows of the statistics view, in display order; None when there is no
   * statInfo ("No statistical data available."). The k-fold row appears only
   * once a score is known; before that a spinner stands in its place.
   */
  function StatRows(statInfo: Option<StatInfo>, kFoldScore: Option<real>): (rows: Option<seq<StatRow>>)
    ensures rows.None? <==> statInfo.None?
    ensures rows.Some? ==> |rows.value| == (if kFoldScore.Some? then 7 else 6)
    ensures rows.Some? ==> forall i :: 0 <= i < |rows.value| ==> rows.value[i].id != "k-fold" || kFoldScore.Some?
  {
    if statInfo.None? then None
    else
      var s := statInfo.value;
      var base := [
        StatRow("imbalance-ratio", s.imbalanceRatio, Some(ImbalancePasses(s.imbalanceRatio))),
        StatRow("paired-t-p-value", s.pairedTPValue, Some(PairedTPasses(s.pairedTPValue))),
        StatRow("mann-whitney-p-value", s.mannWhitneyPValue, Some(MannWhitneyPasses(s.mannWhitneyPValue))),
        StatRow("cohens-d", Abs(s.cohensD), Some(CohensDPasses(s.cohensD))),
        StatRow("avg-ite", s.avgITE, None),
        StatRow("stdev-ite", s.stdevITE, None)];
      if kFoldScore.Some? then Some(base + [StatRow("k-fold", kFoldScore.value, Some(KFoldPasses(kFoldScore.value)))])
      else Some(base)
  }

  /** The ticked rows are exactly the five pass rules; the two ITE rows never carry a tick. */
  lemma TicksFollowPassRules(s: StatInfo, kFoldScore: Option<real>)
    ensures var rows := StatRows(Some(s), kFoldScore).value;
      rows[0].tick == Some(s.imbalanceRatio <= 10.0) &&
      rows[1].tick == Some(s.pairedTPValue < 0.05) &&
      rows[2].tick == Some(s.mannWhitneyPValue < 0.05) &&
      rows[3].tick == Some(s.cohensD <= -0.2 || s.cohensD >= 0.2) &&
      rows[4].tick.None? && rows[5].tick.None? &&
      (kFoldScore.Some? ==> rows[6] == StatRow("k-fold", kFoldScore.value, Some(0.1 <= kFoldScore.value <= 0.2)))
  {
  }

  /** The card's local state. */
  class Card {
    var openItems: seq<string>
    var showFeatureImportance: bool
    /** Whether the latest render passed `onViewChange`. */
    var hasOnViewChange: bool

    constructor (hasOnViewChange: bool)
      ensures openItems == [] && !showFeatureImportance && this.hasOnViewChange == hasOnViewChange
    {
      openItems := [];
      showFeatureImportance := false;
      this.hasOnViewChange := hasOnViewChange;
    }

    /** A re-render that passes or drops `onViewChange`; the open items and the view stay. */
    method CallbackChanged(hasOnViewChange: bool)
      modifies this`hasOnViewChange
      ensures this.hasOnViewChange == hasOnViewChange
    {
      this.hasOnViewChange := hasOnViewChange;
    }

    method ToggleAccordion(value: string)
      modifies this`openItems
      ensures openItems == Toggled(old(openItems), value)
    {
      openItems := Toggled(openItems, value);
    }

    /** `toggleView`: flip the view and report the new value to `onViewChange` when one is given. */
    method ToggleView() returns (notified: Option<bool>)
      modifies this`showFeatureImportance
      ensures showFeatureImportance == !old(showFeatureImportance)
      ensures notified == if hasOnViewChange then Some(showFeatureImportance) else None
    {
      var newValue := !showFeatureImportance;
      showFeatureImportance := newValue;
      notified := if hasOnViewChange then Some(newValue) else None;
    }
  }
}
