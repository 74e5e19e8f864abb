/**
 * The constraint card: one dual-handle slider per constrained attribute,
 * with numeric inputs, add and delete, and the constraint dictionary the
 * card reports to the page.
 */
module MultiSliderCard {
  import opened Wrappers
  import opened Numbers
  import opened Dashboard

  lemma Pow10Shift(e: nat)
    requires e >= 2
    ensures Pow10(e) == 100.0 * Pow10(e - 2)
  {
  }

  /**
   * `determineStepSize(min, max)`: 0.1 for the unit range, then 0.01, 0.1
   * and 1 for ranges up to 5, 100 and 1000, and above that the power of ten
   * that splits the range into 100 to 1000 steps.
   */
  function DetermineStepSize(min: real, max: real): (s: real)
    ensures s > 0.0
    ensures max == 1.0 && min == 0.0 ==> s == 0.1
    ensures !(max == 1.0 && min == 0.0) && max - min <= 5.0 ==> s == 0.01
    ensures !(max == 1.0 && min == 0.0) && 5.0 < max - min <= 100.0 ==> s == 0.1
    ensures 100.0 < max - min <= 1000.0 ==> s == 1.0
    ensures max - min > 1000.0 ==> 100.0 * s <= max - min < 1000.0 * s && s >= 10.0
    ensures max - min > 1000.0 ==> exists e: nat :: s == Pow10(e)
  {
    var range := max - min;
    if max == 1.0 && min == 0.0 then 0.1
    else if range <= 5.0 then 0.01
    else if range <= 100.0 then 0.1
    else if range <= 1000.0 then 1.0
    else
      var e := FloorLog10(range);
      assert e >= 3 by {
        if e < 3 {
          Pow10Monotone(e, 2);
        }
      }
      Pow10Shift(e);
      Pow10Monotone(1, e - 2);
      Pow10(e - 2)
  }

  /** Outside the unit-range special case the step never shrinks as the range grows. */
  lemma StepSizeMonotone(min1: real, max1: real, min2: real, max2: real)
    requires !(max1 == 1.0 && min1 == 0.0) && !(max2 == 1.0 && min2 == 0.0)
    requires max1 - min1 <= max2 - min2
    ensures DetermineStepSize(min1, max1) <= DetermineStepSize(min2, max2)
  {
    var r1, r2 := max1 - min1, max2 - min2;
    if r1 > 1000.0 {
      var e1, e2 := FloorLog10(r1), FloorLog10(r2);
      FloorLog10Monotone(r1, r2);
      assert e1 >= 3;
      Pow10Monotone(e1 - 2, e2 - 2);
    }
  }

  /** The `{lb, ub}` entry a slider contributes: its current handle positions. */
  function BoundsOf(s: SliderConfig): Bounds
  {
    Bounds(s.defaultValue.0, s.defaultValue.1)
  }

  /** `extractConstraints`: fold the sliders, left to right, into a dictionary. */
  function ExtractConstraints(sliders: seq<SliderConfig>): Constraint
  {
    if sliders == [] then []
    else
      var last := sliders[|sliders| - 1];
      Put(ExtractConstraints(sliders[..|sliders| - 1]), last.name, BoundsOf(last))
  }

  /** The extracted dictionary holds each slider name once. */
  lemma {:induction false} ExtractConstraintsDistinct(sliders: seq<SliderConfig>)
    ensures DistinctKeys(ExtractConstraints(sliders))
  {
    if sliders != [] {
      var n := |sliders| - 1;
      ExtractConstraintsDistinct(sliders[..n]);
      PutDistinct(ExtractConstraints(sliders[..n]), sliders[n].name, BoundsOf(sliders[n]));
    }
  }

  /** Some slider carries the name `k`. */
  predicate Named(sliders: seq<SliderConfig>, k: string)
  {
    exists i :: 0 <= i < |sliders| && sliders[i].name == k
  }

  /** The extracted dictionary has an entry for exactly the slider names. */
  lemma {:induction false} ExtractConstraintsKeys(sliders: seq<SliderConfig>, k: string)
    ensures HasKey(ExtractConstraints(sliders), k) <==> Named(sliders, k)
  {
    if sliders != [] {
      var n := |sliders| - 1;
      var init, last := sliders[..n], sliders[n];
      var d := ExtractConstraints(init);
      assert ExtractConstraints(sliders) == Put(d, last.name, BoundsOf(last));
      ExtractConstraintsKeys(init, k);
      PutGet(d, last.name, BoundsOf(last), k);
      NamedSnoc(sliders, k);
    }
  }

  /** A name is carried by a non-empty slider list exactly when its front or its last slider carries it. */
  lemma NamedSnoc(sliders: seq<SliderConfig>, k: string)
    requires sliders != []
    ensures Named(sliders, k) <==> Named(sliders[..|sliders| - 1], k) || sliders[|sliders| - 1].name == k
  {
    var n := |sliders| - 1;
    if Named(sliders, k) && sliders[n].name != k {
      var i :| 0 <= i < |sliders| && sliders[i].name == k;
      assert sliders[..n][i].name == k;
    }
    if Named(sliders[..n], k) {
      var i :| 0 <= i < n && sliders[..n][i].name == k;
      assert sliders[i].name == k;
    }
  }

  /** A name maps to the bounds of the LAST slider that carries it. */
  lemma {:induction false} ExtractConstraintsLastWins(sliders: seq<SliderConfig>, k: string, i: nat)
    requires i < |sliders| && sliders[i].name == k
    requires forall j :: i < j < |sliders| ==> sliders[j].name != k
    ensures Get(ExtractConstraints(sliders), k) == Some(BoundsOf(sliders[i]))
  {
    var n := |sliders| - 1;
    var init, last := sliders[..n], sliders[n];
    PutGet(ExtractConstraints(init), last.name, BoundsOf(last), k);
    if i < n {
      assert init[i] == sliders[i];
      assert forall j :: i < j < n ==> init[j] == sliders[j];
      ExtractConstraintsLastWins(init, k, i);
    }
  }

  /** What the card hands to `onSliderChange`. */
  datatype Notification = Notification(sliders: seq<SliderConfig>, constraints: Constraint)

  /** `updateConstraintsAndNotify`: the sliders together with their extracted constraints. */
  function Notify(sliders: seq<SliderConfig>): (n: Notification)
    ensures n.sliders == sliders
    ensures forall k :: HasKey(n.constraints, k) <==> Named(sliders, k)
  {
    forall k ensures HasKey(ExtractConstraints(sliders), k) <==> Named(sliders, k) {
      ExtractConstraintsKeys(sliders, k);
    }
    Notification(sliders, ExtractConstraints(sliders))
  }

  /**
   * A typed value `c` placed at one end of a pair: editing the low end gives
   * [c, max(c, hi)], editing the high end gives [min(c, lo), c].
   */
  function EditEnd(pair: (Num, Num), position: int, c: real): (r: (Num, Num))
    requires position == 0 || position == 1
    ensures position == 0 ==> r.0 == Fin(c)
    ensures position == 0 && pair.1 != NaN ==> r.1 == (if NumLe(Fin(c), pair.1) then pair.1 else Fin(c))
    ensures position == 0 && pair.1 == NaN ==> r.1 == NaN
    ensures position == 1 ==> r.1 == Fin(c)
    ensures position == 1 && pair.0 != NaN ==> r.0 == (if NumLe(pair.0, Fin(c)) then pair.0 else Fin(c))
    ensures position == 1 && pair.0 == NaN ==> r.0 == NaN
    ensures position == 0 && pair.1 != NaN ==> NumLe(r.0, r.1)
    ensures position == 1 && pair.0 != NaN ==> NumLe(r.0, r.1)
  {
    if position == 0 then (Fin(c), JsMax(Fin(c), pair.1))
    else (JsMin(Fin(c), pair.0), Fin(c))
  }

  /** The pair with one end replaced by NaN, as an emptied input leaves it. */
  function Blank(pair: (Num, Num), position: int): (Num, Num)
    requires position == 0 || position == 1
  {
    if position == 0 then (NaN, pair.1) else (pair.0, NaN)
  }

  /** `filter((_, i) => i !== index)`: drop one position, keep the order of the rest. */
  function RemoveAt<T>(s: seq<T>, index: int): (r: seq<T>)
    ensures 0 <= index < |s| ==> |r| == |s| - 1
    ensures 0 <= index < |s| ==> forall i :: 0 <= i < |r| ==> r[i] == (if i < index then s[i] else s[i + 1])
    ensures !(0 <= index < |s|) ==> r == s
  {
    if 0 <= index < |s| then s[..index] + s[index + 1..] else s
  }

  class Card {
    var values: seq<(Num, Num)>
    var localSliders: seq<SliderConfig>
    var selectedVariable: string
    /** The `columnRanges` prop as of the latest render. */
    var columnRanges: map<string, MinMax>

    /** The displayed values and the sliders stay aligned, one pair per slider. */
    predicate Valid()
      reads this
    {
      |values| == |localSliders|
    }

    static function Defaults(sliders: seq<SliderConfig>): (vs: seq<(Num, Num)>)
      ensures |vs| == |sliders| && forall i :: 0 <= i < |sliders| ==> vs[i] == sliders[i].defaultValue
    {
      seq(|sliders|, i requires 0 <= i < |sliders| => sliders[i].defaultValue)
    }

    constructor (sliders: seq<SliderConfig>, columnRanges: map<string, MinMax>)
      ensures Valid()
      ensures values == Defaults(sliders) && localSliders == sliders
      ensures selectedVariable == "" && this.columnRanges == columnRanges
    {
      values := Defaults(sliders);
      localSliders := sliders;
      selectedVariable := "";
      this.columnRanges := columnRanges;
    }

    /** The effect on a new `sliders` prop: both lists are reset from it. */
    method SlidersChanged(sliders: seq<SliderConfig>)
      modifies this`values, this`localSliders, this`selectedVariable
      ensures Valid()
      ensures values == Defaults(sliders) && localSliders == sliders
      ensures selectedVariable == old(selectedVariable)
    {
      values := Defaults(sliders);
      localSliders := sliders;
    }

    /** A re-render with a new `columnRanges` prop; the sliders stay as they were. */
    method ColumnRangesChanged(columnRanges: map<string, MinMax>)
      modifies this`columnRanges
      ensures this.columnRanges == columnRanges
    {
      this.columnRanges := columnRanges;
    }

    method SelectVariable(column: string)
      modifies this`selectedVariable
      ensures selectedVariable == column
      ensures values == old(values) && localSliders == old(localSliders)
    {
      selectedVariable := column;
    }

    /** `handleSliderChange`: a drag moves the handles and notifies nobody. */
    method HandleSliderChange(index: nat, newValue: seq<real>)
      requires Valid() && index < |localSliders|
      modifies this`values, this`localSliders, this`selectedVariable
      ensures Valid()
      ensures |newValue| == 2 ==>
        var pair := (Fin(newValue[0]), Fin(newValue[1]));
        values == old(values)[index := pair] &&
        localSliders == old(localSliders)[index := old(localSliders)[index].(defaultValue := pair)]
      ensures |newValue| != 2 ==> values == old(values) && localSliders == old(localSliders)
      ensures selectedVariable == old(selectedVariable)
    {
      if |newValue| == 2 {
        var pair := (Fin(newValue[0]), Fin(newValue[1]));
        values := values[index := pair];
        localSliders := localSliders[index := localSliders[index].(defaultValue := pair)];
      }
    }

    /** `handleSliderCommit`: the end of a drag always notifies the page. */
    method HandleSliderCommit(index: nat, newValue: seq<real>) returns (sent: Notification)
      requires Valid() && index < |localSliders|
      modifies this`values, this`localSliders, this`selectedVariable
      ensures Valid()
      ensures |newValue| == 2 ==>
        localSliders == old(localSliders)[index := old(localSliders)[index].(defaultValue := (Fin(newValue[0]), Fin(newValue[1])))]
      ensures |newValue| != 2 ==> localSliders == old(localSliders)
      ensures values == old(values) && selectedVariable == old(selectedVariable)
      ensures sent == Notify(localSliders)
    {
      if |newValue| == 2 {
        var pair := (Fin(newValue[0]), Fin(newValue[1]));
        localSliders := localSliders[index := localSliders[index].(defaultValue := pair)];
      }
      sent := Notify(localSliders);
    }

    /**
     * `handleInputChange`: an empty field blanks that end silently; a number is
     * clamped into the slider's [min, max], placed at its end with the other
     * end pushed to keep the pair ordered, and the page is notified.
     */
    /** `input.parsed` is `Number.parseFloat` of the field's text. */
    method HandleInputChange(index: nat, position: int, input: Input) returns (sent: Option<Notification>)
      requires Valid() && index < |localSliders|
      requires position == 0 || position == 1
      modifies this`values, this`localSliders, this`selectedVariable
      ensures Valid()
      ensures selectedVariable == old(selectedVariable)
      ensures input == Empty ==>
        values == old(values)[index := Blank(old(values)[index], position)] &&
        localSliders == old(localSliders) && sent == None
      ensures input.Text? && input.parsed == NaN ==>
        values == old(values) && localSliders == old(localSliders) && sent == None
      ensures input.Text? && input.parsed != NaN ==>
        var slider := old(localSliders)[index];
        var pair := EditEnd(old(values)[index], position, ClampNum(input.parsed, slider.min, slider.max));
        values == old(values)[index := pair] &&
        localSliders == old(localSliders)[index := slider.(defaultValue := pair)] &&
        sent == Some(Notify(localSliders))
    {
      match input {
        case Empty =>
          values := values[index := Blank(values[index], position)];
          sent := None;
        case Text(x) =>
          if x == NaN {
            sent := None;
          } else {
            var slider := localSliders[index];
            var clamped := ClampNum(x, slider.min, slider.max);
            var pair := EditEnd(values[index], position, clamped);
            values := values[index := pair];
            localSliders := localSliders[index := slider.(defaultValue := pair)];
            sent := Some(Notify(localSliders));
          }
      }
    }

    /**
     * `addSlider`: with a variable selected, append a slider over the column's
     * range with handles at 10% and 60% of it, notify, and clear the selection.
     */
    method AddSlider() returns (sent: Option<Notification>)
      requires Valid()
      modifies this`values, this`localSliders, this`selectedVariable
      ensures Valid()
      ensures old(selectedVariable) == "" ==>
        values == old(values) && localSliders == old(localSliders) && selectedVariable == "" && sent == None
      ensures old(selectedVariable) != "" ==>
        var m := GetMinMax(old(selectedVariable), columnRanges);
        var low, high := m.min + (m.max - m.min) * 0.1, m.min + (m.max - m.min) * 0.6;
        var slider := SliderConfig(old(selectedVariable), m.min, m.max, DetermineStepSize(m.min, m.max), (Fin(low), Fin(high)));
        localSliders == old(localSliders) + [slider] &&
        values == old(values) + [slider.defaultValue] &&
        selectedVariable == "" &&
        sent == Some(Notify(localSliders))
      ensures old(selectedVariable) != "" && GetMinMax(old(selectedVariable), columnRanges).min <= GetMinMax(old(selectedVariable), columnRanges).max ==>
        var s := localSliders[|localSliders| - 1];
        s.defaultValue.0.Fin? && s.defaultValue.1.Fin? &&
        s.min <= s.defaultValue.0.r <= s.defaultValue.1.r <= s.max
    {
      if selectedVariable == "" {
        sent := None;
        return;
      }
      var m := GetMinMax(selectedVariable, columnRanges);
      var step := DetermineStepSize(m.min, m.max);
      var rangeSize := m.max - m.min;
      if m.min <= m.max {
        NewSliderDefaultsOrdered(m);
      }
      var slider := SliderConfig(selectedVariable, m.min, m.max, step,
                                 (Fin(m.min + rangeSize * 0.1), Fin(m.min + rangeSize * 0.6)));
      localSliders := localSliders + [slider];
      values := values + [slider.defaultValue];
      sent := Some(Notify(localSliders));
      selectedVariable := "";
    }

    /** `deleteSlider`: drop position `index` from both lists and notify. */
    method DeleteSlider(index: int) returns (sent: Notification)
      requires Valid()
      modifies this`values, this`localSliders, this`selectedVariable
      ensures Valid()
      ensures localSliders == RemoveAt(old(localSliders), index)
      ensures values == RemoveAt(old(values), index)
      ensures selectedVariable == old(selectedVariable)
      ensures sent == Notify(localSliders)
    {
      localSliders := RemoveAt(localSliders, index);
      values := RemoveAt(values, index);
      sent := Notify(localSliders);
    }
  }

  /** The handles a new slider gets lie inside its range, low before high. */
  lemma NewSliderDefaultsOrdered(m: MinMax)
    requires m.min <= m.max
    ensures m.min <= m.min + (m.max - m.min) * 0.1 <= m.min + (m.max - m.min) * 0.6 <= m.max
  {
  }
}
