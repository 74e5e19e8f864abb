/**
 * The pattern/law card: the selected law, the active and inactive ranges
 * it shows, and the callbacks it fires at the page.
 */
module DropdownCard {
  import opened Wrappers
  import opened Numbers
  import opened Dashboard
  import MultiSliderCard

  /** This card's own copy of `determineStepSize`. */
  function DetermineStepSize(min: real, max: real): (s: real)
    ensures s > 0.0
  {
    var range := max - min;
    if max == 1.0 && min == 0.0 then 0.1
    else if range <= 5.0 then 0.01
    else if range <= 100.0 then 0.1
    else if range <= 1000.0 then 1.0
    else
      var e := FloorLog10(range);
      assert e >= 3 by {
        if e < 3 {
          Pow10Monotone(e, 2);
        }
      }
      Pow10(e - 2)
  }

  /** The copy agrees with the constraint card's step rule on every input. */
  lemma StepSizeAgrees(min: real, max: real)
    ensures DetermineStepSize(min, max) == MultiSliderCard.DetermineStepSize(min, max)
  {
  }

  /** A call the card makes on the page. */
  datatype Event =
    | LawChanged(law: string)
    | ActiveRangeChanged(range: Range, law: string)
    | InactiveRangeChanged(range: Range, law: string)

  class Card {
    var selectedLaw: string
    var activeRangeValue: Range
    var inactiveRangeValue: Range
    /** The props as of the latest render. */
    var constraints: Option<Constraint>
    var columnRanges: map<string, MinMax>
    /** Whether the page passed `onActiveRangeChange`, `onInactiveRangeChange`, `onSubmit`. */
    var hasActiveCallback: bool
    var hasInactiveCallback: bool
    var hasSubmit: bool

    /** Initial state: the law prop, and the range props or [0, 0.4] and [0.6, 1]. */
    constructor (law: string, activeRange: Option<Range>, inactiveRange: Option<Range>,
                 constraints: Option<Constraint>, columnRanges: map<string, MinMax>,
                 hasActiveCallback: bool, hasInactiveCallback: bool, hasSubmit: bool)
      ensures selectedLaw == law && this.constraints == constraints
      ensures activeRangeValue == activeRange.GetOr(DefaultActive(UnitRange))
      ensures inactiveRangeValue == inactiveRange.GetOr(DefaultInactive(UnitRange))
      ensures this.columnRanges == columnRanges
      ensures this.hasActiveCallback == hasActiveCallback && this.hasInactiveCallback == hasInactiveCallback
      ensures this.hasSubmit == hasSubmit
    {
      selectedLaw := law;
      activeRangeValue := activeRange.GetOr(Range(0.0, 0.4));
      inactiveRangeValue := inactiveRange.GetOr(Range(0.6, 1.0));
      this.constraints := constraints;
      this.columnRanges := columnRanges;
      this.hasActiveCallback := hasActiveCallback;
      this.hasInactiveCallback := hasInactiveCallback;
      this.hasSubmit := hasSubmit;
    }

    /**
     * A re-render with new props: the card reads `constraints`, `columnRanges`
     * and the callbacks afresh, and its own state stays as it was.
     */
    method PropsChanged(constraints: Option<Constraint>, columnRanges: map<string, MinMax>,
                        hasActiveCallback: bool, hasInactiveCallback: bool, hasSubmit: bool)
      modifies this`constraints, this`columnRanges, this`hasActiveCallback, this`hasInactiveCallback, this`hasSubmit
      ensures this.constraints == constraints && this.columnRanges == columnRanges
      ensures this.hasActiveCallback == hasActiveCallback && this.hasInactiveCallback == hasInactiveCallback
      ensures this.hasSubmit == hasSubmit
    {
      this.constraints := constraints;
      this.columnRanges := columnRanges;
      this.hasActiveCallback := hasActiveCallback;
      this.hasInactiveCallback := hasInactiveCallback;
      this.hasSubmit := hasSubmit;
    }

    /**
     * The effects' first run after mounting, in declaration order: the law
     * effect reports the law; for a non-empty law the range effect resets
     * both ranges to the column's 40%/60% defaults and forwards them; then
     * the `activeRange` and `inactiveRange` prop effects overwrite a range
     * whose prop is defined.
     */
    method Mount(activeRange: Option<Range>, inactiveRange: Option<Range>) returns (events: seq<Event>)
      modifies this`activeRangeValue, this`inactiveRangeValue
      ensures selectedLaw == "" ==>
        events == [LawChanged(selectedLaw)] &&
        activeRangeValue == activeRange.GetOr(old(activeRangeValue)) &&
        inactiveRangeValue == inactiveRange.GetOr(old(inactiveRangeValue))
      ensures selectedLaw != "" ==>
        var m := GetMinMax(selectedLaw, columnRanges);
        events == [LawChanged(selectedLaw)] + Forward(DefaultActive(m), DefaultInactive(m), selectedLaw) &&
        activeRangeValue == activeRange.GetOr(DefaultActive(m)) &&
        inactiveRangeValue == inactiveRange.GetOr(DefaultInactive(m))
    {
      events := [LawChanged(selectedLaw)];
      if selectedLaw != "" {
        var m := GetMinMax(selectedLaw, columnRanges);
        var newActive := Range(m.min, m.min + (m.max - m.min) * 0.4);
        var newInactive := Range(m.min + (m.max - m.min) * 0.6, m.max);
        activeRangeValue := newActive;
        inactiveRangeValue := newInactive;
        if hasActiveCallback {
          events := events + [ActiveRangeChanged(newActive, selectedLaw)];
        }
        if hasInactiveCallback {
          events := events + [InactiveRangeChanged(newInactive, selectedLaw)];
        }
      }
      if activeRange.Some? {
        activeRangeValue := activeRange.value;
      }
      if inactiveRange.Some? {
        inactiveRangeValue := inactiveRange.value;
      }
    }

    /** The calls that forward a pair of ranges, one per callback the page gave. */
    function Forward(active: Range, inactive: Range, law: string): seq<Event>
      reads this
    {
      (if hasActiveCallback then [ActiveRangeChanged(active, law)] else []) +
      (if hasInactiveCallback then [InactiveRangeChanged(inactive, law)] else [])
    }

    /**
     * A new law is selected (from the law list or from the `law` prop). When
     * it differs from the current one, the law effect reports it to the
     * page; for a non-empty law the range effect then resets both ranges to
     * the 40%/60% defaults of the law's column and forwards them.
     */
    method SelectLaw(law: string) returns (events: seq<Event>)
      modifies this`selectedLaw, this`activeRangeValue, this`inactiveRangeValue
      ensures selectedLaw == law && constraints == old(constraints)
      ensures law == old(selectedLaw) ==>
        events == [] && activeRangeValue == old(activeRangeValue) && inactiveRangeValue == old(inactiveRangeValue)
      ensures law != old(selectedLaw) && law == "" ==>
        events == [LawChanged(law)] &&
        activeRangeValue == old(activeRangeValue) && inactiveRangeValue == old(inactiveRangeValue)
      ensures law != old(selectedLaw) && law != "" ==>
        var m := GetMinMax(law, columnRanges);
        activeRangeValue == DefaultActive(m) && inactiveRangeValue == DefaultInactive(m) &&
        events == [LawChanged(law)] + Forward(activeRangeValue, inactiveRangeValue, law)
      ensures law != old(selectedLaw) && law != "" && GetMinMax(law, columnRanges).min < GetMinMax(law, columnRanges).max ==>
        activeRangeValue.hi < inactiveRangeValue.lo
    {
      if law == selectedLaw {
        events := [];
        return;
      }
      selectedLaw := law;
      events := [LawChanged(law)];
      if selectedLaw != "" {
        var m := GetMinMax(selectedLaw, columnRanges);
        var newActive := Range(m.min, m.min + (m.max - m.min) * 0.4);
        var newInactive := Range(m.min + (m.max - m.min) * 0.6, m.max);
        activeRangeValue := newActive;
        inactiveRangeValue := newInactive;
        if hasActiveCallback {
          events := events + [ActiveRangeChanged(newActive, selectedLaw)];
        }
        if hasInactiveCallback {
          events := events + [InactiveRangeChanged(newInactive, selectedLaw)];
        }
        if m.min < m.max {
          DefaultRangesSeparated(m);
        }
      }
    }

    /** `handleActiveRangeChange`: keep the range and forward it with the current law. */
    method HandleActiveRangeChange(range: Range) returns (events: seq<Event>)
      modifies this`selectedLaw, this`activeRangeValue, this`inactiveRangeValue
      ensures activeRangeValue == range
      ensures inactiveRangeValue == old(inactiveRangeValue) && selectedLaw == old(selectedLaw)
      ensures constraints == old(constraints)
      ensures events == if hasActiveCallback then [ActiveRangeChanged(range, selectedLaw)] else []
    {
      activeRangeValue := range;
      events := if hasActiveCallback then [ActiveRangeChanged(range, selectedLaw)] else [];
    }

    /** `handleInactiveRangeChange`: keep the range and forward it with the current law. */
    method HandleInactiveRangeChange(range: Range) returns (events: seq<Event>)
      modifies this`selectedLaw, this`activeRangeValue, this`inactiveRangeValue
      ensures inactiveRangeValue == range
      ensures activeRangeValue == old(activeRangeValue) && selectedLaw == old(selectedLaw)
      ensures constraints == old(constraints)
      ensures events == if hasInactiveCallback then [InactiveRangeChanged(range, selectedLaw)] else []
    {
      inactiveRangeValue := range;
      events := if hasInactiveCallback then [InactiveRangeChanged(range, selectedLaw)] else [];
    }

    /** The `activeRange` prop effect: a defined prop overwrites the local range. */
    method ActiveRangePropChanged(range: Option<Range>)
      modifies this`selectedLaw, this`activeRangeValue, this`inactiveRangeValue
      ensures activeRangeValue == range.GetOr(old(activeRangeValue))
      ensures inactiveRangeValue == old(inactiveRangeValue) && selectedLaw == old(selectedLaw)
      ensures constraints == old(constraints)
    {
      if range.Some? {
        activeRangeValue := range.value;
      }
    }

    /** The `inactiveRange` prop effect: a defined prop overwrites the local range. */
    method InactiveRangePropChanged(range: Option<Range>)
      modifies this`selectedLaw, this`activeRangeValue, this`inactiveRangeValue
      ensures inactiveRangeValue == range.GetOr(old(inactiveRangeValue))
      ensures activeRangeValue == old(activeRangeValue) && selectedLaw == old(selectedLaw)
      ensures constraints == old(constraints)
    {
      if range.Some? {
        inactiveRangeValue := range.value;
      }
    }

    /** `handleSubmit`: the pattern to analyse, sent only when `onSubmit` was given. */
    method HandleSubmit() returns (submitted: Option<UserPattern>)
      ensures hasSubmit <==> submitted.Some?
      ensures submitted.Some? ==>
        submitted.value == UserPattern(constraints, selectedLaw, Some(activeRangeValue), Some(inactiveRangeValue))
    {
      if hasSubmit {
        submitted := Some(UserPattern(constraints, selectedLaw, Some(activeRangeValue), Some(inactiveRangeValue)));
      } else {
        submitted := None;
      }
    }
  }
}
