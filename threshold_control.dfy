/**
 * The two dual-handle range controls (active and inactive) with their
 * numeric inputs. Each handler returns the range it reports to the card,
 * or None when it reports nothing.
 */
module ThresholdControl {
  import opened Wrappers
  import opened Numbers
  import opened Dashboard

  /**
   * A typed value `c` placed at one end of a range without moving the other:
   * the low end becomes min(c, hi), the high end max(c, lo).
   */
  function EditRange(r: Range, index: int, c: real): (e: Range)
    requires index == 0 || index == 1
    ensures e.lo <= e.hi
    ensures index == 0 ==> e.hi == r.hi && e.lo <= c && (e.lo == c || e.lo == r.hi)
    ensures index == 1 ==> e.lo == r.lo && e.hi >= c && (e.hi == c || e.hi == r.lo)
  {
    if index == 0 then Range(Min(c, r.hi), r.hi) else Range(r.lo, Max(c, r.lo))
  }

  /** An edit of a range lying in [min, max], with `c` in [min, max], stays in [min, max]. */
  lemma EditRangeWithin(r: Range, index: int, c: real, min: real, max: real)
    requires index == 0 || index == 1
    requires min <= r.lo <= r.hi <= max && min <= c <= max
    ensures min <= EditRange(r, index, c).lo && EditRange(r, index, c).hi <= max
  {
  }

  /** The handle positions of a slider change, accepted only as a pair. */
  function SliderPair(newValue: seq<real>): (r: Option<Range>)
    ensures r.Some? <==> |newValue| == 2
    ensures r.Some? ==> r.value.lo == newValue[0] && r.value.hi == newValue[1]
  {
    if |newValue| == 2 then Some(Range(newValue[0], newValue[1])) else None
  }

  class Control {
    /** The `min` and `max` props as of the latest render. */
    var min: real
    var max: real
    var localActiveRange: Range
    var localInactiveRange: Range

    constructor (min: real, max: real, activeRange: Range, inactiveRange: Range)
      ensures this.min == min && this.max == max
      ensures localActiveRange == activeRange && localInactiveRange == inactiveRange
    {
      this.min := min;
      this.max := max;
      localActiveRange := activeRange;
      localInactiveRange := inactiveRange;
    }

    /** A re-render with new bounds (the parent passes the selected law's column range); the local ranges stay. */
    method BoundsChanged(min: real, max: real)
      modifies this`min, this`max
      ensures this.min == min && this.max == max
    {
      this.min := min;
      this.max := max;
    }

    /** The `activeRange` prop effect. */
    method ActiveRangePropChanged(range: Range)
      modifies this`localActiveRange, this`localInactiveRange
      ensures localActiveRange == range && localInactiveRange == old(localInactiveRange)
    {
      localActiveRange := range;
    }

    /** The `inactiveRange` prop effect. */
    method InactiveRangePropChanged(range: Range)
      modifies this`localActiveRange, this`localInactiveRange
      ensures localInactiveRange == range && localActiveRange == old(localActiveRange)
    {
      localInactiveRange := range;
    }

    /** A drag of the active slider: a pair is kept and forwarded as it is, unclamped. */
    method HandleActiveSliderChange(newValue: seq<real>) returns (sent: Option<Range>)
      modifies this`localActiveRange, this`localInactiveRange
      ensures sent == SliderPair(newValue)
      ensures localActiveRange == sent.GetOr(old(localActiveRange))
      ensures localInactiveRange == old(localInactiveRange)
    {
      if |newValue| == 2 {
        var typed := Range(newValue[0], newValue[1]);
        localActiveRange := typed;
        sent := Some(typed);
      } else {
        sent := None;
      }
    }

    /** A drag of the inactive slider: a pair is kept and forwarded as it is, unclamped. */
    method HandleInactiveSliderChange(newValue: seq<real>) returns (sent: Option<Range>)
      modifies this`localActiveRange, this`localInactiveRange
      ensures sent == SliderPair(newValue)
      ensures localInactiveRange == sent.GetOr(old(localInactiveRange))
      ensures localActiveRange == old(localActiveRange)
    {
      if |newValue| == 2 {
        var typed := Range(newValue[0], newValue[1]);
        localInactiveRange := typed;
        sent := Some(typed);
      } else {
        sent := None;
      }
    }

    /**
     * A typed active endpoint (`input.parsed` is `Number` of the text): empty
     * or non-numeric text changes nothing; a number is clamped into
     * [min, max] and placed at its end without moving the other end.
     */
    method HandleActiveInputChange(index: int, input: Input) returns (sent: Option<Range>)
      requires index == 0 || index == 1
      modifies this`localActiveRange, this`localInactiveRange
      ensures localInactiveRange == old(localInactiveRange)
      ensures (input == Empty || input.parsed == NaN) ==>
        sent == None && localActiveRange == old(localActiveRange)
      ensures input.Text? && input.parsed != NaN ==>
        localActiveRange == EditRange(old(localActiveRange), index, ClampNum(input.parsed, min, max)) &&
        sent == Some(localActiveRange)
      ensures sent.Some? ==> localActiveRange.lo <= localActiveRange.hi
      ensures sent.Some? && min <= old(localActiveRange).lo <= old(localActiveRange).hi <= max ==>
        min <= localActiveRange.lo && localActiveRange.hi <= max
    {
      if input == Empty {
        sent := None;
        return;
      }
      if input.parsed != NaN {
        var clamped := ClampNum(input.parsed, min, max);
        if min <= localActiveRange.lo <= localActiveRange.hi <= max {
          EditRangeWithin(localActiveRange, index, clamped, min, max);
        }
        var newRange := localActiveRange;
        if index == 0 {
          newRange := newRange.(lo := Min(clamped, newRange.hi));
        } else {
          newRange := newRange.(hi := Max(clamped, newRange.lo));
        }
        localActiveRange := newRange;
        sent := Some(newRange);
      } else {
        sent := None;
      }
    }

    /** The inactive counterpart of `HandleActiveInputChange`. */
    method HandleInactiveInputChange(index: int, input: Input) returns (sent: Option<Range>)
      requires index == 0 || index == 1
      modifies this`localActiveRange, this`localInactiveRange
      ensures localActiveRange == old(localActiveRange)
      ensures (input == Empty || input.parsed == NaN) ==>
        sent == None && localInactiveRange == old(localInactiveRange)
      ensures input.Text? && input.parsed != NaN ==>
        localInactiveRange == EditRange(old(localInactiveRange), index, ClampNum(input.parsed, min, max)) &&
        sent == Some(localInactiveRange)
      ensures sent.Some? ==> localInactiveRange.lo <= localInactiveRange.hi
      ensures sent.Some? && min <= old(localInactiveRange).lo <= old(localInactiveRange).hi <= max ==>
        min <= localInactiveRange.lo && localInactiveRange.hi <= max
    {
      if input == Empty {
        sent := None;
        return;
      }
      if input.parsed != NaN {
        var clamped := ClampNum(input.parsed, min, max);
        if min <= localInactiveRange.lo <= localInactiveRange.hi <= max {
          EditRangeWithin(localInactiveRange, index, clamped, min, max);
        }
        var newRange := localInactiveRange;
        if index == 0 {
          newRange := newRange.(lo := Min(clamped, newRange.hi));
        } else {
          newRange := newRange.(hi := Max(clamped, newRange.lo));
        }
        localInactiveRange := newRange;
        sent := Some(newRange);
      } else {
        sent := None;
      }
    }
  }
}
