/**
 * The county map: FIPS keys of the county data, and the per-county
 * colouring, opacity, tooltip status and click gate.
 */
module ChoroplethMap {
  import opened Wrappers
  import opened Numbers

  // ---------------------------------------------------------------- FIPS keys

  function Zeros(n: nat): (z: string)
    ensures |z| == n && forall i :: 0 <= i < n ==> z[i] == '0'
  {
    if n == 0 then [] else Zeros(n - 1) + ['0']
  }

  /** `fips.padStart(5, '0')`. */
  function PadFips(fips: string): (key: string)
    ensures |key| == (if |fips| >= 5 then |fips| else 5)
    ensures |fips| >= 5 ==> key == fips
    ensures |fips| < 5 ==> key == Zeros(5 - |fips|) + fips
  {
    if |fips| >= 5 then fips else Zeros(5 - |fips|) + fips
  }

  predicate IsDigit(ch: char) { '0' <= ch <= '9' }

  /** The value of a decimal digit string, read left to right. */
  function DigitsValue(s: string): nat
    requires forall i :: 0 <= i < |s| ==> IsDigit(s[i])
  {
    if s == [] then 0
    else
      assert IsDigit(s[|s| - 1]);
      DigitsValue(s[..|s| - 1]) * 10 + (s[|s| - 1] as int - '0' as int)
  }

  /**
   * `Number(id)` for a county id: the decimal value of a digit string, None
   * (NaN, which no list includes) for anything else. The other forms
   * `Number` accepts (surrounding whitespace, a sign, a decimal point,
   * `0x` hex, an exponent, the empty string as 0) are not modelled: they
   * give None here.
   */
  function NumberOf(id: string): Option<nat>
  {
    if forall i :: 0 <= i < |id| ==> IsDigit(id[i]) then Some(DigitsValue(id)) else None
  }

  lemma {:induction false} LeadingZeroValue(s: string)
    requires forall i :: 0 <= i < |s| ==> IsDigit(s[i])
    ensures DigitsValue(['0'] + s) == DigitsValue(s)
  {
    if s != [] {
      var t := ['0'] + s;
      assert t[..|t| - 1] == ['0'] + s[..|s| - 1];
      LeadingZeroValue(s[..|s| - 1]);
    }
  }

  lemma {:induction false} ZerosValue(n: nat, s: string)
    requires forall i :: 0 <= i < |s| ==> IsDigit(s[i])
    ensures forall i :: 0 <= i < |Zeros(n) + s| ==> IsDigit((Zeros(n) + s)[i])
    ensures DigitsValue(Zeros(n) + s) == DigitsValue(s)
  {
    if n > 0 {
      ZerosValue(n - 1, s);
      assert Zeros(n) + s == ['0'] + (Zeros(n - 1) + s) by {
        assert Zeros(n) == Zeros(n - 1) + ['0'];
        assert forall i :: 0 <= i < n ==> Zeros(n)[i] == '0';
      }
      LeadingZeroValue(Zeros(n - 1) + s);
      assert DigitsValue(Zeros(n) + s) == DigitsValue(['0'] + (Zeros(n - 1) + s));
    } else {
      assert Zeros(0) + s == s;
    }
  }

  /** Padding a numeric FIPS code does not change the county number it denotes. */
  lemma PadFipsKeepsNumber(fips: string)
    ensures NumberOf(PadFips(fips)) == NumberOf(fips)
  {
    if |fips| < 5 {
      if forall i :: 0 <= i < |fips| ==> IsDigit(fips[i]) {
        ZerosValue(5 - |fips|, fips);
      } else {
        var i :| 0 <= i < |fips| && !IsDigit(fips[i]);
        assert PadFips(fips)[5 - |fips| + i] == fips[i];
      }
    }
  }

  // ---------------------------------------------------------------- CSV load

  /** One row of the county CSV, its death rate already passed through `parseFloat`. */
  datatype CsvRow = CsvRow(fips: string, deathRate: Num)

  /** The county data map after `dataMap.set(fips, row)` for each row in turn. */
  function DataMapOf(rows: seq<CsvRow>): (m: map<string, CsvRow>)
    ensures forall k :: k in m <==> exists i :: 0 <= i < |rows| && PadFips(rows[i].fips) == k
  {
    if rows == [] then map[]
    else
      var init := rows[..|rows| - 1];
      var m := DataMapOf(init);
      assert forall i :: 0 <= i < |init| ==> init[i] == rows[i];
      m[PadFips(rows[|rows| - 1].fips) := rows[|rows| - 1]]
  }

  /** A later row with the same padded FIPS overwrites an earlier one. */
  lemma {:induction false} DataMapLastWins(rows: seq<CsvRow>, i: nat)
    requires i < |rows|
    requires forall j :: i < j < |rows| ==> PadFips(rows[j].fips) != PadFips(rows[i].fips)
    ensures DataMapOf(rows)[PadFips(rows[i].fips)] == rows[i]
  {
    if i < |rows| - 1 {
      var init := rows[..|rows| - 1];
      assert forall j :: i < j < |init| ==> init[j] == rows[j];
      DataMapLastWins(init, i);
    }
  }

  /** The CSV load: fill the data map row by row. */
  method LoadCountyData(rows: seq<CsvRow>) returns (data: map<string, CsvRow>)
    ensures data == DataMapOf(rows)
  {
    data := map[];
    var i := 0;
    while i < |rows|
      invariant 0 <= i <= |rows|
      invariant data == DataMapOf(rows[..i])
    {
      assert rows[..i + 1][..i] == rows[..i];
      data := data[PadFips(rows[i].fips) := rows[i]];
      i := i + 1;
    }
    assert rows[..|rows|] == rows;
  }

  // ---------------------------------------------------------------- colouring

  /** The props the map draws with; `indices` may be null. */
  datatype View = View(colorScheme: string, indices: Option<seq<int>>, activeIndices: seq<int>, inactiveIndices: seq<int>)

  /** `indices ? indices : []`. */
  function SelectedIndices(v: View): (s: seq<int>)
    ensures v.indices.None? ==> s == []
  {
    v.indices.GetOr([])
  }

  predicate IsActiveCounty(v: View, id: string)
  {
    NumberOf(id).Some? && NumberOf(id).value in v.activeIndices
  }

  predicate IsInactiveCounty(v: View, id: string)
  {
    NumberOf(id).Some? && NumberOf(id).value in v.inactiveIndices
  }

  predicate InIndices(v: View, id: string)
  {
    NumberOf(id).Some? && NumberOf(id).value in SelectedIndices(v)
  }

  /** The colour a county is filled with. */
  datatype Fill = Grey | RedScale(rate: Num) | BlueScale(rate: Num) | DefaultScale(rate: Num)

  /** `getFillColor`. */
  function FillColor(v: View, data: map<string, CsvRow>, id: string): (f: Fill)
    ensures id !in data ==> f == Grey
    ensures id in data && v.colorScheme == "dual" ==>
      (f == Grey <==> !IsActiveCounty(v, id) && !IsInactiveCounty(v, id))
    ensures id in data && v.colorScheme == "dual" && IsActiveCounty(v, id) ==> f == RedScale(data[id].deathRate)
    ensures id in data && v.colorScheme == "dual" && !IsActiveCounty(v, id) && IsInactiveCounty(v, id) ==> f == BlueScale(data[id].deathRate)
    ensures id in data && v.colorScheme == "active" ==> f == RedScale(data[id].deathRate)
    ensures id in data && v.colorScheme == "inactive" ==> f == BlueScale(data[id].deathRate)
    ensures id in data && v.colorScheme !in {"dual", "active", "inactive"} ==> f == DefaultScale(data[id].deathRate)
  {
    if id !in data then Grey
    else
      var rate := data[id].deathRate;
      if v.colorScheme == "dual" then
        if IsActiveCounty(v, id) then RedScale(rate)
        else if IsInactiveCounty(v, id) then BlueScale(rate)
        else Grey
      else if v.colorScheme == "active" then RedScale(rate)
      else if v.colorScheme == "inactive" then BlueScale(rate)
      else DefaultScale(rate)
  }

  /** `getOpacity`. */
  function Opacity(v: View, id: string): (o: real)
    ensures v.colorScheme in {"dual", "default"} ==> (o == 1.0 <==> IsActiveCounty(v, id) || IsInactiveCounty(v, id))
    ensures v.colorScheme in {"dual", "default"} && !(IsActiveCounty(v, id) || IsInactiveCounty(v, id)) ==> o == 0.15
    ensures v.colorScheme !in {"dual", "default"} ==> (o == 1.0 <==> InIndices(v, id))
    ensures v.colorScheme !in {"dual", "default"} && !InIndices(v, id) ==> o == 0.2
  {
    if v.colorScheme == "dual" || v.colorScheme == "default" then
      if IsActiveCounty(v, id) || IsInactiveCounty(v, id) then 1.0 else 0.15
    else if InIndices(v, id) then 1.0 else 0.2
  }

  /** The status line of the tooltip, shown only in dual mode and only over a county with data. */
  function TooltipStatus(v: View, data: map<string, CsvRow>, id: string): (s: Option<string>)
    ensures s.Some? <==> id in data && v.colorScheme == "dual"
    ensures s.Some? && IsInactiveCounty(v, id) ==> s.value == "Inactive"
    ensures s.Some? && IsActiveCounty(v, id) && !IsInactiveCounty(v, id) ==> s.value == "Active"
    ensures s.Some? && !IsActiveCounty(v, id) && !IsInactiveCounty(v, id) ==> s.value == "Not in selection"
  {
    if id !in data || v.colorScheme != "dual" then None
    else
      var status := "Not in selection";
      var status := if IsActiveCounty(v, id) then "Active" else status;
      var status := if IsInactiveCounty(v, id) then "Inactive" else status;
      Some(status)
  }

  /** The click handler: the county number passed to `onCountyClick`, if the county is in the selection. */
  function ClickedCounty(v: View, id: string): (c: Option<nat>)
    ensures c.Some? ==> Some(c.value) == NumberOf(id)
    ensures v.colorScheme == "dual" ==> (c.Some? <==> IsActiveCounty(v, id) || IsInactiveCounty(v, id))
    ensures v.colorScheme != "dual" ==> (c.Some? <==> InIndices(v, id))
  {
    var inSelection := if v.colorScheme == "dual" then IsActiveCounty(v, id) || IsInactiveCounty(v, id)
                       else InIndices(v, id);
    if inSelection then NumberOf(id) else None
  }

  /**
   * Outside the default scheme a county reacts to clicks exactly when it is
   * drawn at full opacity; in dual mode a clickable county with data is
   * never grey.
   */
  lemma ClickableIffOpaque(v: View, data: map<string, CsvRow>, id: string)
    requires v.colorScheme != "default"
    ensures ClickedCounty(v, id).Some? <==> Opacity(v, id) == 1.0
    ensures v.colorScheme == "dual" && id in data ==> (ClickedCounty(v, id).Some? <==> FillColor(v, data, id) != Grey)
  {
  }

  /** With null indices, no county is selected outside the dual and default schemes. */
  lemma NullIndicesSelectNothing(v: View, id: string)
    requires v.indices.None? && v.colorScheme !in {"dual", "default"}
    ensures Opacity(v, id) == 0.2
    ensures ClickedCounty(v, id).None?
  {
  }
}
