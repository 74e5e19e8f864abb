/** The treatment (law) picker: option labels, the option list and the reset to the first option. */
module DropdownLaw {
  import opened Wrappers
  import opened Strings

  /** `word.charAt(0).toUpperCase() + word.slice(1)`. */
  function Capitalise(word: string): (r: string)
    ensures |r| == |word|
    ensures word != [] ==> r[0] == Upper(word[0]) && r[1..] == word[1..]
  {
    if word == [] then [] else [Upper(word[0])] + word[1..]
  }

  /** Capitalise every space-separated word of one `_`-separated part. */
  function FormatPart(part: string): string
  {
    var words := Split(part, ' ');
    Join(seq(|words|, i requires 0 <= i < |words| => Capitalise(words[i])), " ")
  }

  /** `formatLawLabel`: '-' to ' ', split on '_', capitalise the words, join the parts with " - ". */
  function FormatLawLabel(lawName: string): string
  {
    Join(FormatParts(Split(ReplaceAll(lawName, '-', ' '), '_')), " - ")
  }

  /** Every part formatted on its own, in order. */
  function FormatParts(parts: seq<string>): (r: seq<string>)
    ensures |r| == |parts|
  {
    seq(|parts|, i requires 0 <= i < |parts| => FormatPart(parts[i]))
  }

  /** Capitalising never produces a character that is not a capital letter from one that was absent. */
  lemma CapitaliseAvoids(c: char, word: string)
    requires c !in word && !('A' <= c <= 'Z')
    ensures c !in Capitalise(word)
  {
    if word != [] {
      assert Capitalise(word) == [Upper(word[0])] + word[1..];
      assert word == [word[0]] + word[1..];
    }
  }

  lemma FormatPartAvoids(c: char, part: string)
    requires c !in part && c != ' ' && !('A' <= c <= 'Z')
    ensures c !in FormatPart(part)
  {
    var words := Split(part, ' ');
    SplitPartsAvoid(c, part, ' ');
    forall i | 0 <= i < |words|
      ensures c !in Capitalise(words[i])
    {
      CapitaliseAvoids(c, words[i]);
    }
    JoinAvoids(c, seq(|words|, i requires 0 <= i < |words| => Capitalise(words[i])), " ");
  }

  /**
   * A label has no '_' left, and each '_' of the column name became exactly
   * one " - " separator: its '-' count is the name's '_' count.
   */
  lemma FormatLawLabelSeparators(lawName: string)
    ensures '_' !in FormatLawLabel(lawName)
    ensures Count('-', FormatLawLabel(lawName)) == Count('_', lawName)
  {
    var spaced := ReplaceAll(lawName, '-', ' ');
    var parts := Split(spaced, '_');
    CountReplaceOther('_', lawName, '-', ' ');
    SplitShape(spaced, '_');
    assert '-' !in spaced;
    SplitPartsAvoid('-', spaced, '_');
    forall k | 0 <= k < |parts|
      ensures '_' !in parts[k]
    {
      CountZeroIffAbsent('_', parts[k]);
    }
    FormattedPartsClean(parts);
    var formatted := FormatParts(parts);
    JoinAvoids('_', formatted, " - ");
    assert Count('-', " - ") == 1;
    CountJoin('-', formatted, " - ");
    assert Count('-', Join(formatted, " - ")) == |parts| - 1;
    assert FormatLawLabel(lawName) == Join(formatted, " - ");
  }

  /** Parts free of '_' and '-' stay free of them once formatted. */
  lemma FormattedPartsClean(parts: seq<string>)
    requires forall k :: 0 <= k < |parts| ==> '_' !in parts[k] && '-' !in parts[k]
    ensures forall k :: 0 <= k < |parts| ==> '_' !in FormatParts(parts)[k] && Count('-', FormatParts(parts)[k]) == 0
  {
    var formatted := FormatParts(parts);
    forall k | 0 <= k < |parts|
      ensures '_' !in formatted[k] && Count('-', formatted[k]) == 0
    {
      FormatPartAvoids('_', parts[k]);
      FormatPartAvoids('-', parts[k]);
      CountZeroIffAbsent('-', formatted[k]);
    }
  }

  /** One entry of the picker. */
  datatype Law = Law(value: string, labelText: string)

  /** The option list: one entry per available column, in order. */
  function LawOptions(availableColumns: seq<string>): (laws: seq<Law>)
    ensures |laws| == |availableColumns|
    ensures forall i :: 0 <= i < |laws| ==> laws[i] == Law(availableColumns[i], FormatLawLabel(availableColumns[i]))
  {
    seq(|availableColumns|, i requires 0 <= i < |availableColumns| =>
      Law(availableColumns[i], FormatLawLabel(availableColumns[i])))
  }

  /** `laws.find((law) => law.value === value)`. */
  function FindLaw(laws: seq<Law>, value: string): (r: Option<Law>)
    ensures r.None? <==> forall i :: 0 <= i < |laws| ==> laws[i].value != value
    ensures r.Some? ==> exists i :: (0 <= i < |laws| && laws[i] == r.value && r.value.value == value &&
      forall j :: 0 <= j < i ==> laws[j].value != value)
  {
    if laws == [] then None
    else if laws[0].value == value then Some(laws[0])
    else
      var rest := FindLaw(laws[1..], value);
      assert forall i :: 1 <= i < |laws| ==> laws[i] == laws[1..][i - 1];
      if rest.Some? then
        var i :| (0 <= i < |laws[1..]| && laws[1..][i] == rest.value && rest.value.value == value &&
          forall j :: 0 <= j < i ==> laws[1..][j].value != value);
        assert laws[i + 1] == rest.value;
        rest
      else rest
  }

  class Combobox {
    var laws: seq<Law>
    var isLoading: bool

    constructor ()
      ensures laws == [] && !isLoading
    {
      laws := [];
      isLoading := false;
    }

    /**
     * The columns effect: with a non-empty column list, rebuild the options
     * and ask for the first option when a non-empty current value is not
     * among them; with an empty list, do nothing.
     */
    method ColumnsChanged(availableColumns: seq<string>, value: string) returns (reset: Option<string>)
      modifies this`laws, this`isLoading
      ensures |availableColumns| == 0 ==> laws == old(laws) && isLoading == old(isLoading) && reset.None?
      ensures |availableColumns| > 0 ==> laws == LawOptions(availableColumns) && !isLoading
      ensures reset.Some? <==> |availableColumns| > 0 && value != "" && value !in availableColumns
      ensures reset.Some? ==> reset.value == availableColumns[0]
    {
      reset := None;
      if |availableColumns| > 0 {
        isLoading := true;
        var options := LawOptions(availableColumns);
        laws := options;
        isLoading := false;
        if value != "" && |options| > 0 && FindLaw(options, value).None? {
          reset := Some(options[0].value);
        }
        assert value in availableColumns <==> exists i :: 0 <= i < |options| && options[i].value == value;
      }
    }
  }
}
