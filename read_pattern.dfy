/**
 * `read_pattern`: one mined pattern turned into row filters over the main
 * table, the indices of the rows that pass them, and the law column the
 * pattern names. The pattern text is read with `inf` bound to `math.inf`,
 * so bounds here are `Num`s; the filters are data, not evaluated strings.
 */
module ReadPattern {
  import opened Wrappers
  import opened Numbers
  import opened Dashboard

  /** Columns at this position or later are law columns, not attributes. */
  const LawColumnStart := 27

  /** A pattern entry: its `in`, `lb` and `ub` keys, each present or absent. */
  datatype PatternBound = PatternBound(isIn: Option<seq<real>>, lb: Option<Num>, ub: Option<Num>)

  /** One generated filter `df_sub[column] ... value`. */
  datatype Cond =
    | IsIn(column: string, values: seq<real>)
    | EqualTo(column: string, v: real)
    | AtLeast(column: string, v: real)
    | AtMost(column: string, v: real)

  /** A row of the main table: column name to value; a missing column is NaN. */
  type Cells = map<string, real>

  /** Whether `df_sub.loc[eval(cond)]` keeps the row (NaN compares false). */
  predicate Holds(c: Cond, row: Cells)
  {
    c.column in row &&
    match c
    case IsIn(col, vs) => row[col] in vs
    case EqualTo(col, v) => row[col] == v
    case AtLeast(col, v) => row[col] >= v
    case AtMost(col, v) => row[col] <= v
  }

  predicate Satisfies(row: Cells, conds: seq<Cond>)
  {
    forall k :: 0 <= k < |conds| ==> Holds(conds[k], row)
  }

  /** `columns.get_loc(key)`: the position of the first column named `key`. */
  function IndexOf(columns: seq<string>, key: string): (r: Option<nat>)
    ensures r.None? <==> key !in columns
    ensures r.Some? ==> r.value < |columns| && columns[r.value] == key && key !in columns[..r.value]
  {
    if columns == [] then None
    else if columns[0] == key then Some(0)
    else
      var r := IndexOf(columns[1..], key);
      if r.None? then None
      else
        assert columns[..r.value + 1] == [columns[0]] + columns[1..][..r.value];
        Some(r.value + 1)
  }

  /** Python's `==` on floats: NaN equals nothing. */
  predicate PyEq(a: Num, b: Num)
  {
    a != NaN && a == b
  }

  /** What one attribute entry contributes: its filters, or an exception. */
  datatype KeyConds = Raises | Emits(conds: seq<Cond>)

  /**
   * The filters of one attribute entry. `in` wins; otherwise a bound pair
   * with only one side present raises KeyError; equal bounds give one
   * equality; otherwise a bound at the matching infinity is skipped. A
   * filter whose text would print `inf` or `nan` raises NameError when
   * evaluated.
   */
  function KeyConditions(key: string, b: PatternBound): KeyConds
  {
    if b.isIn.Some? then Emits([IsIn(key, b.isIn.value)])
    else if b.lb.None? && b.ub.None? then Emits([])
    else if b.lb.None? || b.ub.None? then Raises
    else
      var lb, ub := b.lb.value, b.ub.value;
      if PyEq(lb, ub) then
        (if lb.Fin? then Emits([EqualTo(key, lb.r)]) else Raises)
      else if (lb != NegInf && !lb.Fin?) || (ub != PosInf && !ub.Fin?) then Raises
      else
        Emits((if lb.Fin? then [AtLeast(key, lb.r)] else []) + (if ub.Fin? then [AtMost(key, ub.r)] else []))
  }

  /** The value of `key` in `row` as a number, NaN when missing. */
  function CellOf(row: Cells, key: string): Num
  {
    if key in row then Fin(row[key]) else NaN
  }

  /** The constraint an attribute entry states about a row, read as intervals and sets. */
  predicate WithinBound(row: Cells, key: string, b: PatternBound)
  {
    if b.isIn.Some? then key in row && row[key] in b.isIn.value
    else if b.lb.Some? && b.ub.Some? then NumLe(b.lb.value, CellOf(row, key)) && NumLe(CellOf(row, key), b.ub.value)
    else true
  }

  /**
   * The generated filters mean what the entry says: a row with a value in
   * that column passes them exactly when the value lies within the bounds
   * (or in the `in` list). Skipping an infinite bound loses nothing.
   */
  lemma KeyConditionsMeaning(key: string, b: PatternBound, row: Cells)
    requires KeyConditions(key, b).Emits?
    requires key in row
    ensures Satisfies(row, KeyConditions(key, b).conds) <==> WithinBound(row, key, b)
  {
    var cs := KeyConditions(key, b).conds;
    if b.isIn.None? && b.lb.Some? && b.ub.Some? && !PyEq(b.lb.value, b.ub.value) {
      if b.lb.value.Fin? && b.ub.value.Fin? {
        assert cs == [AtLeast(key, b.lb.value.r), AtMost(key, b.ub.value.r)];
        assert Satisfies(row, cs) <==> Holds(cs[0], row) && Holds(cs[1], row);
      } else if b.lb.value.Fin? {
        assert cs == [AtLeast(key, b.lb.value.r)];
        assert Satisfies(row, cs) <==> Holds(cs[0], row);
      } else if b.ub.value.Fin? {
        assert cs == [AtMost(key, b.ub.value.r)];
        assert Satisfies(row, cs) <==> Holds(cs[0], row);
      }
    } else if b.isIn.None? && b.lb.Some? && b.ub.Some? {
      assert cs == [EqualTo(key, b.lb.value.r)];
      assert Satisfies(row, cs) <==> Holds(cs[0], row);
    } else if b.isIn.Some? {
      assert Satisfies(row, cs) <==> Holds(cs[0], row);
    }
  }

  /** An entry with both bounds infinite, or with no keys at all, filters nothing. */
  lemma UnboundedEntryEmitsNothing(key: string, b: PatternBound)
    requires b.isIn.None?
    requires (b.lb == Some(NegInf) && b.ub == Some(PosInf)) || (b.lb.None? && b.ub.None?)
    ensures KeyConditions(key, b) == Emits([])
  {
  }

  /** Whether an entry names a law column: known and at position 27 or later. */
  predicate IsLawKey(columns: seq<string>, key: string)
  {
    var i := IndexOf(columns, key);
    i.Some? && i.value >= LawColumnStart
  }

  /**
   * The filters of a whole pattern in key order, skipping law keys; None
   * when some key is not a column or some attribute entry raises.
   */
  function PatternConds(pattern: Dict<PatternBound>, columns: seq<string>): Option<seq<Cond>>
  {
    if pattern == [] then Some([])
    else
      var front := PatternConds(pattern[..|pattern| - 1], columns);
      var (key, b) := pattern[|pattern| - 1];
      if front.None? || key !in columns then None
      else if IsLawKey(columns, key) then front
      else if KeyConditions(key, b).Raises? then None
      else Some(front.value + KeyConditions(key, b).conds)
  }

  /** `law = key` for every law column met on the way: the last such key, or "" if none. */
  function PatternLaw(pattern: Dict<PatternBound>, columns: seq<string>): string
  {
    if pattern == [] then ""
    else if IsLawKey(columns, pattern[|pattern| - 1].0) then pattern[|pattern| - 1].0
    else PatternLaw(pattern[..|pattern| - 1], columns)
  }

  /** Law detection: a pattern without law columns leaves the law "". */
  lemma {:induction false} PatternLawNone(pattern: Dict<PatternBound>, columns: seq<string>)
    requires forall k :: 0 <= k < |pattern| ==> !IsLawKey(columns, pattern[k].0)
    ensures PatternLaw(pattern, columns) == ""
  {
    if pattern != [] {
      var init := pattern[..|pattern| - 1];
      assert forall k :: 0 <= k < |init| ==> init[k] == pattern[k];
      PatternLawNone(init, columns);
    }
  }

  /** Law detection: of several law columns among the keys, the last one is the law. */
  lemma {:induction false} PatternLawLastWins(pattern: Dict<PatternBound>, columns: seq<string>, k: nat)
    requires k < |pattern| && IsLawKey(columns, pattern[k].0)
    requires forall j :: k < j < |pattern| ==> !IsLawKey(columns, pattern[j].0)
    ensures PatternLaw(pattern, columns) == pattern[k].0
  {
    if k < |pattern| - 1 {
      var init := pattern[..|pattern| - 1];
      assert forall j :: 0 <= j < |init| ==> init[j] == pattern[j];
      PatternLawLastWins(init, columns, k);
    }
  }

  /** The positions of the rows that pass every filter, in ascending order. */
  function Survivors(rows: seq<Cells>, conds: seq<Cond>): (idx: seq<nat>)
    ensures forall k :: 0 <= k < |idx| ==> idx[k] < |rows|
  {
    if rows == [] then []
    else
      var front := Survivors(rows[..|rows| - 1], conds);
      if Satisfies(rows[|rows| - 1], conds) then front + [|rows| - 1] else front
  }

  /** A position survives exactly when its row passes every filter. */
  lemma {:induction false} SurvivorsMeaning(rows: seq<Cells>, conds: seq<Cond>, i: nat)
    ensures i in Survivors(rows, conds) <==> i < |rows| && Satisfies(rows[i], conds)
  {
    if rows != [] {
      SurvivorsMeaning(rows[..|rows| - 1], conds, i);
    }
  }

  /** The survivors are listed in strictly ascending order. */
  lemma {:induction false} SurvivorsAscending(rows: seq<Cells>, conds: seq<Cond>)
    ensures forall a, b :: 0 <= a < b < |Survivors(rows, conds)| ==> Survivors(rows, conds)[a] < Survivors(rows, conds)[b]
  {
    if rows != [] {
      SurvivorsAscending(rows[..|rows| - 1], conds);
    }
  }

  /** `df_sub.loc[eval(cond)]` on the surviving positions. */
  function Narrow(rows: seq<Cells>, idx: seq<nat>, c: Cond): (r: seq<nat>)
    requires forall k :: 0 <= k < |idx| ==> idx[k] < |rows|
    ensures forall k :: 0 <= k < |r| ==> r[k] < |rows|
  {
    if idx == [] then []
    else
      var front := Narrow(rows, idx[..|idx| - 1], c);
      if Holds(c, rows[idx[|idx| - 1]]) then front + [idx[|idx| - 1]] else front
  }

  /** Filtering the survivors by one more condition gives the survivors of the longer list. */
  lemma {:induction false} NarrowSurvivors(rows: seq<Cells>, conds: seq<Cond>, c: Cond)
    ensures Narrow(rows, Survivors(rows, conds), c) == Survivors(rows, conds + [c])
  {
    if rows != [] {
      var init := rows[..|rows| - 1];
      NarrowSurvivors(init, conds, c);
      var s := Survivors(rows, conds);
      NarrowPrefix(rows, init, Survivors(init, conds), c);
      var last := rows[|rows| - 1];
      assert Satisfies(last, conds + [c]) <==> Satisfies(last, conds) && Holds(c, last) by {
        assert forall k :: 0 <= k < |conds| ==> (conds + [c])[k] == conds[k];
        assert (conds + [c])[|conds|] == c;
      }
      if Satisfies(last, conds) {
        assert s[..|s| - 1] == Survivors(init, conds);
      }
    }
  }

  /** Narrowing positions of a prefix does not depend on the rows after it. */
  lemma {:induction false} NarrowPrefix(rows: seq<Cells>, init: seq<Cells>, idx: seq<nat>, c: Cond)
    requires init <= rows
    requires forall k :: 0 <= k < |idx| ==> idx[k] < |init|
    ensures Narrow(rows, idx, c) == Narrow(init, idx, c)
  {
    if idx != [] {
      NarrowPrefix(rows, init, idx[..|idx| - 1], c);
    }
  }

  /** The outcome of `read_pattern`: an exception, or the surviving indices, the filters and the law. */
  datatype ReadOutcome = Raised | Read(indices: seq<nat>, conds: seq<Cond>, law: string)

  /**
   * `read_pattern`: walk the pattern's keys in order; a law column becomes
   * the law, an attribute's filters are applied to the table one by one as
   * they are generated.
   */
  method ReadPatternRows(pattern: Dict<PatternBound>, columns: seq<string>, rows: seq<Cells>) returns (r: ReadOutcome)
    ensures r.Raised? <==> PatternConds(pattern, columns).None?
    ensures r.Read? ==> r.conds == PatternConds(pattern, columns).value
    ensures r.Read? ==> r.law == PatternLaw(pattern, columns)
    ensures r.Read? ==> r.indices == Survivors(rows, r.conds)
  {
    var conds: seq<Cond> := [];
    var law := "";
    var idx := Survivors(rows, []);
    for k := 0 to |pattern|
      invariant PatternConds(pattern[..k], columns) == Some(conds)
      invariant law == PatternLaw(pattern[..k], columns)
      invariant idx == Survivors(rows, conds)
    {
      PatternStep(pattern, columns, k);
      var (key, b) := pattern[k];
      var pos := IndexOf(columns, key);
      if pos.None? {
        PatternCondsFails(pattern, columns, k + 1);
        return Raised;
      }
      if pos.value >= LawColumnStart {
        law := key;
        continue;
      }
      var kc := KeyConditions(key, b);
      if kc.Raises? {
        PatternCondsFails(pattern, columns, k + 1);
        return Raised;
      }
      idx := ApplyConds(rows, idx, conds, kc.conds);
      conds := conds + kc.conds;
    }
    assert pattern[..|pattern|] == pattern;
    return Read(idx, conds, law);
  }

  /** Taking one more key of the pattern: the filters and the law after it. */
  lemma PatternStep(pattern: Dict<PatternBound>, columns: seq<string>, k: nat)
    requires k < |pattern|
    ensures PatternConds(pattern[..k + 1], columns) ==
      var front := PatternConds(pattern[..k], columns);
      var (key, b) := pattern[k];
      if front.None? || key !in columns then None
      else if IsLawKey(columns, key) then front
      else if KeyConditions(key, b).Raises? then None
      else Some(front.value + KeyConditions(key, b).conds)
    ensures PatternLaw(pattern[..k + 1], columns) ==
      if IsLawKey(columns, pattern[k].0) then pattern[k].0 else PatternLaw(pattern[..k], columns)
  {
    assert pattern[..k + 1][..k] == pattern[..k];
  }

  /** `df = df[cond]` for each new filter in turn: the survivors of the longer filter list. */
  method ApplyConds(rows: seq<Cells>, idx: seq<nat>, conds: seq<Cond>, extra: seq<Cond>) returns (r: seq<nat>)
    requires idx == Survivors(rows, conds)
    ensures r == Survivors(rows, conds + extra)
  {
    r := idx;
    var j := 0;
    assert conds + extra[..0] == conds;
    while j < |extra|
      invariant 0 <= j <= |extra|
      invariant r == Survivors(rows, conds + extra[..j])
    {
      NarrowSurvivors(rows, conds + extra[..j], extra[j]);
      assert conds + extra[..j] + [extra[j]] == conds + extra[..j + 1];
      r := Narrow(rows, r, extra[j]);
      j := j + 1;
    }
    assert extra[..j] == extra;
  }

  /** Once a prefix of the pattern fails, the whole pattern fails. */
  lemma {:induction false} PatternCondsFails(pattern: Dict<PatternBound>, columns: seq<string>, k: nat)
    requires k <= |pattern|
    requires PatternConds(pattern[..k], columns).None?
    ensures PatternConds(pattern, columns).None?
    decreases |pattern| - k
  {
    if k < |pattern| {
      assert pattern[..k + 1][..k] == pattern[..k];
      PatternCondsFails(pattern, columns, k + 1);
    } else {
      assert pattern[..k] == pattern;
    }
  }
}
