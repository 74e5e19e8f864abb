/**
 * The Flask backend's data shaping around the causal analysis: the
 * imbalance ratio, constraint dictionaries turned into row filters, the
 * active/inactive labelling of counties, pattern bound preprocessing, the
 * constraint lookup, the top-feature selection and the cleaned condition
 * texts. A DataFrame is a sequence of rows; a condition is data.
 */
module GoodsamPattern {
  import opened Wrappers
  import opened Numbers
  import opened Dashboard
  import Sorting
  import ReadPattern

  // ------------------------------------------------------------ imbalance

  /**
   * `intervention_overlap`: 0 when either group is empty, otherwise the
   * larger group size over the smaller one.
   */
  function InterventionOverlap(nActive: nat, nInactive: nat): (r: real)
    ensures nActive == 0 || nInactive == 0 ==> r == 0.0
    ensures nActive > 0 && nInactive > 0 ==>
      r >= 1.0 && r * Min(nActive as real, nInactive as real) == Max(nActive as real, nInactive as real)
  {
    if nInactive == 0 || nActive == 0 then 0.0
    else if nActive > nInactive then nActive as real / nInactive as real
    else nInactive as real / nActive as real
  }

  // ---------------------------------------------------- constraint filters

  /** A key of a bound dictionary: missing, `None`, or a number. */
  datatype Field = Absent | Null | Given(v: real)

  /** The `{'lb': ..., 'ub': ...}` dictionary of one constrained column. */
  datatype BoundDict = BoundDict(lb: Field, ub: Field)

  /** A constraints dictionary: column name to bounds, in key order. */
  type Pattern = Dict<BoundDict>

  datatype Op = AtLeast | AtMost

  /** The filter `df_sub['column']>=bound` or `df_sub['column']<=bound`. */
  datatype Cond = Cond(column: string, op: Op, bound: real)

  /** A row's cells: column name to value; a missing column is NaN. */
  type Cells = map<string, real>

  /** Whether the filter keeps a row: NaN compares false. */
  predicate Holds(c: Cond, cells: Cells)
  {
    c.column in cells && (if c.op == AtLeast then cells[c.column] >= c.bound else cells[c.column] <= c.bound)
  }

  predicate Satisfies(cells: Cells, conds: seq<Cond>)
  {
    forall k :: 0 <= k < |conds| ==> Holds(conds[k], cells)
  }

  /** The filters one column contributes: lower bound first, then upper bound. */
  function EntryConds(column: string, b: BoundDict): seq<Cond>
  {
    (if b.lb.Given? then [Cond(column, AtLeast, b.lb.v)] else []) +
    (if b.ub.Given? then [Cond(column, AtMost, b.ub.v)] else [])
  }

  /** The filters of a whole constraints dictionary, column by column. */
  function Conditions(constraints: Pattern): seq<Cond>
  {
    if constraints == [] then []
    else
      var (column, b) := constraints[|constraints| - 1];
      Conditions(constraints[..|constraints| - 1]) + EntryConds(column, b)
  }

  /** `format_conditions`: append the filters of each column in turn. */
  method FormatConditions(constraints: Pattern) returns (conds: seq<Cond>)
    ensures conds == Conditions(constraints)
  {
    conds := [];
    for i := 0 to |constraints|
      invariant conds == Conditions(constraints[..i])
    {
      assert constraints[..i + 1][..i] == constraints[..i];
      var (column, b) := constraints[i];
      if b.lb.Given? {
        conds := conds + [Cond(column, AtLeast, b.lb.v)];
      }
      if b.ub.Given? {
        conds := conds + [Cond(column, AtMost, b.ub.v)];
      }
    }
    assert constraints[..|constraints|] == constraints;
  }

  /** What a bound dictionary asks of a row: each bound that is a number holds. */
  predicate WithinBounds(cells: Cells, column: string, b: BoundDict)
  {
    (b.lb.Given? ==> column in cells && b.lb.v <= cells[column]) &&
    (b.ub.Given? ==> column in cells && cells[column] <= b.ub.v)
  }

  lemma SatisfiesAppend(cells: Cells, a: seq<Cond>, b: seq<Cond>)
    ensures Satisfies(cells, a + b) <==> Satisfies(cells, a) && Satisfies(cells, b)
  {
    if Satisfies(cells, a) && Satisfies(cells, b) {
      forall k | 0 <= k < |a + b| ensures Holds((a + b)[k], cells) {
        if k >= |a| {
          assert (a + b)[k] == b[k - |a|];
        }
      }
    }
    if Satisfies(cells, a + b) {
      forall k | 0 <= k < |a| ensures Holds(a[k], cells) {
        assert (a + b)[k] == a[k];
      }
      forall k | 0 <= k < |b| ensures Holds(b[k], cells) {
        assert (a + b)[|a| + k] == b[k];
      }
    }
  }

  /**
   * The generated filters mean the dictionary: a row passes all of them
   * exactly when every column's numeric bounds hold for it; `None` and
   * missing bounds constrain nothing.
   */
  lemma {:induction false} ConditionsMeaning(cells: Cells, constraints: Pattern)
    ensures Satisfies(cells, Conditions(constraints)) <==>
      forall i :: 0 <= i < |constraints| ==> WithinBounds(cells, constraints[i].0, constraints[i].1)
  {
    if constraints != [] {
      var init := constraints[..|constraints| - 1];
      var (column, b) := constraints[|constraints| - 1];
      ConditionsMeaning(cells, init);
      SatisfiesAppend(cells, Conditions(init), EntryConds(column, b));
      assert forall i :: 0 <= i < |init| ==> init[i] == constraints[i];
      var e := EntryConds(column, b);
      if b.lb.Given? && b.ub.Given? {
        assert Satisfies(cells, e) <==> Holds(e[0], cells) && Holds(e[1], cells);
      } else if b.lb.Given? || b.ub.Given? {
        assert Satisfies(cells, e) <==> Holds(e[0], cells);
      }
    }
  }

  /** Every filter names a column of the table; otherwise `eval` fails. */
  predicate ColumnsKnown(conds: seq<Cond>, columns: seq<string>)
  {
    forall k :: 0 <= k < |conds| ==> conds[k].column in columns
  }

  // ----------------------------------------------------------- row subsets

  /** A row of the main table with the county's FIPS code from the geomap file. */
  datatype Row = Row(fips: int, cells: Cells)

  /** The main table: its column names in order, and its rows. */
  datatype Frame = Frame(columns: seq<string>, rows: seq<Row>)

  /** The rows satisfying `p`, in their original order. */
  function Where(rows: seq<Row>, p: Row -> bool): (r: seq<Row>)
    ensures |r| <= |rows|
  {
    if rows == [] then []
    else (if p(rows[0]) then [rows[0]] else []) + Where(rows[1..], p)
  }

  /** A row is selected exactly when it is one of the rows and satisfies `p`. */
  lemma {:induction false} WhereMeaning(rows: seq<Row>, p: Row -> bool, x: Row)
    ensures x in Where(rows, p) <==> x in rows && p(x)
  {
    if rows != [] {
      WhereMeaning(rows[1..], p, x);
      assert rows == [rows[0]] + rows[1..];
    }
  }

  /** Selecting twice is selecting by both predicates. */
  lemma {:induction false} WhereTwice(rows: seq<Row>, p: Row -> bool, q: Row -> bool, pq: Row -> bool)
    requires forall x :: pq(x) == (p(x) && q(x))
    ensures Where(Where(rows, p), q) == Where(rows, pq)
  {
    if rows != [] {
      var r0, tail := rows[0], rows[1..];
      WhereTwice(tail, p, q, pq);
      var w := Where(rows, p);
      assert Where(rows, pq) == (if pq(r0) then [r0] else []) + Where(tail, pq);
      if p(r0) {
        assert w == [r0] + Where(tail, p);
        assert w[0] == r0 && w[1..] == Where(tail, p);
        assert Where(w, q) == (if q(r0) then [r0] else []) + Where(Where(tail, p), q);
        assert pq(r0) == q(r0);
      } else {
        assert w == Where(tail, p);
        assert !pq(r0);
      }
    }
  }

  /** Selected and rejected rows together are as many as the rows. */
  lemma {:induction false} WhereSplit(rows: seq<Row>, p: Row -> bool, notP: Row -> bool)
    requires forall x :: notP(x) == !p(x)
    ensures |Where(rows, p)| + |Where(rows, notP)| == |rows|
  {
    if rows != [] {
      WhereSplit(rows[1..], p, notP);
    }
  }

  function Passes(conds: seq<Cond>): Row -> bool
  {
    (r: Row) => Satisfies(r.cells, conds)
  }

  /** `df_sub.loc[eval(cond)]` for every filter: the rows passing them all. */
  function Keep(rows: seq<Row>, conds: seq<Cond>): seq<Row>
  {
    Where(rows, Passes(conds))
  }

  /** Filtering the kept rows by one more condition keeps the rows passing the longer list. */
  lemma KeepStep(rows: seq<Row>, conds: seq<Cond>, c: Cond)
    ensures Keep(Keep(rows, conds), [c]) == Keep(rows, conds + [c])
  {
    forall x: Row ensures Passes(conds + [c])(x) == (Passes(conds)(x) && Passes([c])(x)) {
      SatisfiesAppend(x.cells, conds, [c]);
    }
    WhereTwice(rows, Passes(conds), Passes([c]), Passes(conds + [c]));
  }

  /** The outcome of applying a list of filters. */
  datatype Filtered = Rejected(cond: Cond) | Passed(rows: seq<Row>)

  /**
   * The condition loop of `get_dataframe` and `filter_geomap`: apply each
   * filter to the current rows; the first one naming an unknown column
   * stops the loop.
   */
  method ApplyConditions(rows: seq<Row>, columns: seq<string>, conds: seq<Cond>) returns (r: Filtered)
    ensures r.Rejected? <==> !ColumnsKnown(conds, columns)
    ensures r.Rejected? ==> r.cond in conds && r.cond.column !in columns
    ensures r.Passed? ==> r.rows == Keep(rows, conds)
  {
    var current := rows;
    assert Keep(rows, []) == rows by {
      forall x ensures x in rows ==> Passes([])(x) {
      }
      WhereAll(rows, Passes([]));
    }
    for i := 0 to |conds|
      invariant ColumnsKnown(conds[..i], columns)
      invariant current == Keep(rows, conds[..i])
    {
      if conds[i].column !in columns {
        return Rejected(conds[i]);
      }
      KeepStep(rows, conds[..i], conds[i]);
      assert conds[..i] + [conds[i]] == conds[..i + 1];
      current := Keep(current, [conds[i]]);
    }
    assert conds[..|conds|] == conds;
    return Passed(current);
  }

  /** Selecting by a predicate that every row satisfies keeps all rows. */
  lemma {:induction false} WhereAll(rows: seq<Row>, p: Row -> bool)
    requires forall x :: x in rows ==> p(x)
    ensures Where(rows, p) == rows
  {
    if rows != [] {
      WhereAll(rows[1..], p);
    }
  }

  /** What `get_dataframe` hands back: one of its two 400 errors, or the filtered rows. */
  datatype Subset = InvalidCondition(cond: Cond) | NoData | Subset(rows: seq<Row>, conds: seq<Cond>)

  /**
   * `get_dataframe`: filter a copy of the main table by the constraints; an
   * unknown column or an empty result is an error answered with status 400.
   */
  method GetDataframe(df: Frame, constraints: Pattern) returns (r: Subset)
    ensures var conds := Conditions(constraints);
      (r.InvalidCondition? <==> !ColumnsKnown(conds, df.columns)) &&
      (r.InvalidCondition? ==> r.cond in conds && r.cond.column !in df.columns) &&
      (ColumnsKnown(conds, df.columns) ==>
        r == if Keep(df.rows, conds) == [] then NoData else Subset(Keep(df.rows, conds), conds))
  {
    var conds := FormatConditions(constraints);
    var filtered := ApplyConditions(df.rows, df.columns, conds);
    if filtered.Rejected? {
      return InvalidCondition(filtered.cond);
    }
    if filtered.rows == [] {
      return NoData;
    }
    return Subset(filtered.rows, conds);
  }

  // -------------------------------------------------------------- labelling

  /** The temporary law column: NaN, 1.0 (active) or 0.0 (inactive). */
  datatype Label = Unlabelled | Active | Inactive

  /** `if range and len(range) == 2`: a range is used only when it is a pair. */
  predicate Applies(range: Option<seq<real>>)
  {
    range.Some? && |range.value| == 2
  }

  /** `(v >= min_val) & (v <= max_val)` for a used range; NaN is in no range. */
  predicate InRange(range: Option<seq<real>>, v: Option<real>)
  {
    Applies(range) && v.Some? && range.value[0] <= v.value <= range.value[1]
  }

  /** The label a value ends up with: the inactive range wins over the active one. */
  function LabelOf(v: Option<real>, activeRange: Option<seq<real>>, inactiveRange: Option<seq<real>>): Label
  {
    if InRange(inactiveRange, v) then Inactive
    else if InRange(activeRange, v) then Active
    else Unlabelled
  }

  /**
   * The in-place masked assignments: start from NaN, mark the active range
   * 1, then mark the inactive range 0 over it.
   */
  method LabelRows(values: seq<Option<real>>, activeRange: Option<seq<real>>, inactiveRange: Option<seq<real>>)
    returns (labels: seq<Label>)
    ensures |labels| == |values|
    ensures forall i :: 0 <= i < |values| ==> labels[i] == LabelOf(values[i], activeRange, inactiveRange)
  {
    var column := new Label[|values|](_ => Unlabelled);
    assert forall j :: 0 <= j < |values| ==> column[j] == Unlabelled;
    if Applies(activeRange) {
      for i := 0 to |values|
        invariant forall j :: 0 <= j < i ==> column[j] == (if InRange(activeRange, values[j]) then Active else Unlabelled)
        invariant forall j :: i <= j < |values| ==> column[j] == Unlabelled
      {
        if InRange(activeRange, values[i]) {
          column[i] := Active;
        }
      }
    }
    if Applies(inactiveRange) {
      for i := 0 to |values|
        invariant forall j :: 0 <= j < i ==> column[j] == LabelOf(values[j], activeRange, inactiveRange)
        invariant forall j :: i <= j < |values| ==> column[j] == (if InRange(activeRange, values[j]) then Active else Unlabelled)
      {
        if InRange(inactiveRange, values[i]) {
          column[i] := Inactive;
        }
      }
    }
    labels := column[..];
  }

  /** The column that is labelled: a named column, or the all-zero `dummy_law`. */
  datatype LawChoice = Named(column: string) | Dummy

  /** A row's value in the labelled column; NaN (None) when the cell is missing. */
  function LawValue(r: Row, choice: LawChoice): Option<real>
  {
    match choice
    case Dummy => Some(0.0)
    case Named(c) => if c in r.cells then Some(r.cells[c]) else None
  }

  function RowLabel(r: Row, choice: LawChoice, activeRange: Option<seq<real>>, inactiveRange: Option<seq<real>>): Label
  {
    LabelOf(LawValue(r, choice), activeRange, inactiveRange)
  }

  function HasLabel(want: Label, choice: LawChoice, activeRange: Option<seq<real>>, inactiveRange: Option<seq<real>>): Row -> bool
  {
    (r: Row) => RowLabel(r, choice, activeRange, inactiveRange) == want
  }

  function LacksLabel(want: Label, choice: LawChoice, activeRange: Option<seq<real>>, inactiveRange: Option<seq<real>>): Row -> bool
  {
    (r: Row) => RowLabel(r, choice, activeRange, inactiveRange) != want
  }

  /** `df_sub['FIPS'].tolist()`. */
  function Fips(rows: seq<Row>): (f: seq<int>)
    ensures |f| == |rows| && forall i :: 0 <= i < |rows| ==> f[i] == rows[i].fips
  {
    seq(|rows|, i requires 0 <= i < |rows| => rows[i].fips)
  }

  /** `df_sub.loc[mask, 'FIPS'].tolist()` with the mask `label == want` over a label column. */
  function Masked(rows: seq<Row>, labels: seq<Label>, want: Label): seq<int>
    requires |labels| == |rows|
  {
    if rows == [] then []
    else (if labels[0] == want then [rows[0].fips] else []) + Masked(rows[1..], labels[1..], want)
  }

  /** Masking by a computed label column selects the rows carrying that label. */
  lemma {:induction false} MaskedIsWhere(rows: seq<Row>, labels: seq<Label>, want: Label, choice: LawChoice,
                                         activeRange: Option<seq<real>>, inactiveRange: Option<seq<real>>)
    requires |labels| == |rows|
    requires forall i :: 0 <= i < |rows| ==> labels[i] == RowLabel(rows[i], choice, activeRange, inactiveRange)
    ensures Masked(rows, labels, want) == Fips(Where(rows, HasLabel(want, choice, activeRange, inactiveRange)))
  {
    if rows != [] {
      MaskedIsWhere(rows[1..], labels[1..], want, choice, activeRange, inactiveRange);
    }
  }

  /**
   * With distinct FIPS codes, the active and inactive lists share no code,
   * and each lists exactly the codes of the rows carrying its label.
   */
  lemma LabelListsDisjoint(rows: seq<Row>, choice: LawChoice, activeRange: Option<seq<real>>, inactiveRange: Option<seq<real>>)
    requires forall i, j :: 0 <= i < j < |rows| ==> rows[i].fips != rows[j].fips
    ensures var active := Fips(Where(rows, HasLabel(Active, choice, activeRange, inactiveRange)));
      var inactive := Fips(Where(rows, HasLabel(Inactive, choice, activeRange, inactiveRange)));
      (forall x :: x in active ==> x in Fips(rows)) &&
      (forall x :: x in inactive ==> x in Fips(rows)) &&
      (forall x :: x in active ==> x !in inactive)
  {
    var pa := HasLabel(Active, choice, activeRange, inactiveRange);
    var pi := HasLabel(Inactive, choice, activeRange, inactiveRange);
    forall x | x in Fips(Where(rows, pa)) ensures x in Fips(rows) && x !in Fips(Where(rows, pi)) {
      var a := FipsWitness(Where(rows, pa), x);
      WhereMeaning(rows, pa, Where(rows, pa)[a]);
      if x in Fips(Where(rows, pi)) {
        var b := FipsWitness(Where(rows, pi), x);
        WhereMeaning(rows, pi, Where(rows, pi)[b]);
        assert false;
      }
    }
    forall x | x in Fips(Where(rows, pi)) ensures x in Fips(rows) {
      var b := FipsWitness(Where(rows, pi), x);
      WhereMeaning(rows, pi, Where(rows, pi)[b]);
    }
  }

  /** The position of a code in a FIPS list. */
  function FipsWitness(rows: seq<Row>, x: int): (i: nat)
    requires x in Fips(rows)
    ensures i < |rows| && rows[i].fips == x
  {
    if rows[0].fips == x then 0
    else
      assert Fips(rows) == [rows[0].fips] + Fips(rows[1..]);
      FipsWitness(rows[1..], x) + 1
  }

  // ----------------------------------------------------------- geomap filter

  /** `df.columns[31]`: the column used as the law when none is given. */
  const DefaultLawColumn := 31

  /** The law `filter_geomap` labels by: the given one, else column 31, else the dummy. */
  function GeomapLaw(columns: seq<string>, law: string): LawChoice
  {
    if law != "" then Named(law)
    else if |columns| > DefaultLawColumn then Named(columns[DefaultLawColumn])
    else Dummy
  }

  /** `df_sub[law]` succeeds: the dummy column was added, or the named column exists. */
  predicate LawKnown(columns: seq<string>, choice: LawChoice)
  {
    choice.Dummy? || choice.column in columns
  }

  /** The reply of `/geomapFilter`: an error status, or the county lists. */
  datatype GeomapReply =
    | GeomapError(status: int)
    | Geomap(countiesIndices: seq<int>, activeCountiesIndices: Option<seq<int>>, inactiveCountiesIndices: Option<seq<int>>)

  /**
   * `filter_geomap`: filter by the constraints, then label the remaining
   * counties by the law's value. An empty result is not an error here: it
   * is status 200 with an empty county list and no active/inactive lists.
   * Every remaining county is listed, labelled or not.
   */
  method FilterGeomap(df: Frame, constraints: Option<Pattern>, law: string,
                      activeRange: Option<seq<real>>, inactiveRange: Option<seq<real>>) returns (reply: GeomapReply)
    ensures constraints.None? ==> reply == GeomapError(400)
    ensures constraints.Some? ==>
      var conds := Conditions(constraints.value);
      var kept := Keep(df.rows, conds);
      var choice := GeomapLaw(df.columns, law);
      reply == (
        if !ColumnsKnown(conds, df.columns) then GeomapError(400)
        else if kept == [] then Geomap([], None, None)
        else if !LawKnown(df.columns, choice) then GeomapError(500)
        else Geomap(Fips(kept),
                    Some(Fips(Where(kept, HasLabel(Active, choice, activeRange, inactiveRange)))),
                    Some(Fips(Where(kept, HasLabel(Inactive, choice, activeRange, inactiveRange))))))
  {
    if constraints.None? {
      return GeomapError(400);
    }
    var conds := FormatConditions(constraints.value);
    var filtered := ApplyConditions(df.rows, df.columns, conds);
    if filtered.Rejected? {
      return GeomapError(400);
    }
    var rows := filtered.rows;
    if rows == [] {
      return Geomap([], None, None);
    }
    var choice := GeomapLaw(df.columns, law);
    if !LawKnown(df.columns, choice) {
      return GeomapError(500);
    }
    var values := seq(|rows|, i requires 0 <= i < |rows| => LawValue(rows[i], choice));
    var labels := LabelRows(values, activeRange, inactiveRange);
    MaskedIsWhere(rows, labels, Active, choice, activeRange, inactiveRange);
    MaskedIsWhere(rows, labels, Inactive, choice, activeRange, inactiveRange);
    return Geomap(Fips(rows), Some(Masked(rows, labels, Active)), Some(Masked(rows, labels, Inactive)));
  }

  // ------------------------------------------------ analysis input (BART)

  /** The law analysed when the request names none. */
  const DefaultAnalysisLaw := "goodsam-cs_Prosecution"

  /** What `constraints_BART` prepares before the analysis, or how it stops. */
  datatype BartPrep =
    | Prepared(rows: seq<Row>, fips: seq<int>, activeFips: seq<int>, inactiveFips: seq<int>, nActive: nat, nInactive: nat)
    | Failed(status: int)
    | Raises

  /** The rows kept for the analysis and their lists, once the subset is known. */
  function PrepareRows(rows: seq<Row>, columns: seq<string>, law: string,
                       activeRange: Option<seq<real>>, inactiveRange: Option<seq<real>>): BartPrep
  {
    var column := if law == "" then DefaultAnalysisLaw else law;
    if column !in columns then Raises
    else
      var choice := Named(column);
      var labelled := Where(rows, LacksLabel(Unlabelled, choice, activeRange, inactiveRange));
      var active := Fips(Where(labelled, HasLabel(Active, choice, activeRange, inactiveRange)));
      var inactive := Fips(Where(labelled, LacksLabel(Active, choice, activeRange, inactiveRange)));
      Prepared(labelled, Fips(labelled), active, inactive, |active|, |inactive|)
  }

  /**
   * `constraints_BART` as written: the error pair returned by
   * `get_dataframe` is unpacked as if it were the table, so the next lookup
   * `df_sub[analysis_column]` raises and the request fails with status 500.
   */
  function PrepareBartAsWritten(sub: Subset, columns: seq<string>, law: string,
                                activeRange: Option<seq<real>>, inactiveRange: Option<seq<real>>): (r: BartPrep)
    ensures !sub.Subset? ==> r == Raises
    ensures sub.Subset? ==> r == PrepareRows(sub.rows, columns, law, activeRange, inactiveRange)
  {
    if !sub.Subset? then Raises
    else PrepareRows(sub.rows, columns, law, activeRange, inactiveRange)
  }

  /** `constraints_BART` passing `get_dataframe`'s 400 errors on instead of raising. */
  function PrepareBart(sub: Subset, columns: seq<string>, law: string,
                       activeRange: Option<seq<real>>, inactiveRange: Option<seq<real>>): (r: BartPrep)
    ensures !sub.Subset? ==> r == Failed(400)
    ensures sub.Subset? ==> r == PrepareBartAsWritten(sub, columns, law, activeRange, inactiveRange)
  {
    if !sub.Subset? then Failed(400)
    else PrepareRows(sub.rows, columns, law, activeRange, inactiveRange)
  }

  /**
   * The analysis input: only labelled rows remain, "not active" among them
   * is exactly "inactive", the two lists split the remaining counties, and
   * the imbalance ratio of the two counts is at least 1 when both are
   * present.
   */
  lemma PreparedPartition(sub: Subset, columns: seq<string>, law: string,
                          activeRange: Option<seq<real>>, inactiveRange: Option<seq<real>>)
    requires PrepareBart(sub, columns, law, activeRange, inactiveRange).Prepared?
    ensures var p := PrepareBart(sub, columns, law, activeRange, inactiveRange);
      var choice := Named(if law == "" then DefaultAnalysisLaw else law);
      p.nActive + p.nInactive == |p.fips| &&
      p.inactiveFips == Fips(Where(sub.rows, HasLabel(Inactive, choice, activeRange, inactiveRange))) &&
      p.activeFips == Fips(Where(sub.rows, HasLabel(Active, choice, activeRange, inactiveRange))) &&
      (p.nActive > 0 && p.nInactive > 0 ==> InterventionOverlap(p.nActive, p.nInactive) >= 1.0)
  {
    var choice := Named(if law == "" then DefaultAnalysisLaw else law);
    var notU := LacksLabel(Unlabelled, choice, activeRange, inactiveRange);
    var isA := HasLabel(Active, choice, activeRange, inactiveRange);
    var isI := HasLabel(Inactive, choice, activeRange, inactiveRange);
    var notA := LacksLabel(Active, choice, activeRange, inactiveRange);
    var labelled := Where(sub.rows, notU);
    WhereSplit(labelled, isA, notA);
    WhereTwice(sub.rows, notU, isA, isA);
    WhereTwice(sub.rows, notU, notA, isI);
  }

  /**
   * The 400 of `get_dataframe` is lost: every error subset makes the
   * as-written preparation raise, while the corrected one answers 400.
   */
  lemma ErrorSubsetRaises(sub: Subset, columns: seq<string>, law: string,
                          activeRange: Option<seq<real>>, inactiveRange: Option<seq<real>>)
    requires !sub.Subset?
    ensures PrepareBartAsWritten(sub, columns, law, activeRange, inactiveRange) == Raises
    ensures PrepareBart(sub, columns, law, activeRange, inactiveRange) == Failed(400)
  {
  }

  /**
   * A concrete request: one county with `x` = 0 and the constraint
   * `{'x': {'lb': 1}}` leave no data, which `get_dataframe` reports as
   * `NoData` (status 400); the as-written preparation then raises.
   */
  lemma NoDataExample()
    ensures var df := Frame(["x", DefaultAnalysisLaw], [Row(1001, map["x" := 0.0, DefaultAnalysisLaw := 1.0])]);
      var constraints := [("x", BoundDict(Given(1.0), Absent))];
      ColumnsKnown(Conditions(constraints), df.columns) &&
      Keep(df.rows, Conditions(constraints)) == [] &&
      PrepareBartAsWritten(NoData, df.columns, "", None, None) == Raises &&
      PrepareBart(NoData, df.columns, "", None, None) == Failed(400)
  {
    var row := Row(1001, map["x" := 0.0, DefaultAnalysisLaw := 1.0]);
    var constraints := [("x", BoundDict(Given(1.0), Absent))];
    assert constraints[..0] == [];
    assert Conditions(constraints) == [Cond("x", AtLeast, 1.0)];
    var conds := Conditions(constraints);
    assert !Holds(conds[0], row.cells);
    assert !Satisfies(row.cells, conds);
    assert !Passes(conds)(row);
    assert [row][1..] == [];
  }

  // ------------------------------------------------ pattern preprocessing

  /** `1e100`, the value `inf` is rewritten to before a pattern is parsed. */
  const Big: real := 10000000000000000000000000000000000000000000000000000000000000000000000000000000000000000000000000000.0

  /** `column_bounds[column]`: the column's minimum rounded down and maximum rounded up at 4 decimals. */
  function ColumnBound(lowest: real, highest: real): (m: MinMax)
    ensures m.min <= lowest && highest <= m.max
    ensures OnGrid(m)
  {
    Floor4Idempotent(lowest);
    Ceil4Idempotent(highest);
    MinMax(Floor4(lowest), Ceil4(highest))
  }

  /** Bounds that the 4-decimal rounding leaves as they are. */
  predicate OnGrid(m: MinMax)
  {
    Floor4(m.min) == m.min && Ceil4(m.max) == m.max
  }

  lemma Floor4Idempotent(x: real)
    ensures Floor4(Floor4(x)) == Floor4(x)
  {
    var k := (x * 10000.0).Floor;
    assert Floor4(x) * 10000.0 == k as real;
    assert (k as real).Floor == k;
  }

  lemma Ceil4Idempotent(x: real)
    ensures Ceil4(Ceil4(x)) == Ceil4(x)
  {
    var k := (-x * 10000.0).Floor;
    assert -Ceil4(x) * 10000.0 == k as real;
    assert (k as real).Floor == k;
  }

  /**
   * The first pass over one known column: `ub >= 1e100` becomes the column
   * maximum and `lb <= -1e100` the column minimum, then `ub` is rounded up
   * and `lb` down at 4 decimals. A missing bound raises KeyError and a
   * `None` bound TypeError (None).
   */
  function RealBounds(b: BoundDict, column: MinMax): Option<BoundDict>
  {
    if !b.ub.Given? || !b.lb.Given? then None
    else
      var ub := if b.ub.v >= Big then Ceil4(column.max) else b.ub.v;
      var lb := if b.lb.v <= -Big then Floor4(column.min) else b.lb.v;
      Some(BoundDict(Given(Floor4(lb)), Given(Ceil4(ub))))
  }

  /**
   * Infinite bounds become the column's own bounds, and finite ones move
   * outward by less than one step of 0.0001.
   */
  lemma RealBoundsMeaning(b: BoundDict, column: MinMax)
    requires OnGrid(column)
    requires RealBounds(b, column).Some?
    ensures var r := RealBounds(b, column).value;
      (b.ub.v >= Big ==> r.ub == Given(column.max)) &&
      (b.lb.v <= -Big ==> r.lb == Given(column.min)) &&
      (b.ub.v < Big ==> b.ub.v <= r.ub.v < b.ub.v + 0.0001) &&
      (b.lb.v > -Big ==> r.lb.v <= b.lb.v < r.lb.v + 0.0001)
  {
  }

  /** The second pass: every bound of a known column is the column's own. */
  function ColumnBoundsDict(column: MinMax): BoundDict
  {
    BoundDict(Given(Floor4(column.min)), Given(Ceil4(column.max)))
  }

  /** Whether the first pass raises on an entry. */
  predicate Fails(entry: (string, BoundDict), columnBounds: map<string, MinMax>)
  {
    entry.0 in columnBounds && RealBounds(entry.1, columnBounds[entry.0]).None?
  }

  function FirstPass(entry: (string, BoundDict), columnBounds: map<string, MinMax>): (string, BoundDict)
    requires !Fails(entry, columnBounds)
  {
    if entry.0 in columnBounds then (entry.0, RealBounds(entry.1, columnBounds[entry.0]).value) else entry
  }

  function SecondPass(entry: (string, BoundDict), columnBounds: map<string, MinMax>): (string, BoundDict)
  {
    if entry.0 in columnBounds then (entry.0, ColumnBoundsDict(columnBounds[entry.0])) else entry
  }

  /**
   * The two dictionaries stored for a pattern: the real bounds and the
   * column bounds; None when some known column's entry raises, which skips
   * the whole pattern.
   */
  function Preprocessed(constraints: Pattern, columnBounds: map<string, MinMax>): Option<(Pattern, Pattern)>
  {
    if exists i :: 0 <= i < |constraints| && Fails(constraints[i], columnBounds) then None
    else Some((seq(|constraints|, i requires 0 <= i < |constraints| => FirstPass(constraints[i], columnBounds)),
               seq(|constraints|, i requires 0 <= i < |constraints| => SecondPass(constraints[i], columnBounds))))
  }

  /**
   * Both stored dictionaries keep the pattern's columns in order; unknown
   * columns keep their bounds, and on the second dictionary every known
   * column carries exactly the column's minimum and maximum.
   */
  lemma PreprocessedMeaning(constraints: Pattern, columnBounds: map<string, MinMax>)
    requires Preprocessed(constraints, columnBounds).Some?
    requires forall c :: c in columnBounds ==> OnGrid(columnBounds[c])
    ensures var (realBounds, bounds) := Preprocessed(constraints, columnBounds).value;
      Keys(realBounds) == Keys(constraints) && Keys(bounds) == Keys(constraints) &&
      (forall i :: 0 <= i < |constraints| && constraints[i].0 !in columnBounds ==>
        realBounds[i] == constraints[i] && bounds[i] == constraints[i]) &&
      (forall i :: 0 <= i < |constraints| && constraints[i].0 in columnBounds ==>
        bounds[i].1 == BoundDict(Given(columnBounds[constraints[i].0].min), Given(columnBounds[constraints[i].0].max)))
  {
  }

  /**
   * The per-pattern loop of `initialize_backend`: rewrite each known
   * column's bounds in place, take a copy, overwrite them with the column
   * bounds, take a second copy.
   */
  method PreprocessPattern(constraints: Pattern, columnBounds: map<string, MinMax>) returns (r: Option<(Pattern, Pattern)>)
    ensures r == Preprocessed(constraints, columnBounds)
  {
    var entries := new (string, BoundDict)[|constraints|](i requires 0 <= i < |constraints| => constraints[i]);
    for i := 0 to |constraints|
      invariant forall j :: 0 <= j < i ==> !Fails(constraints[j], columnBounds) && entries[j] == FirstPass(constraints[j], columnBounds)
      invariant forall j :: i <= j < |constraints| ==> entries[j] == constraints[j]
    {
      var (column, b) := entries[i];
      if column in columnBounds {
        var rb := RealBounds(b, columnBounds[column]);
        if rb.None? {
          assert Fails(constraints[i], columnBounds);
          return None;
        }
        entries[i] := (column, rb.value);
      }
    }
    var realBounds := entries[..];
    for i := 0 to |constraints|
      invariant forall j :: 0 <= j < i ==> entries[j] == SecondPass(constraints[j], columnBounds)
      invariant forall j :: i <= j < |constraints| ==> entries[j] == realBounds[j]
    {
      var (column, b) := entries[i];
      if column in columnBounds {
        entries[i] := (column, ColumnBoundsDict(columnBounds[column]));
      }
    }
    assert !exists i :: 0 <= i < |constraints| && Fails(constraints[i], columnBounds);
    assert realBounds == seq(|constraints|, i requires 0 <= i < |constraints| => FirstPass(constraints[i], columnBounds));
    assert entries[..] == seq(|constraints|, i requires 0 <= i < |constraints| => SecondPass(constraints[i], columnBounds));
    r := Some((realBounds, entries[..]));
  }

  /** One row of the patterns file: unparsable, or its ID and constraints. */
  datatype PatternRow = Unparsable | PatternRow(id: int, constraints: Pattern)

  /** What the loaded dictionaries hold for an ID: the last row with that ID that did not raise. */
  function LastLoaded(rows: seq<PatternRow>, columnBounds: map<string, MinMax>, id: int): Option<(Pattern, Pattern)>
  {
    if rows == [] then None
    else
      var last := rows[|rows| - 1];
      if last.PatternRow? && last.id == id && Preprocessed(last.constraints, columnBounds).Some?
      then Preprocessed(last.constraints, columnBounds)
      else LastLoaded(rows[..|rows| - 1], columnBounds, id)
  }

  /** The lookup reply of `/constraints`. */
  datatype ConstraintsReply =
    | MissingId
    | UnknownId(id: int)
    | Found(id: int, constraints: Pattern, constraintsBounds: Pattern, countiesIndices: seq<int>, law: Option<string>)

  function ReplyStatus(r: ConstraintsReply): int
  {
    match r
    case MissingId => 400
    case UnknownId(_) => 404
    case Found(_, _, _, _, _) => 200
  }

  /** The backend's pattern tables, filled at start-up and read by the lookup. */
  class Backend {
    var constraintsDict: map<int, Pattern>
    var patternsConstraintsDict: map<int, Pattern>
    var patternsFips: map<int, seq<int>>
    var patternsLaws: map<int, string>

    constructor ()
      ensures constraintsDict == map[] && patternsConstraintsDict == map[]
      ensures patternsFips == map[] && patternsLaws == map[]
    {
      constraintsDict := map[];
      patternsConstraintsDict := map[];
      patternsFips := map[];
      patternsLaws := map[];
    }

    /**
     * The pattern loop of `initialize_backend`: both dictionaries start
     * empty; a row that raises is skipped; a later row with the same ID
     * replaces an earlier one.
     */
    method LoadConstraints(rows: seq<PatternRow>, columnBounds: map<string, MinMax>)
      modifies this`constraintsDict, this`patternsConstraintsDict
      ensures forall id :: id in constraintsDict <==> LastLoaded(rows, columnBounds, id).Some?
      ensures forall id :: id in patternsConstraintsDict <==> LastLoaded(rows, columnBounds, id).Some?
      ensures forall id :: id in constraintsDict ==>
        constraintsDict[id] == LastLoaded(rows, columnBounds, id).value.0 &&
        patternsConstraintsDict[id] == LastLoaded(rows, columnBounds, id).value.1
    {
      constraintsDict := map[];
      patternsConstraintsDict := map[];
      for i := 0 to |rows|
        invariant forall id :: id in constraintsDict <==> LastLoaded(rows[..i], columnBounds, id).Some?
        invariant forall id :: id in patternsConstraintsDict <==> LastLoaded(rows[..i], columnBounds, id).Some?
        invariant forall id :: id in constraintsDict ==>
          constraintsDict[id] == LastLoaded(rows[..i], columnBounds, id).value.0 &&
          patternsConstraintsDict[id] == LastLoaded(rows[..i], columnBounds, id).value.1
      {
        assert rows[..i + 1][..i] == rows[..i];
        if rows[i].PatternRow? {
          var r := PreprocessPattern(rows[i].constraints, columnBounds);
          if r.Some? {
            constraintsDict := constraintsDict[rows[i].id := r.value.0];
            patternsConstraintsDict := patternsConstraintsDict[rows[i].id := r.value.1];
          }
        }
      }
      assert rows[..|rows|] == rows;
    }

    /**
     * `initialize_patterns`: for pattern i, the FIPS codes of the rows
     * that pass its filters and its law. A pattern that raises aborts the
     * whole start-up (`ok` false).
     */
    method LoadPatternIndices(patterns: seq<Dict<ReadPattern.PatternBound>>, columns: seq<string>,
                              table: seq<ReadPattern.Cells>, geomapFips: seq<int>) returns (ok: bool)
      requires |geomapFips| >= |table|
      modifies this`patternsFips, this`patternsLaws
      ensures ok <==> forall i :: 0 <= i < |patterns| ==> ReadPattern.PatternConds(patterns[i], columns).Some?
      ensures ok ==> forall i :: i in patternsFips <==> 0 <= i < |patterns|
      ensures ok ==> forall i :: i in patternsLaws <==> 0 <= i < |patterns|
      ensures ok ==> forall i :: 0 <= i < |patterns| ==>
        var survivors := ReadPattern.Survivors(table, ReadPattern.PatternConds(patterns[i], columns).value);
        patternsFips[i] == seq(|survivors|, k requires 0 <= k < |survivors| => geomapFips[survivors[k]]) &&
        patternsLaws[i] == ReadPattern.PatternLaw(patterns[i], columns)
    {
      patternsFips := map[];
      patternsLaws := map[];
      for i := 0 to |patterns|
        invariant forall j :: 0 <= j < i ==> ReadPattern.PatternConds(patterns[j], columns).Some?
        invariant forall j :: j in patternsFips <==> 0 <= j < i
        invariant forall j :: j in patternsLaws <==> 0 <= j < i
        invariant forall j :: 0 <= j < i ==>
          var survivors := ReadPattern.Survivors(table, ReadPattern.PatternConds(patterns[j], columns).value);
          patternsFips[j] == seq(|survivors|, k requires 0 <= k < |survivors| => geomapFips[survivors[k]]) &&
          patternsLaws[j] == ReadPattern.PatternLaw(patterns[j], columns)
      {
        var read := ReadPattern.ReadPatternRows(patterns[i], columns, table);
        if read.Raised? {
          return false;
        }
        var idx := read.indices;
        patternsFips := patternsFips[i := seq(|idx|, k requires 0 <= k < |idx| => geomapFips[idx[k]])];
        patternsLaws := patternsLaws[i := read.law];
      }
      return true;
    }

    /**
     * `get_constraints`: 400 without an integer ID; 404 when the pattern's
     * constraints, counties or bounds are missing; otherwise 200 with
     * everything stored for it (the law may be missing).
     */
    function GetConstraints(id: Option<int>): (reply: ConstraintsReply)
      reads this
      ensures ReplyStatus(reply) == 400 <==> id.None?
      ensures ReplyStatus(reply) == 404 <==>
        (id.Some? && (id.value !in constraintsDict || id.value !in patternsFips || id.value !in patternsConstraintsDict))
      ensures reply.Found? ==>
        (reply.id == id.value &&
         reply.constraints == constraintsDict[id.value] &&
         reply.constraintsBounds == patternsConstraintsDict[id.value] &&
         reply.countiesIndices == patternsFips[id.value] &&
         reply.law == (if id.value in patternsLaws then Some(patternsLaws[id.value]) else None))
    {
      if id.None? then MissingId
      else
        var k := id.value;
        if k !in constraintsDict || k !in patternsFips || k !in patternsConstraintsDict then UnknownId(k)
        else Found(k, constraintsDict[k], patternsConstraintsDict[k], patternsFips[k],
                   if k in patternsLaws then Some(patternsLaws[k]) else None)
    }
  }

  // --------------------------------------------------------- top features

  /** `zip(features, importance)`: as many pairs as the shorter list. */
  function ZipPairs(features: seq<string>, importance: seq<real>): (z: seq<(string, real)>)
    ensures |z| == if |features| < |importance| then |features| else |importance|
    ensures forall i :: 0 <= i < |z| ==> z[i] == (features[i], importance[i])
  {
    var n := if |features| < |importance| then |features| else |importance|;
    seq(n, i requires 0 <= i < n => (features[i], importance[i]))
  }

  /** `sort(key=lambda x: x[1], reverse=True)`: a larger importance sorts first, ties keep their order. */
  function ByImportance(): ((string, real), (string, real)) -> bool
  {
    (a: (string, real), b: (string, real)) => a.1 > b.1
  }

  /** Number of features shown. */
  const TopCount := 10

  /** The ten most important (name, importance) pairs, most important first. */
  function TopFeatures(features: seq<string>, importance: seq<real>): seq<(string, real)>
  {
    var sorted := Sorting.Sort(ZipPairs(features, importance), ByImportance());
    if |sorted| <= TopCount then sorted else sorted[..TopCount]
  }

  /** `top_feature_names` and `top_importance_values`. */
  function TopLists(features: seq<string>, importance: seq<real>): (lists: (seq<string>, seq<real>))
  {
    var top := TopFeatures(features, importance);
    (seq(|top|, i requires 0 <= i < |top| => top[i].0), seq(|top|, i requires 0 <= i < |top| => top[i].1))
  }

  /**
   * The selection: at most ten pairs, each one of the zipped pairs, in
   * non-increasing importance, and no pair left out more important than
   * any pair kept.
   */
  lemma TopFeaturesAreTop(features: seq<string>, importance: seq<real>)
    ensures var top := TopFeatures(features, importance);
      var zipped := ZipPairs(features, importance);
      |top| == (if |zipped| < TopCount then |zipped| else TopCount) &&
      multiset(top) <= multiset(zipped) &&
      (forall i, j :: 0 <= i < j < |top| ==> top[i].1 >= top[j].1) &&
      (forall p :: p in multiset(zipped) - multiset(top) ==> forall i :: 0 <= i < |top| ==> p.1 <= top[i].1)
  {
    var zipped := ZipPairs(features, importance);
    var sorted := Sorting.Sort(zipped, ByImportance());
    var ok := (p: (string, real)) => true;
    assert Sorting.StrictWeakOrder(ByImportance(), ok);
    Sorting.SortSorted(zipped, ByImportance(), ok);
    var cut := if |sorted| <= TopCount then |sorted| else TopCount;
    assert TopFeatures(features, importance) == sorted[..cut];
    SortedPrefixIsTop(sorted, cut);
  }

  /** A prefix of a list sorted by decreasing importance holds its largest importances. */
  lemma SortedPrefixIsTop(sorted: seq<(string, real)>, cut: nat)
    requires cut <= |sorted|
    requires Sorting.Sorted(sorted, ByImportance())
    ensures multiset(sorted[..cut]) <= multiset(sorted)
    ensures forall i, j :: 0 <= i < j < cut ==> sorted[i].1 >= sorted[j].1
    ensures forall p :: p in multiset(sorted) - multiset(sorted[..cut]) ==> forall i :: 0 <= i < cut ==> p.1 <= sorted[i].1
  {
    assert sorted == sorted[..cut] + sorted[cut..];
    assert multiset(sorted) == multiset(sorted[..cut]) + multiset(sorted[cut..]);
    forall i, j | 0 <= i < j < cut ensures sorted[i].1 >= sorted[j].1 {
      assert !ByImportance()(sorted[j], sorted[i]);
    }
    forall p | p in multiset(sorted) - multiset(sorted[..cut])
      ensures forall i :: 0 <= i < cut ==> p.1 <= sorted[i].1
    {
      assert p in multiset(sorted[cut..]);
      var j :| cut <= j < |sorted| && sorted[j] == p;
      forall i | 0 <= i < cut ensures p.1 <= sorted[i].1 {
        assert !ByImportance()(sorted[j], sorted[i]);
      }
    }
  }

  /** The two lists stay aligned: entry i of each comes from the same selected pair. */
  lemma TopListsAligned(features: seq<string>, importance: seq<real>)
    ensures var (names, values) := TopLists(features, importance);
      var top := TopFeatures(features, importance);
      |names| == |values| == |top| &&
      (forall i :: 0 <= i < |top| ==> (names[i], values[i]) == top[i] && top[i] in multiset(ZipPairs(features, importance)))
  {
    TopFeaturesAreTop(features, importance);
  }

  // --------------------------------------------------------- cleaned_conds

  function OpText(op: Op): string
  {
    if op == AtLeast then ">=" else "<="
  }

  /**
   * The text `format_conditions` builds for a filter; `show` stands for
   * Python's `str` of a float.
   */
  function CondText(c: Cond, show: real -> string): string
  {
    "df_sub['" + c.column + "']" + OpText(c.op) + show(c.bound)
  }

  /** `cond[6:]`: Python slicing, empty for a shorter text. */
  function Cleaned(text: string): string
  {
    if |text| <= 6 then "" else text[6..]
  }

  /** The `cleaned_conds` loop. */
  method CleanConds(texts: seq<string>) returns (cleaned: seq<string>)
    ensures |cleaned| == |texts|
    ensures forall i :: 0 <= i < |texts| ==> cleaned[i] == Cleaned(texts[i])
  {
    cleaned := [];
    for i := 0 to |texts|
      invariant |cleaned| == i
      invariant forall j :: 0 <= j < i ==> cleaned[j] == Cleaned(texts[j])
    {
      cleaned := cleaned + [Cleaned(texts[i])];
    }
  }

  /** Dropping six characters removes exactly the table name `df_sub` from a filter's text. */
  lemma CleanedDropsTableName(c: Cond, show: real -> string)
    ensures CondText(c, show) == "df_sub" + Cleaned(CondText(c, show))
    ensures Cleaned(CondText(c, show)) == "['" + c.column + "']" + OpText(c.op) + show(c.bound)
  {
    var rest := "['" + c.column + "']" + OpText(c.op) + show(c.bound);
    assert CondText(c, show) == "df_sub" + rest;
    assert ("df_sub" + rest)[6..] == rest;
  }
}
