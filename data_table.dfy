/**
 * The county table: rows zipped from the per-county arrays, a stable
 * column sort, a case-insensitive filter, and 8-row pagination.
 */
module DataTable {
  import opened Wrappers
  import opened Numbers
  import opened Strings
  import opened Dashboard
  import Page
  import Sorting

  const ItemsPerPage: nat := 8

  /** One table row; entries read past the end of a shorter array are `undefined` (None). */
  datatype Row = Row(county: string, state: Option<string>, inactive: Option<real>, active: Option<real>)

  datatype Column = County | State | Inactive | Active
  datatype Direction = Asc | Desc

  /** The rows shown before any data arrives. */
  const DummyData: seq<Row> := [
    Row("County 1", Some("State A"), Some(10.0), Some(20.0)),
    Row("County 2", Some("State B"), Some(15.0), Some(25.0)),
    Row("County 3", Some("State C"), Some(8.0), Some(18.0)),
    Row("County 4", Some("State D"), Some(12.0), Some(22.0)),
    Row("County 5", Some("State E"), Some(20.0), Some(30.0))]


  /** The zip of the props: one row per county name, in order. */
  function ZipRows(countyNames: seq<string>, stateNames: seq<string>, d: HistData): (rows: seq<Row>)
    ensures |rows| == |countyNames|
    ensures forall i :: 0 <= i < |rows| ==>
      rows[i] == Row(countyNames[i], At(stateNames, i), At(d.inactiveValues, i), At(d.activeValues, i))
  {
    seq(|countyNames|, i requires 0 <= i < |countyNames| =>
      Row(countyNames[i], At(stateNames, i), At(d.inactiveValues, i), At(d.activeValues, i)))
  }

  /** Rows are complete when every array is at least as long as the county names. */
  lemma ZipRowsComplete(countyNames: seq<string>, stateNames: seq<string>, d: HistData)
    requires |stateNames| >= |countyNames| && |d.inactiveValues| >= |countyNames| && |d.activeValues| >= |countyNames|
    ensures forall i :: 0 <= i < |countyNames| ==>
      ZipRows(countyNames, stateNames, d)[i] ==
        Row(countyNames[i], Some(stateNames[i]), Some(d.inactiveValues[i]), Some(d.activeValues[i]))
  {
  }

  // ---------------------------------------------------------------- sorting

  /** JavaScript's `<` on two strings: lexicographic on code units. */
  predicate StrLess(a: string, b: string)
  {
    if a == [] then b != []
    else if b == [] then false
    else if a[0] != b[0] then a[0] < b[0]
    else StrLess(a[1..], b[1..])
  }

  lemma {:induction false} StrLessIrreflexive(a: string)
    ensures !StrLess(a, a)
  {
    if a != [] {
      StrLessIrreflexive(a[1..]);
    }
  }

  lemma {:induction false} StrLessTrans(a: string, b: string, c: string)
    requires StrLess(a, b) && StrLess(b, c)
    ensures StrLess(a, c)
  {
    if a != [] && b != [] && c != [] && a[0] == b[0] && b[0] == c[0] {
      StrLessTrans(a[1..], b[1..], c[1..]);
    }
  }

  lemma {:induction false} StrLessTotal(a: string, b: string)
    ensures a == b || StrLess(a, b) || StrLess(b, a)
  {
    if a != [] && b != [] && a[0] == b[0] {
      StrLessTotal(a[1..], b[1..]);
      if a[1..] == b[1..] {
        assert a == [a[0]] + a[1..] && b == [b[0]] + b[1..];
      }
    }
  }

  /** The sort key of a row in a column. */
  datatype Key = Str(s: string) | Val(r: real) | Undefined

  function KeyOf(row: Row, column: Column): Key
  {
    match column
    case County => Str(row.county)
    case State => if row.state.Some? then Str(row.state.value) else Undefined
    case Inactive => if row.inactive.Some? then Val(row.inactive.value) else Undefined
    case Active => if row.active.Some? then Val(row.active.value) else Undefined
  }

  /** JavaScript's `<` on the keys: `undefined` compares false with everything. */
  predicate KeyLess(a: Key, b: Key)
  {
    match (a, b)
    case (Str(x), Str(y)) => StrLess(x, y)
    case (Val(x), Val(y)) => x < y
    case _ => false
  }

  /** `a` sorts strictly before `b` under the comparator of `handleSort`. */
  predicate Before(a: Row, b: Row, column: Column, dir: Direction)
  {
    if dir == Asc then KeyLess(KeyOf(a, column), KeyOf(b, column))
    else KeyLess(KeyOf(b, column), KeyOf(a, column))
  }

  predicate Defined(row: Row, column: Column)
  {
    KeyOf(row, column) != Undefined
  }

  predicate AllDefined(rows: seq<Row>, column: Column)
  {
    forall i :: 0 <= i < |rows| ==> Defined(rows[i], column)
  }

  /** No later row sorts strictly before an earlier one. */
  predicate Sorted(rows: seq<Row>, column: Column, dir: Direction)
  {
    forall i, j :: 0 <= i < j < |rows| ==> !Before(rows[j], rows[i], column, dir)
  }

  /** Among defined keys, "not before" is transitive and "before" is asymmetric. */
  lemma BeforeOrder(a: Row, b: Row, c: Row, column: Column, dir: Direction)
    requires Defined(a, column) && Defined(b, column) && Defined(c, column)
    ensures Before(a, b, column, dir) ==> !Before(b, a, column, dir)
    ensures !Before(b, a, column, dir) && !Before(c, b, column, dir) ==> !Before(c, a, column, dir)
  {
    var ka, kb, kc := KeyOf(a, column), KeyOf(b, column), KeyOf(c, column);
    if ka.Str? {
      assert kb.Str? && kc.Str?;
      StrLessTotal(ka.s, kb.s);
      StrLessTotal(kb.s, kc.s);
      StrLessTotal(ka.s, kc.s);
      StrLessIrreflexive(ka.s);
      StrLessIrreflexive(kb.s);
      if StrLess(ka.s, kb.s) && StrLess(kb.s, ka.s) {
        StrLessTrans(ka.s, kb.s, ka.s);
      }
      if StrLess(ka.s, kb.s) && StrLess(kb.s, kc.s) {
        StrLessTrans(ka.s, kb.s, kc.s);
      }
      if StrLess(kc.s, kb.s) && StrLess(kb.s, ka.s) {
        StrLessTrans(kc.s, kb.s, ka.s);
      }
      if StrLess(kc.s, ka.s) && StrLess(ka.s, kb.s) {
        StrLessTrans(kc.s, ka.s, kb.s);
      }
      if StrLess(kb.s, kc.s) && StrLess(kc.s, ka.s) {
        StrLessTrans(kb.s, kc.s, ka.s);
      }
      if StrLess(ka.s, kc.s) && StrLess(kc.s, kb.s) {
        StrLessTrans(ka.s, kc.s, kb.s);
      }
    }
  }

  /** The comparator of `handleSort` as a "sorts strictly before" relation. */
  function Cmp(column: Column, dir: Direction): (Row, Row) -> bool
  {
    (a: Row, b: Row) => Before(a, b, column, dir)
  }

  /** `[...filteredData].sort(cmp)`: a stable sort by the column's key. */
  function SortRows(rows: seq<Row>, column: Column, dir: Direction): (r: seq<Row>)
    ensures multiset(r) == multiset(rows)
  {
    Sorting.Sort(rows, Cmp(column, dir))
  }

  lemma CmpIsStrictWeak(column: Column, dir: Direction)
    ensures Sorting.StrictWeakOrder(Cmp(column, dir), (r: Row) => Defined(r, column))
  {
    forall a: Row, b: Row, c: Row | Defined(a, column) && Defined(b, column) && Defined(c, column)
      ensures Before(a, b, column, dir) ==> !Before(b, a, column, dir)
      ensures !Before(b, a, column, dir) && !Before(c, b, column, dir) ==> !Before(c, a, column, dir)
    {
      BeforeOrder(a, b, c, column, dir);
    }
  }

  /** Over a column whose keys are all defined, the sort orders the rows. */
  lemma SortRowsSorted(rows: seq<Row>, column: Column, dir: Direction)
    requires AllDefined(rows, column)
    ensures Sorted(SortRows(rows, column, dir), column, dir)
  {
    CmpIsStrictWeak(column, dir);
    Sorting.SortSorted(rows, Cmp(column, dir), (r: Row) => Defined(r, column));
  }

  // ---------------------------------------------------------------- filtering

  /**
   * The filter callback on one row: None when `item.state.toLowerCase()`
   * would be evaluated on an `undefined` state and throw.
   */
  function RowMatches(row: Row, query: string): (r: Option<bool>)
    ensures r.None? <==> !Contains(ToLower(row.county), query) && row.state.None?
    ensures r == Some(true) <==>
      Contains(ToLower(row.county), query) || (row.state.Some? && Contains(ToLower(row.state.value), query))
  {
    if Contains(ToLower(row.county), query) then Some(true)
    else if row.state.None? then None
    else Some(Contains(ToLower(row.state.value), query))
  }

  /** `data.filter(...)`: None when the callback throws on some row. */
  function FilterRows(rows: seq<Row>, query: string): (r: Option<seq<Row>>)
    ensures r.None? <==> exists i :: 0 <= i < |rows| && RowMatches(rows[i], query).None?
    ensures r.Some? ==> multiset(r.value) <= multiset(rows)
    ensures r.Some? ==> forall x :: x in r.value <==> x in rows && RowMatches(x, query) == Some(true)
  {
    if rows == [] then Some([])
    else
      var rest := FilterRows(rows[1..], query);
      assert rows == [rows[0]] + rows[1..];
      assert forall i :: 1 <= i < |rows| ==> rows[i] == rows[1..][i - 1];
      match RowMatches(rows[0], query)
      case None => None
      case Some(keep) =>
        if rest.None? then
          var i :| 0 <= i < |rows[1..]| && RowMatches(rows[1..][i], query).None?;
          assert RowMatches(rows[i + 1], query).None?;
          None
        else if keep then Some([rows[0]] + rest.value)
        else Some(rest.value)
  }

  /** An empty query keeps every row, in order. */
  lemma {:induction false} FilterEmptyQuery(rows: seq<Row>)
    ensures FilterRows(rows, "") == Some(rows)
  {
    if rows != [] {
      ContainsTrivial(ToLower(rows[0].county));
      FilterEmptyQuery(rows[1..]);
      assert rows == [rows[0]] + rows[1..];
    }
  }

  // ---------------------------------------------------------------- pagination

  /** `Math.ceil(n / 8)`, but at least 1. */
  function TotalPages(n: nat): (t: nat)
    ensures t >= 1
    ensures n > 0 ==> (t - 1) * ItemsPerPage < n <= t * ItemsPerPage
    ensures n == 0 ==> t == 1
  {
    if n == 0 then 1 else (n + ItemsPerPage - 1) / ItemsPerPage
  }

  /** `filteredData.slice((p - 1) * ItemsPerPage, p * ItemsPerPage)`, with JavaScript's clamping to the length. */
  function PageSlice(rows: seq<Row>, page: nat): (r: seq<Row>)
    requires page >= 1
    ensures |r| <= ItemsPerPage
    ensures (page - 1) * ItemsPerPage >= |rows| ==> r == []
    ensures (page - 1) * ItemsPerPage < |rows| ==>
      |r| == (if |rows| - (page - 1) * ItemsPerPage < ItemsPerPage then |rows| - (page - 1) * ItemsPerPage else ItemsPerPage)
    ensures forall i :: 0 <= i < |r| ==> r[i] == rows[(page - 1) * ItemsPerPage + i]
  {
    var start := (page - 1) * ItemsPerPage;
    if start >= |rows| then []
    else if page * ItemsPerPage <= |rows| then rows[start .. page * ItemsPerPage]
    else rows[start ..]
  }

  /** The "Showing a to b" numbers under the table. */
  function ShowingStart(rows: seq<Row>, page: nat): nat
    requires page >= 1
  {
    if |PageSlice(rows, page)| > 0 then (page - 1) * ItemsPerPage + 1 else 0
  }

  function ShowingEnd(rows: seq<Row>, page: nat): nat
  {
    if page * ItemsPerPage <= |rows| then page * ItemsPerPage else |rows|
  }

  /** On a valid page with rows, "Showing a to b" counts exactly the rows of the page. */
  lemma ShowingMatchesPage(rows: seq<Row>, page: nat)
    requires 1 <= page <= TotalPages(|rows|) && |rows| > 0
    ensures 1 <= ShowingStart(rows, page) <= ShowingEnd(rows, page)
    ensures ShowingEnd(rows, page) - ShowingStart(rows, page) + 1 == |PageSlice(rows, page)|
  {
    assert (page - 1) * ItemsPerPage <= (TotalPages(|rows|) - 1) * ItemsPerPage;
  }

  /** The pages of a table, in order, hold every row exactly once. */
  function AllPages(rows: seq<Row>, pages: nat): seq<Row>
  {
    if pages == 0 then [] else AllPages(rows, pages - 1) + PageSlice(rows, pages)
  }

  lemma {:induction false} AllPagesPrefix(rows: seq<Row>, pages: nat)
    requires pages * ItemsPerPage <= |rows|
    ensures AllPages(rows, pages) == rows[..pages * ItemsPerPage]
  {
    if pages > 0 {
      AllPagesPrefix(rows, pages - 1);
      assert rows[..pages * ItemsPerPage] == rows[..(pages - 1) * ItemsPerPage] + rows[(pages - 1) * ItemsPerPage .. pages * ItemsPerPage];
    }
  }

  lemma PagesCoverRows(rows: seq<Row>)
    ensures AllPages(rows, TotalPages(|rows|)) == rows
  {
    var t := TotalPages(|rows|);
    if |rows| == 0 {
      assert AllPages(rows, 1) == AllPages(rows, 0) + PageSlice(rows, 1);
    } else {
      PagesCoverNonEmpty(rows, t);
    }
  }

  lemma PagesCoverNonEmpty(rows: seq<Row>, t: nat)
    requires t >= 1 && (t - 1) * ItemsPerPage < |rows| <= t * ItemsPerPage
    ensures AllPages(rows, t) == rows
  {
    var start := (t - 1) * ItemsPerPage;
    AllPagesPrefix(rows, t - 1);
    LastPage(rows, t);
    assert rows == rows[..start] + rows[start..];
  }

  lemma LastPage(rows: seq<Row>, t: nat)
    requires t >= 1 && (t - 1) * ItemsPerPage < |rows| <= t * ItemsPerPage
    ensures PageSlice(rows, t) == rows[(t - 1) * ItemsPerPage ..]
  {
  }

  /** The table's state; the visible page and the page count are derived from it. */
  class Table {
    var data: seq<Row>
    var filteredData: seq<Row>
    var sortColumn: Option<Column>
    var sortDirection: Direction
    var filterValue: string
    var currentPage: nat

    /** The current page always exists. */
    predicate Valid()
      reads this
    {
      1 <= currentPage <= TotalPages(|filteredData|)
    }

    function PaginatedData(): (r: seq<Row>)
      reads this
      requires Valid()
      ensures |r| <= ItemsPerPage
    {
      PageSlice(filteredData, currentPage)
    }

    constructor ()
      ensures Valid()
      ensures data == DummyData && filteredData == DummyData
      ensures sortColumn == None && sortDirection == Asc && filterValue == "" && currentPage == 1
    {
      data := DummyData;
      filteredData := DummyData;
      sortColumn := None;
      sortDirection := Asc;
      filterValue := "";
      currentPage := 1;
    }

    /** The props effect: with all three props present, rebuild the rows and go back to page 1. */
    method PropsChanged(countyNames: Option<seq<string>>, stateNames: Option<seq<string>>, histData: Option<HistData>)
      modifies this`data, this`filteredData, this`currentPage
      ensures Valid()
      ensures countyNames.Some? && stateNames.Some? && histData.Some? ==>
        data == ZipRows(countyNames.value, stateNames.value, histData.value) &&
        filteredData == data && currentPage == 1
      ensures !(countyNames.Some? && stateNames.Some? && histData.Some?) ==>
        data == old(data) && filteredData == old(filteredData) && currentPage == old(currentPage)
      requires Valid()
    {
      if countyNames.Some? && stateNames.Some? && histData.Some? {
        var rows := ZipRows(countyNames.value, stateNames.value, histData.value);
        data := rows;
        filteredData := rows;
        currentPage := 1;
      }
    }

    /** `handleSort`: flip to descending only on a repeated ascending sort of the same column. */
    method HandleSort(column: Column)
      requires Valid()
      modifies this`sortColumn, this`sortDirection, this`filteredData, this`currentPage
      ensures Valid()
      ensures sortDirection == (if old(sortColumn) == Some(column) && old(sortDirection) == Asc then Desc else Asc)
      ensures sortColumn == Some(column)
      ensures filteredData == SortRows(old(filteredData), column, sortDirection)
      ensures multiset(filteredData) == multiset(old(filteredData))
      ensures AllDefined(old(filteredData), column) ==> Sorted(filteredData, column, sortDirection)
      ensures currentPage == 1
    {
      var newDirection := if sortColumn == Some(column) && sortDirection == Asc then Desc else Asc;
      sortColumn := Some(column);
      sortDirection := newDirection;
      if AllDefined(filteredData, column) {
        SortRowsSorted(filteredData, column, newDirection);
      }
      filteredData := SortRows(filteredData, column, newDirection);
      currentPage := 1;
    }

    /** `handleFilter`: filter the full data (not the sorted view) by the lower-cased query. */
    method HandleFilter(input: string)
      requires Valid()
      modifies this`filterValue, this`filteredData, this`currentPage
      ensures Valid()
      ensures filterValue == ToLower(input)
      ensures FilterRows(data, filterValue).Some? ==>
        filteredData == FilterRows(data, filterValue).value && currentPage == 1
      ensures FilterRows(data, filterValue).None? ==>
        filteredData == old(filteredData) && currentPage == old(currentPage)
    {
      var value := ToLower(input);
      filterValue := value;
      var filtered := FilterRows(data, value);
      if filtered.Some? {
        filteredData := filtered.value;
        currentPage := 1;
      }
    }

    method HandlePrevPage()
      requires Valid()
      modifies this`currentPage
      ensures Valid()
      ensures currentPage == if old(currentPage) > 1 then old(currentPage) - 1 else old(currentPage)
    {
      if currentPage > 1 {
        currentPage := currentPage - 1;
      }
    }

    method HandleNextPage()
      requires Valid()
      modifies this`currentPage
      ensures Valid()
      ensures currentPage == if old(currentPage) < TotalPages(|filteredData|) then old(currentPage) + 1 else old(currentPage)
    {
      if currentPage < TotalPages(|filteredData|) {
        currentPage := currentPage + 1;
      }
    }
  }
}
