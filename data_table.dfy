/** The generic admin table: search over chosen fields, sort by a column,
    and split into pages. */
module DataTable {
  import opened Common
  import opened TextUtil
  import opened Collections

  /** A row, by field name. */
  type Row = map<string, Value>

  function Field(row: Row, key: string): Value
  {
    if key in row then row[key] else Undefined
  }

  /** `value && value.toString()`: the text of a truthy value, None for a falsy one. */
  function ValueText(v: Value): (t: Option<string>)
    ensures t.None? <==> Falsy(v)
    ensures v.Text? && v.s != "" ==> t == Some(v.s)
  {
    match v
    case Int(i) => if i == 0 then None else Some(IntToString(i))
    case Text(s) => if s == "" then None else Some(s)
    case Bool(b) => if b then Some("true") else None
    case _ => None
  }

  /** The field's text holds the term, ignoring case. */
  predicate FieldMatches(row: Row, field: string, term: string)
  {
    var t := ValueText(Field(row, field));
    t.Some? && Contains(Lower(t.value), Lower(term))
  }

  /** The search test of one row: an empty term passes every row; otherwise
      some search field must hold the term. */
  function RowMatches(row: Row, fields: seq<string>, term: string): (b: bool)
    ensures term == "" ==> b
    ensures term != "" ==> (b <==> exists i :: 0 <= i < |fields| && FieldMatches(row, fields[i], term))
  {
    if term == "" then true
    else if fields == [] then false
    else if FieldMatches(row, fields[0], term) then true
    else
      var b := RowMatches(row, fields[1..], term);
      assert b ==> exists i :: 0 <= i < |fields| && FieldMatches(row, fields[i], term) by {
        if b {
          var i :| 0 <= i < |fields[1..]| && FieldMatches(row, fields[1..][i], term);
          assert fields[i + 1] == fields[1..][i];
        }
      }
      b
  }

  predicate IsDateColumn(column: string)
  {
    Contains(column, "date")
  }

  /** When the comparator puts `a` first. On a date column `'asc'` is by
      ascending date; on any other column the comparator is inverted, so
      `'asc'` puts the larger value first. `dateOf` stands for `new Date(v)`. */
  function RowBefore(column: string, dir: Direction, dateOf: Value -> int): (Row, Row) -> bool
  {
    (a: Row, b: Row) =>
      if IsDateColumn(column) then
        (if dir == Asc then dateOf(Field(a, column)) < dateOf(Field(b, column))
         else dateOf(Field(b, column)) < dateOf(Field(a, column)))
      else
        (if dir == Asc then ValueLess(Field(b, column), Field(a, column))
         else ValueLess(Field(a, column), Field(b, column)))
  }

  lemma RowBeforeIsStrictOrder(column: string, dir: Direction, dateOf: Value -> int)
    ensures StrictOrder(RowBefore(column, dir, dateOf))
  {
    var before := RowBefore(column, dir, dateOf);
    forall a: Row
      ensures !before(a, a)
    {
      ValueLessIrreflexive(Field(a, column));
    }
    forall a: Row, b: Row, c: Row | before(a, b) && before(b, c)
      ensures before(a, c)
    {
      if !IsDateColumn(column) {
        if dir == Asc {
          ValueLessTransitive(Field(c, column), Field(b, column), Field(a, column));
        } else {
          ValueLessTransitive(Field(a, column), Field(b, column), Field(c, column));
        }
      }
    }
  }

  /** filteredItems: the matching rows, sorted by the column. */
  function FilteredItems(data: seq<Row>, fields: seq<string>, term: string,
                         column: string, dir: Direction, dateOf: Value -> int): (r: seq<Row>)
    ensures multiset(r) == multiset(Filter(data, row => RowMatches(row, fields, term)))
  {
    SortBy(Filter(data, row => RowMatches(row, fields, term)), RowBefore(column, dir, dateOf))
  }

  /** What the table shows: exactly the matching rows, each as often as in
      the data, ordered as the column and direction say. */
  lemma FilteredItemsSpec(data: seq<Row>, fields: seq<string>, term: string,
                          column: string, dir: Direction, dateOf: Value -> int)
    ensures var r := FilteredItems(data, fields, term, column, dir, dateOf);
      && (forall row :: row in r <==> row in data && RowMatches(row, fields, term))
      && (term == "" ==> multiset(r) == multiset(data))
      && (IsDateColumn(column) && dir == Asc ==>
            forall i, j :: 0 <= i < j < |r| ==> dateOf(Field(r[i], column)) <= dateOf(Field(r[j], column)))
      && (IsDateColumn(column) && dir == Desc ==>
            forall i, j :: 0 <= i < j < |r| ==> dateOf(Field(r[i], column)) >= dateOf(Field(r[j], column)))
      && (!IsDateColumn(column) && dir == Asc ==>
            forall i, j :: 0 <= i < j < |r| ==> !ValueLess(Field(r[i], column), Field(r[j], column)))
      && (!IsDateColumn(column) && dir == Desc ==>
            forall i, j :: 0 <= i < j < |r| ==> !ValueLess(Field(r[j], column), Field(r[i], column)))
  {
    var keep := row => RowMatches(row, fields, term);
    var r := FilteredItems(data, fields, term, column, dir, dateOf);
    RowBeforeIsStrictOrder(column, dir, dateOf);
    SortBySorted(Filter(data, keep), RowBefore(column, dir, dateOf));
    forall row
      ensures row in r <==> row in data && RowMatches(row, fields, term)
    {
      assert row in r <==> row in multiset(r);
      assert row in Filter(data, keep) <==> row in multiset(Filter(data, keep));
    }
    if term == "" {
      FilterKeepsAll(data, keep);
    }
  }

  /** `Array.prototype.slice(start, end)`, negative indices counting from the end. */
  function Slice<T>(s: seq<T>, start: int, end: int): (r: seq<T>)
    ensures 0 <= start <= end ==> r == s[Min(start, |s|)..Min(end, |s|)]
  {
    var from := if start < 0 then Max(|s| + start, 0) else Min(start, |s|);
    var to := if end < 0 then Max(|s| + end, 0) else Min(end, |s|);
    if from < to then s[from..to] else []
  }

  /** paginatedItems: the rows of page `page`, `n` to a page. */
  function Page<T>(items: seq<T>, page: int, n: nat): (r: seq<T>)
    ensures page >= 1 ==> r == items[Min((page - 1) * n, |items|)..Min(page * n, |items|)]
  {
    Slice(items, (page - 1) * n, (page - 1) * n + n)
  }

  /** `Math.ceil(len / n)`. */
  function TotalPages(len: nat, n: nat): (t: nat)
    requires n > 0
    ensures len == 0 ==> t == 0
    ensures len > 0 ==> (t - 1) * n < len <= t * n
  {
    (len + n - 1) / n
  }

  /** Pages 1 to k, one after another. */
  function FirstPages<T>(items: seq<T>, n: nat, k: nat): seq<T>
  {
    if k == 0 then [] else FirstPages(items, n, k - 1) + Page(items, k, n)
  }

  lemma {:induction false} FirstPagesArePrefix<T>(items: seq<T>, n: nat, k: nat)
    ensures FirstPages(items, n, k) == items[..Min(k * n, |items|)]
  {
    if k > 0 {
      FirstPagesArePrefix(items, n, k - 1);
      MulStep(k, n);
      ConcatPrefix(items, (k - 1) * n, k * n);
    }
  }

  lemma MulStep(k: nat, n: nat)
    requires k > 0
    ensures k * n == (k - 1) * n + n
  {
  }

  lemma ConcatPrefix<T>(items: seq<T>, lo: nat, hi: nat)
    requires lo <= hi
    ensures items[..Min(lo, |items|)] + items[Min(lo, |items|)..Min(hi, |items|)] == items[..Min(hi, |items|)]
  {
  }

  lemma MulMonotone(a: nat, b: nat, n: nat)
    requires a <= b
    ensures a * n <= b * n
  {
  }

  /** A page that starts before the end of the rows holds at least one row. */
  lemma PageNonEmpty<T>(items: seq<T>, p: int, n: nat)
    requires p >= 1 && n > 0 && (p - 1) * n < |items|
    ensures Page(items, p, n) != []
  {
    MulStep(p, n);
  }

  /** The pages together hold every row once, in order, and none of them is empty. */
  lemma PagesCoverItems<T>(items: seq<T>, n: nat)
    requires n > 0
    ensures FirstPages(items, n, TotalPages(|items|, n)) == items
    ensures forall p :: 1 <= p <= TotalPages(|items|, n) ==> Page(items, p, n) != []
  {
    var t := TotalPages(|items|, n);
    FirstPagesArePrefix(items, n, t);
    assert items[..Min(t * n, |items|)] == items;
    forall p | 1 <= p <= t
      ensures Page(items, p, n) != []
    {
      MulMonotone(p - 1, t - 1, n);
      PageNonEmpty(items, p, n);
    }
  }

  /** The table's state; `data`, the search fields and the page size are its props. */
  class DataTableView {
    const data: seq<Row>
    const searchFields: seq<string>
    const itemsPerPage: nat
    var searchTerm: string
    var currentPage: int
    var sortColumn: string
    var sortDirection: Direction

    constructor (data: seq<Row>, firstColumn: string, searchFields: seq<string>, itemsPerPage: nat)
      requires itemsPerPage > 0
      ensures this.data == data && this.searchFields == searchFields && this.itemsPerPage == itemsPerPage
      ensures searchTerm == "" && currentPage == 1 && sortColumn == firstColumn && sortDirection == Asc
    {
      this.data := data;
      this.searchFields := searchFields;
      this.itemsPerPage := itemsPerPage;
      searchTerm := "";
      currentPage := 1;
      sortColumn := firstColumn;
      sortDirection := Asc;
    }

    /** handleSearch: a new term always goes back to the first page. */
    method HandleSearch(term: string)
      modifies this`searchTerm, this`currentPage
      ensures searchTerm == term && currentPage == 1
    {
      searchTerm := term;
      currentPage := 1;
    }

    method HandlePageChange(page: int)
      modifies this`currentPage
      ensures currentPage == page
    {
      currentPage := page;
    }

    /** handleSort: the current column flips direction; another column is
        selected ascending. */
    method HandleSort(column: string)
      modifies this`sortColumn, this`sortDirection
      ensures sortColumn == column
      ensures sortDirection == if old(sortColumn) == column then (if old(sortDirection) == Asc then Desc else Asc) else Asc
    {
      if sortColumn == column {
        sortDirection := if sortDirection == Asc then Desc else Asc;
      } else {
        sortColumn := column;
        sortDirection := Asc;
      }
    }

    /** The rows on screen, and whether the previous and next buttons are
        disabled; the pager is only drawn with more than one page. */
    method Render(dateOf: Value -> int) returns (rows: seq<Row>, totalPages: nat, prevDisabled: bool, nextDisabled: bool)
      requires itemsPerPage > 0
      ensures var items := FilteredItems(data, searchFields, searchTerm, sortColumn, sortDirection, dateOf);
        && totalPages == TotalPages(|items|, itemsPerPage)
        && rows == Page(items, currentPage, itemsPerPage)
        && |rows| <= itemsPerPage
        && (prevDisabled <==> currentPage == 1)
        && (nextDisabled <==> currentPage == totalPages)
        && (1 <= currentPage < totalPages ==> Page(items, currentPage + 1, itemsPerPage) != [])
    {
      var items := FilteredItems(data, searchFields, searchTerm, sortColumn, sortDirection, dateOf);
      totalPages := TotalPages(|items|, itemsPerPage);
      rows := Page(items, currentPage, itemsPerPage);
      prevDisabled := currentPage == 1;
      nextDisabled := currentPage == totalPages;
      PagesCoverItems(items, itemsPerPage);
    }
  }
}
