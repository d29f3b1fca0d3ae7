/**
 * The query that `ViewAllContainers` builds step by step, stated as pure
 * functions over the rows: the filter predicate shared by the count and the
 * page query, the whitelist of sort columns, the sort direction, the page size
 * default and the offset/limit window.
 */
module Listing {
  import opened Outcomes
  import opened Text
  import opened ContainerModel

  // ------------------------------------------------------------ filtering

  /** The filter with every field empty: it keeps every row. */
  const EmptyFilter: ContainerFilter := ContainerFilter("", "", "", "")

  /**
   * The WHERE clause: runtime id and status compare exactly, name and image
   * match as substrings; an empty field or a nil filter adds nothing.
   */
  predicate Matches(filter: Option<ContainerFilter>, c: Container)
  {
    match filter
    case None => true
    case Some(f) =>
      (f.containerId == "" || c.containerId == f.containerId) &&
      (f.containerName == "" || Contains(c.containerName, f.containerName)) &&
      (f.imageName == "" || Contains(c.imageName, f.imageName)) &&
      (f.status == "" || c.status == f.status)
  }

  /** The rows the WHERE clause keeps, in their original order. */
  function Filter(rows: seq<Container>, filter: Option<ContainerFilter>): (r: seq<Container>)
    ensures |r| <= |rows|
  {
    if rows == [] then []
    else (if Matches(filter, rows[0]) then [rows[0]] else []) + Filter(rows[1..], filter)
  }

  /** A row survives the filter exactly when it is one of the rows and matches every non-empty field. */
  lemma {:induction false} FilterKeepsExactlyMatches(rows: seq<Container>, filter: Option<ContainerFilter>, c: Container)
    ensures c in Filter(rows, filter) <==> c in rows && Matches(filter, c)
  {
    if rows != [] {
      FilterKeepsExactlyMatches(rows[1..], filter, c);
      assert rows == [rows[0]] + rows[1..];
    }
  }

  /** A nil filter and a filter of empty fields both keep every row, in order. */
  lemma {:induction false} FilterEmptyKeepsAll(rows: seq<Container>)
    ensures Filter(rows, None) == rows
    ensures Filter(rows, Some(EmptyFilter)) == rows
  {
    if rows != [] {
      FilterEmptyKeepsAll(rows[1..]);
      assert rows == [rows[0]] + rows[1..];
    }
  }

  // ---------------------------------------------------------- sort column

  /** The columns a caller may sort by. */
  datatype SortField = ById | ByContainerId | ByContainerName | ByImageName | ByStatus | ByCreatedAt | ByUpdatedAt

  datatype Direction = Asc | Desc

  datatype Ordering = Ordering(field: SortField, direction: Direction)

  /** The column each sort field names in SQL. */
  function ColumnName(f: SortField): string
  {
    match f
    case ById => "id"
    case ByContainerId => "container_id"
    case ByContainerName => "container_name"
    case ByImageName => "image_name"
    case ByStatus => "status"
    case ByCreatedAt => "created_at"
    case ByUpdatedAt => "updated_at"
  }

  /** The whitelist lookup: only the seven column names are accepted. */
  function ParseSortField(s: string): Option<SortField>
  {
    if s == "id" then Some(ById)
    else if s == "container_id" then Some(ByContainerId)
    else if s == "container_name" then Some(ByContainerName)
    else if s == "image_name" then Some(ByImageName)
    else if s == "status" then Some(ByStatus)
    else if s == "created_at" then Some(ByCreatedAt)
    else if s == "updated_at" then Some(ByUpdatedAt)
    else None
  }

  /** The whitelist accepts a text exactly when it is the column name of some sort field, and then yields that field. */
  lemma SortFieldWhitelist(s: string)
    ensures ParseSortField(s).Some? <==> exists f :: ColumnName(f) == s
    ensures ParseSortField(s).Some? ==> ColumnName(ParseSortField(s).value) == s
  {
    if exists f :: ColumnName(f) == s {
      var f :| ColumnName(f) == s;
      assert ParseSortField(ColumnName(f)) == Some(f);
    }
    if ParseSortField(s).Some? {
      assert ColumnName(ParseSortField(s).value) == s;
    }
  }

  /** `strings.ToLower(sortOrder) == "desc"` picks DESC; anything else, the empty text included, ASC. */
  function DirectionOf(sortOrder: string): Direction
  {
    if ToLower(sortOrder) == "desc" then Desc else Asc
  }

  /** The ORDER BY used when no sort column is given. */
  const DefaultOrdering: Ordering := Ordering(ByCreatedAt, Desc)

  /** The ORDER BY clause, or the error for a column outside the whitelist. */
  function OrderingFor(sortBy: string, sortOrder: string): (r: Result<Ordering>)
    ensures sortBy == "" ==> r == Ok(DefaultOrdering)
    ensures sortBy != "" && r.Ok? ==> ColumnName(r.value.field) == sortBy
    ensures sortBy != "" && r.Ok? ==> (r.value.direction == Desc <==> ToLower(sortOrder) == "desc")
    ensures r.Err? <==> sortBy != "" && !(exists f :: ColumnName(f) == sortBy)
    ensures r.Err? ==> r.msg == "invalid sort field: " + sortBy
    ensures !r.Panic?
  {
    SortFieldWhitelist(sortBy);
    if sortBy == "" then Ok(DefaultOrdering)
    else match ParseSortField(sortBy)
      case None => Err("invalid sort field: " + sortBy)
      case Some(f) => Ok(Ordering(f, DirectionOf(sortOrder)))
  }

  // -------------------------------------------------------------- sorting

  /** The value a row is ordered by. */
  datatype SortKey = NumKey(n: int) | TextKey(t: string)

  function KeyOf(c: Container, f: SortField): SortKey
  {
    match f
    case ById => NumKey(c.id)
    case ByContainerId => TextKey(c.containerId)
    case ByContainerName => TextKey(c.containerName)
    case ByImageName => TextKey(c.imageName)
    case ByStatus => TextKey(c.status)
    case ByCreatedAt => NumKey(c.createdAt)
    case ByUpdatedAt => NumKey(c.updatedAt)
  }

  predicate KeyLessEq(a: SortKey, b: SortKey)
  {
    match (a, b)
    case (NumKey(x), NumKey(y)) => x <= y
    case (TextKey(x), TextKey(y)) => TextLessEq(x, y)
    case (NumKey(_), TextKey(_)) => true
    case (TextKey(_), NumKey(_)) => false
  }

  /** `a` may come before `b` under the ordering. */
  predicate InOrder(a: Container, b: Container, o: Ordering)
  {
    if o.direction == Asc then KeyLessEq(KeyOf(a, o.field), KeyOf(b, o.field))
    else KeyLessEq(KeyOf(b, o.field), KeyOf(a, o.field))
  }

  lemma InOrderTotal(a: Container, b: Container, o: Ordering)
    ensures InOrder(a, b, o) || InOrder(b, a, o)
  {
    var x, y := KeyOf(a, o.field), KeyOf(b, o.field);
    if x.TextKey? && y.TextKey? {
      TextLessEqTotal(x.t, y.t);
    }
  }

  predicate Sorted(s: seq<Container>, o: Ordering)
  {
    forall i :: 0 <= i < |s| - 1 ==> InOrder(s[i], s[i + 1], o)
  }

  function Insert(x: Container, s: seq<Container>, o: Ordering): seq<Container>
  {
    if s == [] then [x]
    else if InOrder(x, s[0], o) then [x] + s
    else [s[0]] + Insert(x, s[1..], o)
  }

  /** The rows in ORDER BY order; rows with equal keys keep their relative order. */
  function SortRows(s: seq<Container>, o: Ordering): seq<Container>
  {
    if s == [] then [] else Insert(s[0], SortRows(s[1..], o), o)
  }

  lemma {:induction false} InsertSorted(x: Container, s: seq<Container>, o: Ordering)
    requires Sorted(s, o)
    ensures Sorted(Insert(x, s, o), o)
    ensures multiset(Insert(x, s, o)) == multiset(s) + multiset{x}
    ensures Insert(x, s, o)[0] == x || (s != [] && Insert(x, s, o)[0] == s[0])
  {
    if s != [] && !InOrder(x, s[0], o) {
      InsertSorted(x, s[1..], o);
      InOrderTotal(x, s[0], o);
      assert s == [s[0]] + s[1..];
    }
  }

  /** Sorting yields the same rows, in the requested order. */
  lemma {:induction false} SortRowsSortsAndPermutes(s: seq<Container>, o: Ordering)
    ensures Sorted(SortRows(s, o), o)
    ensures multiset(SortRows(s, o)) == multiset(s)
  {
    if s != [] {
      SortRowsSortsAndPermutes(s[1..], o);
      InsertSorted(s[0], SortRows(s[1..], o), o);
      assert s == [s[0]] + s[1..];
    }
  }

  // ----------------------------------------------------------- the window

  const DefaultPageSize: nat := 10

  /** LIMIT: `to - from`, or 10 when that is not positive. */
  function PageSize(from: int, to: int): (n: nat)
    ensures n > 0
    ensures to - from > 0 ==> n == to - from
    ensures to - from <= 0 ==> n == DefaultPageSize
  {
    if to - from <= 0 then DefaultPageSize else to - from
  }

  /** OFFSET: a non-positive offset adds no OFFSET clause. */
  function Offset(from: int): nat
  {
    if from > 0 then from else 0
  }

  /** OFFSET then LIMIT: at most `size` consecutive rows starting at the offset. */
  function Page(rows: seq<Container>, from: int, size: nat): (r: seq<Container>)
    ensures |r| <= size
    ensures |r| == if Offset(from) >= |rows| then 0 else Min(size, |rows| - Offset(from))
    ensures forall i :: 0 <= i < |r| ==> r[i] == rows[Offset(from) + i]
  {
    var lo := Offset(from);
    if lo >= |rows| then [] else rows[lo..lo + Min(size, |rows| - lo)]
  }

  function Min(a: nat, b: nat): nat { if a <= b then a else b }

  /** What the listing returns: the filtered total and one page of rows. */
  datatype View = View(total: nat, page: seq<Container>)
}
