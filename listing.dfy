/**
 * The list page: paging, sorting and search parameters read from the query
 * string, the search predicate shared by the data and count queries, the
 * page arithmetic, the highlighted row and the display formatting of
 * numeric columns; and the page a newly created row lands on.
 */
module Listing {
  import opened Wrappers
  import opened GoInt
  import opened Strconv
  import opened Strings
  import opened Values
  import opened Entity
  import opened NumberFormat

  /** What `list` reads from the query string. */
  datatype ListParams = ListParams(
    page: Int64, pageSize: int, sortField: string, sortOrder: string,
    search: string, highlightID: Int64)

  /** The parameters of the list page; `page` and `highlight` keep the value `Atoi` returns even on error. */
  function ReadListParams(list: ListConfig, q: Params): ListParams
  {
    var ps := Lookup(q, "pageSize");
    ListParams(
      Atoi(DefaultQuery(q, "page", "1")).value,
      if ps != "" && Atoi(ps).ok then Atoi(ps).value as int else list.pageSize,
      DefaultQuery(q, "sort", list.defaultSortField),
      DefaultQuery(q, "order", list.defaultSortOrder),
      TrimSpace(Lookup(q, "search")),
      Atoi(Lookup(q, "highlight")).value)
  }

  /**
   * The defaults and precedences of the list parameters: page 1 and
   * highlight 0 when absent, the configured page size unless the query
   * gives one that parses, the configured sort unless the query names one
   * (no whitelist), and a search term without surrounding white space.
   */
  lemma ListParamsDefaults(list: ListConfig, q: Params)
    ensures var p := ReadListParams(list, q);
      && ("page" !in q ==> p.page == 1)
      && (Atoi(Lookup(q, "pageSize")).ok ==> p.pageSize == Atoi(Lookup(q, "pageSize")).value)
      && (!Atoi(Lookup(q, "pageSize")).ok ==> p.pageSize == list.pageSize)
      && ("sort" in q ==> p.sortField == q["sort"])
      && ("sort" !in q ==> p.sortField == list.defaultSortField)
      && ("order" in q ==> p.sortOrder == q["order"])
      && ("order" !in q ==> p.sortOrder == list.defaultSortOrder)
      && (p.search != "" ==> !IsSpace(p.search[0]) && !IsSpace(p.search[|p.search| - 1]))
      && ("highlight" !in q ==> p.highlightID == 0)
  {
    AtoiItoa(1);
    assert Itoa(1) == "1";
    assert !Atoi("").ok && Atoi("").value == 0;
  }

  /** A condition with its positional arguments, as handed to the query builder. */
  datatype Where = Where(condition: string, args: seq<string>)

  /** One `f LIKE ?` clause per searchable field. */
  function LikeClauses(fields: seq<string>): (cs: seq<string>)
    ensures |cs| == |fields|
    ensures forall i :: 0 <= i < |fields| ==> cs[i] == fields[i] + " LIKE ?"
  {
    if fields == [] then [] else LikeClauses(fields[..|fields| - 1]) + [fields[|fields| - 1] + " LIKE ?"]
  }

  /** The search predicate: absent unless both the term and the field list are non-empty. */
  function SearchPredicate(fields: Option<seq<string>>, search: string): Option<Where>
  {
    var fs := if fields.Some? then fields.value else [];
    if search != "" && |fs| > 0 then
      Some(Where(Join(LikeClauses(fs), " OR "), seq(|fs|, _ => "%" + search + "%")))
    else None
  }

  /** The loop appending one clause and one `%term%` argument per searchable field. */
  method BuildSearch(fields: Option<seq<string>>, search: string) returns (w: Option<Where>)
    ensures w == SearchPredicate(fields, search)
    ensures w.Some? <==> search != "" && fields.Some? && |fields.value| > 0
    ensures w.Some? ==> |w.value.args| == |fields.value|
    ensures w.Some? ==> forall i :: 0 <= i < |w.value.args| ==> w.value.args[i] == "%" + search + "%"
  {
    var fs := if fields.Some? then fields.value else [];
    if !(search != "" && |fs| > 0) {
      return None;
    }
    var conds: seq<string> := [];
    var args: seq<string> := [];
    var i := 0;
    while i < |fs|
      invariant 0 <= i <= |fs|
      invariant conds == LikeClauses(fs[..i])
      invariant args == seq(i, _ => "%" + search + "%")
    {
      assert fs[..i + 1][..i] == fs[..i];
      conds := conds + [fs[i] + " LIKE ?"];
      args := args + ["%" + search + "%"];
      i := i + 1;
    }
    assert fs[..i] == fs;
    w := Some(Where(Join(conds, " OR "), args));
  }

  /** With no `?` in the field names, the condition has exactly one placeholder per argument. */
  lemma {:induction false} PlaceholdersMatchArguments(fields: seq<string>)
    requires forall i :: 0 <= i < |fields| ==> '?' !in fields[i]
    ensures CountChar(Join(LikeClauses(fields), " OR "), '?') == |fields|
    decreases |fields|
  {
    if |fields| == 1 {
      CountCharConcat(fields[0], " LIKE ?", '?');
      assert CountChar(fields[0], '?') == 0 by { NoOccurrence(fields[0], '?'); }
    } else if |fields| > 1 {
      var cs := LikeClauses(fields);
      assert LikeClauses(fields[1..]) == cs[1..];
      PlaceholdersMatchArguments(fields[1..]);
      CountCharConcat(cs[0], " OR ", '?');
      CountCharConcat(cs[0] + " OR ", Join(cs[1..], " OR "), '?');
      CountCharConcat(fields[0], " LIKE ?", '?');
      assert CountChar(fields[0], '?') == 0 by { NoOccurrence(fields[0], '?'); }
    }
  }

  lemma {:induction false} NoOccurrence(s: string, c: char)
    requires c !in s
    ensures CountChar(s, c) == 0
    decreases |s|
  {
    if s != [] {
      assert c !in s[1..] by {
        forall x | x in s[1..] ensures x != c { assert x in s; }
      }
      NoOccurrence(s[1..], c);
    }
  }

  /** The data query: columns, predicate, order, offset and limit. */
  datatype DataQuery = DataQuery(
    table: string, columns: Option<seq<string>>, where: Option<Where>,
    order: string, offset: Int64, limit: int)

  /** The count query over the same table and predicate. */
  datatype CountQuery = CountQuery(table: string, where: Option<Where>)

  /** `(page - 1) * pageSize` in Go's 64-bit `int`. */
  function Offset(page: Int64, pageSize: int): Int64
  {
    Wrap64((page - 1) * pageSize)
  }

  /** The two queries `list` issues; they share the table and the search predicate. */
  function ListQueries(ec: EntityConfig, p: ListParams): (qs: (DataQuery, CountQuery))
    ensures qs.0.table == qs.1.table == ec.table
    ensures qs.0.where == qs.1.where == SearchPredicate(ec.list.searchableFields, p.search)
    ensures qs.0.limit == p.pageSize && qs.0.columns == ec.list.columns
  {
    var w := SearchPredicate(ec.list.searchableFields, p.search);
    (DataQuery(ec.table, ec.list.columns, w, p.sortField + " " + p.sortOrder, Offset(p.page, p.pageSize), p.pageSize),
     CountQuery(ec.table, w))
  }

  /** The number of pages: the ceiling of `total / pageSize`, and 0 for a page size that is not positive. */
  function TotalPages(total: nat, pageSize: int): (n: nat)
    ensures pageSize <= 0 ==> n == 0
    ensures pageSize > 0 ==> total <= n * pageSize && (n == 0 || (n - 1) * pageSize < total)
  {
    if pageSize > 0 then
      var n := (total + pageSize - 1) / pageSize;
      CeilingBounds(total, pageSize);
      n
    else 0
  }

  lemma CeilingBounds(total: nat, pageSize: int)
    requires pageSize > 0
    ensures var n := (total + pageSize - 1) / pageSize;
      total <= n * pageSize && (n == 0 || (n - 1) * pageSize < total)
  {
    var a := total + pageSize - 1;
    var n := a / pageSize;
    var r := a % pageSize;
    assert a == n * pageSize + r && 0 <= r < pageSize;
    assert (n - 1) * pageSize == n * pageSize - pageSize;
  }

  /** Whether a fetched row is the one to highlight: its id, printed and read back as an integer, equals the parameter. */
  predicate IdMatches(rt: Runtime, row: Row, highlightID: Int64)
  {
    "id" in row && Atoi(Sprint(rt, row["id"])).ok && Atoi(Sprint(rt, row["id"])).value == highlightID
  }

  /** The row as it leaves the highlight pass. */
  function Highlighted(rt: Runtime, row: Row, highlightID: Int64): Row
  {
    if IdMatches(rt, row, highlightID) then row["_highlight" := Bool(true)] else row
  }

  /** The highlight pass, which marks the fetched rows in place. */
  method MarkHighlight(rt: Runtime, data: array<Row>, highlightID: Int64)
    modifies data
    ensures forall i :: 0 <= i < data.Length ==> data[i] == Highlighted(rt, old(data[i]), highlightID)
  {
    var i := 0;
    while i < data.Length
      invariant 0 <= i <= data.Length
      invariant forall j :: 0 <= j < i ==> data[j] == Highlighted(rt, old(data[j]), highlightID)
      invariant forall j :: i <= j < data.Length ==> data[j] == old(data[j])
    {
      var row := data[i];
      if "id" in row {
        var parsed := Atoi(Sprint(rt, row["id"]));
        if parsed.ok && parsed.value == highlightID {
          data[i] := row["_highlight" := Bool(true)];
        }
      }
      i := i + 1;
    }
  }

  /** A row with an integer id is marked exactly when the id equals the parameter; nothing else changes. */
  lemma HighlightIntegerId(rt: Runtime, row: Row, highlightID: Int64)
    requires "id" in row && row["id"].Int?
    ensures row["id"].i == highlightID ==> Highlighted(rt, row, highlightID) == row["_highlight" := Bool(true)]
    ensures row["id"].i != highlightID ==> Highlighted(rt, row, highlightID) == row
  {
    AtoiItoa(row["id"].i);
  }

  /** The pass only ever adds the `_highlight` flag. */
  lemma HighlightOnlyFlags(rt: Runtime, row: Row, highlightID: Int64)
    ensures var h := Highlighted(rt, row, highlightID);
      h.Keys == row.Keys + (if IdMatches(rt, row, highlightID) then {"_highlight"} else {})
      && forall k :: k in row && k != "_highlight" ==> h[k] == row[k]
  {
  }

  /** Whether the detail form gives the field `name` a decimal separator, which turns its number formatting on. */
  predicate FormatsNumbers(ficheByName: map<string, FieldDef>, name: string)
  {
    name in ficheByName && ficheByName[name].decimalSeparator != ""
  }

  /**
   * A numeric column of a row shown with the detail form's separators, when
   * the column's fiche definition names a decimal separator and its value
   * reads as a float; otherwise the row is left as it is. The handler calls
   * `formatNumber` as written, so a negative value has its sign grouped.
   */
  function NumberCell(rt: Runtime, f: Field, ficheByName: map<string, FieldDef>, row: Row): Row
  {
    if f.fieldType == "number" && FormatsNumbers(ficheByName, f.name)
      && f.name in row && row[f.name] != Nil
    then
      var fd := ficheByName[f.name];
      match rt.parseFloat(Sprint(rt, row[f.name]))
      case Some(num) => row[f.name := Str(FormattedNumberAsWritten(rt.formatFloat(num, fd.decimals), fd.decimalSeparator, fd.thousandsSeparator))]
      case None => row
    else row
  }

  /** The number formatting of one row, field after field. */
  function FormatRow(rt: Runtime, fields: seq<Field>, ficheByName: map<string, FieldDef>, row: Row): Row
  {
    if fields == [] then row
    else NumberCell(rt, fields[|fields| - 1], ficheByName, FormatRow(rt, fields[..|fields| - 1], ficheByName, row))
  }

  /** Whether no declared field of that name has type `number`. */
  predicate NotNumeric(fields: seq<Field>, k: string)
  {
    forall i :: 0 <= i < |fields| && fields[i].name == k ==> fields[i].fieldType != "number"
  }

  /** Formatting keeps every column and changes only the columns of declared `number` fields. */
  lemma {:induction false} FormatRowOnlyNumbers(rt: Runtime, fields: seq<Field>, ficheByName: map<string, FieldDef>, row: Row)
    ensures FormatRow(rt, fields, ficheByName, row).Keys == row.Keys
    ensures forall k :: k in row && NotNumeric(fields, k) ==> FormatRow(rt, fields, ficheByName, row)[k] == row[k]
  {
    if fields != [] {
      FormatRowOnlyNumbers(rt, fields[..|fields| - 1], ficheByName, row);
    }
  }

  /**
   * The column of a `number` field declared once ends up as the as-written
   * formatting of its value when the detail form gives the field a decimal
   * separator and the value reads as a float, and as it was otherwise.
   */
  lemma {:induction false} FormatRowNumberColumn(rt: Runtime, fields: seq<Field>, ficheByName: map<string, FieldDef>, row: Row, i: nat)
    requires i < |fields| && DeclaredOnce(fields, i) && fields[i].fieldType == "number"
    ensures FormatRow(rt, fields, ficheByName, row).Keys == row.Keys
    ensures var n, r := fields[i].name, FormatRow(rt, fields, ficheByName, row);
      n in row && row[n] != Nil && FormatsNumbers(ficheByName, n) && rt.parseFloat(Sprint(rt, row[n])).Some? ==>
        r[n] == Str(FormattedNumberAsWritten(
          rt.formatFloat(rt.parseFloat(Sprint(rt, row[n])).value, ficheByName[n].decimals),
          ficheByName[n].decimalSeparator, ficheByName[n].thousandsSeparator))
    ensures var n, r := fields[i].name, FormatRow(rt, fields, ficheByName, row);
      n in row && !(row[n] != Nil && FormatsNumbers(ficheByName, n) && rt.parseFloat(Sprint(rt, row[n])).Some?) ==>
        r[n] == row[n]
    decreases |fields|
  {
    var last := |fields| - 1;
    var init := fields[..last];
    var n := fields[i].name;
    FormatRowOnlyNumbers(rt, init, ficheByName, row);
    NumberCellFrame(rt, fields[last], ficheByName, FormatRow(rt, init, ficheByName, row));
    if i == last {
      assert NotNumeric(init, n) by {
        forall j | 0 <= j < |init|
          ensures init[j].name != n
        {
          assert init[j] == fields[j];
        }
      }
    } else {
      assert init[i] == fields[i];
      assert DeclaredOnce(init, i) by {
        forall j | 0 <= j < |init| && j != i
          ensures init[j].name != init[i].name
        {
          assert init[j] == fields[j];
        }
      }
      FormatRowNumberColumn(rt, init, ficheByName, row, i);
      assert fields[last].name != n;
    }
  }

  /** One declared field formats at most its own column. */
  lemma NumberCellFrame(rt: Runtime, f: Field, ficheByName: map<string, FieldDef>, row: Row)
    ensures NumberCell(rt, f, ficheByName, row).Keys == row.Keys
    ensures forall k :: k in row && k != f.name ==> NumberCell(rt, f, ficheByName, row)[k] == row[k]
  {
  }

  /**
   * The list page shows a negative number with its sign grouped: a value
   * that `strconv.FormatFloat` prints as "-123.50", under the separators ","
   * and ".", is shown as "-.123,50".
   */
  lemma NumberCellGroupsSign(rt: Runtime, f: Field, ficheByName: map<string, FieldDef>, row: Row)
    requires f.fieldType == "number" && f.name in row && row[f.name] != Nil
    requires FormatsNumbers(ficheByName, f.name)
    requires ficheByName[f.name].decimalSeparator == "," && ficheByName[f.name].thousandsSeparator == "."
    requires rt.parseFloat(Sprint(rt, row[f.name])).Some?
    requires rt.formatFloat(rt.parseFloat(Sprint(rt, row[f.name])).value, ficheByName[f.name].decimals) == "-123.50"
    ensures NumberCell(rt, f, ficheByName, row)[f.name] == Str("-.123,50")
  {
    SignGroupedAsDigit();
  }

  /** The body of the number loop for one declared field. */
  method FormatField(rt: Runtime, ec: EntityConfig, f: Field, row0: Row) returns (row: Row)
    ensures row == NumberCell(rt, f, ec.ficheFieldsByName, row0)
  {
    row := row0;
    if f.fieldType == "number" && FormatsNumbers(ec.ficheFieldsByName, f.name) {
      var fd := ec.ficheFieldsByName[f.name];
      if f.name in row && row[f.name] != Nil {
        var parsed := rt.parseFloat(Sprint(rt, row[f.name]));
        if parsed.Some? {
          var text := FormatNumberAsWritten(rt, parsed.value, fd.decimals, fd.decimalSeparator, fd.thousandsSeparator);
          row := row[f.name := Str(text)];
        }
      }
    }
  }

  /** The inner loop of the number pass: one row, every declared field in order. */
  method FormatRowFields(rt: Runtime, ec: EntityConfig, row0: Row) returns (row: Row)
    ensures row == FormatRow(rt, ec.fields, ec.ficheFieldsByName, row0)
  {
    var fields := ec.fields;
    row := row0;
    var k := 0;
    while k < |fields|
      invariant 0 <= k <= |fields|
      invariant row == FormatRow(rt, fields[..k], ec.ficheFieldsByName, row0)
    {
      assert fields[..k + 1][..k] == fields[..k];
      row := FormatField(rt, ec, fields[k], row);
      k := k + 1;
    }
    assert fields[..k] == fields;
  }

  /** The number pass over the fetched rows, which rewrites them in place. */
  method FormatNumbers(rt: Runtime, ec: EntityConfig, data: array<Row>)
    modifies data
    ensures forall i :: 0 <= i < data.Length ==> data[i] == FormatRow(rt, ec.fields, ec.ficheFieldsByName, old(data[i]))
  {
    var i := 0;
    while i < data.Length
      invariant 0 <= i <= data.Length
      invariant forall j :: 0 <= j < i ==> data[j] == FormatRow(rt, ec.fields, ec.ficheFieldsByName, old(data[j]))
      invariant forall j :: i <= j < data.Length ==> data[j] == old(data[j])
    {
      var row := FormatRowFields(rt, ec, data[i]);
      data[i] := row;
      i := i + 1;
    }
  }

  /** What the list page shows besides the rows. */
  datatype ListPage = ListPage(params: ListParams, dataQuery: DataQuery, countQuery: CountQuery, total: nat, totalPages: nat)

  /** `after` is `before` highlighted, then number-formatted, row by row. */
  predicate Decorated(rt: Runtime, ec: EntityConfig, highlightID: Int64, before: seq<Row>, after: seq<Row>)
  {
    |after| == |before| &&
    forall i :: 0 <= i < |before| ==>
      after[i] == FormatRow(rt, ec.fields, ec.ficheFieldsByName, Highlighted(rt, before[i], highlightID))
  }

  /** The two passes over the fetched rows: highlight, then number formatting. */
  method DecorateRows(rt: Runtime, ec: EntityConfig, data: array<Row>, highlightID: Int64)
    modifies data
    ensures Decorated(rt, ec, highlightID, old(data[..]), data[..])
  {
    MarkHighlight(rt, data, highlightID);
    FormatNumbers(rt, ec, data);
  }

  /** The page for a query string and the count the count query returned. */
  function ListPageOf(ec: EntityConfig, q: Params, total: nat): ListPage
  {
    var p := ReadListParams(ec.list, q);
    var qs := ListQueries(ec, p);
    ListPage(p, qs.0, qs.1, total, TotalPages(total, p.pageSize))
  }

  /** The queries and page counts of `list`, built as the handler builds them. */
  method BuildListPage(ec: EntityConfig, q: Params, total: nat) returns (page: ListPage)
    ensures page == ListPageOf(ec, q, total)
  {
    var p := ReadListParams(ec.list, q);
    var w := BuildSearch(ec.list.searchableFields, p.search);
    var dataQuery := DataQuery(ec.table, ec.list.columns, w, p.sortField + " " + p.sortOrder, Offset(p.page, p.pageSize), p.pageSize);
    var countQuery := CountQuery(ec.table, w);
    var totalPages := TotalPages(total, p.pageSize);
    page := ListPage(p, dataQuery, countQuery, total, totalPages);
  }

  /**
   * `list`: the rows the data query fetched and the count the count query
   * returned are inputs; the rows are highlighted, then formatted, in place.
   * The queries are those `BuildListPage` builds.
   */
  method List(rt: Runtime, ec: EntityConfig, q: Params, data: array<Row>, total: nat) returns (page: ListPage)
    modifies data
    ensures page == ListPageOf(ec, q, total)
    ensures Decorated(rt, ec, page.params.highlightID, old(data[..]), data[..])
  {
    var p := ReadListParams(ec.list, q);
    DecorateRows(rt, ec, data, p.highlightID);
    page := ListPageOf(ec, q, total);
  }

  /** The page `create` redirects to, from the number of rows whose id is at most the new id. */
  function CreatePage(countBefore: int, pageSize: int): int
    requires pageSize != 0
  {
    TruncDiv(countBefore + pageSize - 1, pageSize)
  }

  /** How many of `ids` are at most `x`. */
  function CountAtMost(ids: seq<int>, x: int): nat
  {
    if ids == [] then 0 else CountAtMost(ids[..|ids| - 1], x) + (if ids[|ids| - 1] <= x then 1 else 0)
  }

  predicate StrictlyIncreasing(ids: seq<int>)
  {
    forall i, j :: 0 <= i < j < |ids| ==> ids[i] < ids[j]
  }

  lemma {:induction false} CountAtMostRank(ids: seq<int>, k: nat)
    requires StrictlyIncreasing(ids) && k < |ids|
    ensures CountAtMost(ids, ids[k]) == k + 1
    decreases |ids|
  {
    var n := |ids| - 1;
    if k < n {
      CountAtMostRank(ids[..n], k);
    } else {
      CountAtMostBelow(ids[..n], ids[k]);
    }
  }

  lemma {:induction false} CountAtMostBelow(ids: seq<int>, x: int)
    requires forall i :: 0 <= i < |ids| ==> ids[i] < x
    ensures CountAtMost(ids, x) == |ids|
    decreases |ids|
  {
    if ids != [] {
      CountAtMostBelow(ids[..|ids| - 1], x);
    }
  }

  lemma MulMonotone(a: int, b: int, c: int)
    requires a <= b && c > 0
    ensures a * c <= b * c
  {
    assert b * c - a * c == (b - a) * c;
  }

  lemma PageOfPosition(k: nat, pageSize: int)
    requires pageSize > 0
    ensures 1 <= CreatePage(k + 1, pageSize) <= k + 1
    ensures 0 <= (CreatePage(k + 1, pageSize) - 1) * pageSize <= k < (CreatePage(k + 1, pageSize) - 1) * pageSize + pageSize
  {
    var p := (k + pageSize) / pageSize;
    var r := (k + pageSize) % pageSize;
    assert CreatePage(k + 1, pageSize) == p;
    assert k + pageSize == p * pageSize + r && 0 <= r < pageSize;
    PageArithmetic(k, pageSize, p, r);
  }

  /** The quotient and remainder facts behind `PageOfPosition`, free of division. */
  lemma PageArithmetic(k: nat, pageSize: int, p: int, r: int)
    requires pageSize > 0 && k + pageSize == p * pageSize + r && 0 <= r < pageSize
    ensures 1 <= p <= k + 1
    ensures 0 <= (p - 1) * pageSize <= k < (p - 1) * pageSize + pageSize
  {
    assert (p - 1) * pageSize == p * pageSize - pageSize;
    if p < 1 {
      MulMonotone(p, 0, pageSize);
    }
    if p > k + 1 {
      MulMonotone(k + 1, p - 1, pageSize);
      MulMonotone(1, pageSize, k + 1);
    }
    MulMonotone(0, p - 1, pageSize);
  }

  lemma OffsetNoWrap(page: Int64, pageSize: int, bound: nat)
    requires 0 <= (page - 1) * pageSize <= bound <= MaxInt64
    ensures Offset(page, pageSize) == (page - 1) * pageSize
  {
  }

  lemma PageWithinTotal(k: nat, total: nat, pageSize: int)
    requires k < total && pageSize > 0
    ensures CreatePage(k + 1, pageSize) <= TotalPages(total, pageSize)
  {
    PageOfPosition(k, pageSize);
    var p := CreatePage(k + 1, pageSize);
    var n := TotalPages(total, pageSize);
    if p > n {
      MulMonotone(n, p - 1, pageSize);
    }
  }

  /**
   * When the list is in ascending id order, the page `create` redirects to
   * holds the row: with `ids` the ids of all rows, the row at position `k`
   * lies within that page's offset and limit, and the page is one of the
   * list's pages.
   */
  lemma CreatedRowOnItsPage(ids: seq<int>, k: nat, pageSize: int)
    requires StrictlyIncreasing(ids) && k < |ids| <= MaxInt64
    requires pageSize > 0
    ensures var p := CreatePage(CountAtMost(ids, ids[k]), pageSize);
      && 1 <= p <= TotalPages(|ids|, pageSize)
      && Offset(p, pageSize) <= k < Offset(p, pageSize) + pageSize
  {
    CountAtMostRank(ids, k);
    PageOfPosition(k, pageSize);
    PageWithinTotal(k, |ids|, pageSize);
    var p := CreatePage(k + 1, pageSize);
    assert 1 <= p <= k + 1 <= MaxInt64;
    OffsetNoWrap(p, pageSize, k);
  }
}
