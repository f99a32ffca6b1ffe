/**
 * The distinct-values endpoints that feed the grids' column filters
 * (`/api/servizi/ge/unique_values`, GET and POST, in both versions of the
 * service-order module). Each one builds a WHERE text from the request,
 * asks the database for the distinct upper-cased values of one column, and
 * cleans the answer: nulls dropped, values converted with `str()` and
 * stripped, empty values dropped, duplicates dropped keeping the first.
 * The current module then sorts the list; the older one keeps the
 * database's order.
 */
module UniqueValues {
  import opened Base
  import opened Text
  import opened WhereClause
  import opened QueryBuilder
  import opened GridData
  import opened LexSort

  // ---------------------------------------------------------------------
  // Cleaning the database's answer
  // ---------------------------------------------------------------------

  /** `str(val).strip()` of one returned value. */
  function Cleaned(v: Json): string
  {
    Strip(PyStr(v))
  }

  /** A returned value the loop keeps (before the duplicate test). */
  predicate Kept(v: Json)
  {
    !v.JNull? && Cleaned(v) != ""
  }

  predicate NoDuplicates(xs: seq<string>)
  {
    forall i, j | 0 <= i < j < |xs| :: xs[i] != xs[j]
  }

  /**
   * The values the loop collects from the first rows of the answer: each
   * kept value the first time it is seen, in the order of the rows.
   */
  function Distinct(rows: seq<Json>): seq<string>
  {
    if rows == [] then []
    else
      var prev := Distinct(rows[..|rows| - 1]);
      var v := rows[|rows| - 1];
      if Kept(v) && Cleaned(v) !in prev then prev + [Cleaned(v)] else prev
  }

  /** The deduplication loop of every distinct-values endpoint. */
  method DedupValues(rows: seq<Json>) returns (values: seq<string>)
    ensures values == Distinct(rows)
  {
    values := [];
    var seen: set<string> := {};
    var i := 0;
    while i < |rows|
      invariant 0 <= i <= |rows|
      invariant values == Distinct(rows[..i])
      invariant forall x :: x in seen <==> x in values
    {
      var val := rows[i];
      DistinctStep(rows, i);
      if !val.JNull? {
        var s := Strip(PyStr(val));
        assert s == Cleaned(val);
        if s != "" && s !in seen {
          values := values + [s];
          seen := seen + {s};
        }
      }
      i := i + 1;
    }
    assert rows[..i] == rows;
  }

  /** What the cleaned list holds: no value twice, every value stripped and non-empty. */
  lemma {:induction false} DistinctSpec(rows: seq<Json>)
    ensures NoDuplicates(Distinct(rows))
    ensures forall x | x in Distinct(rows) :: x != "" && Strip(x) == x
  {
    if rows != [] {
      var init := rows[..|rows| - 1];
      var v := rows[|rows| - 1];
      DistinctSpec(init);
      if Kept(v) && Cleaned(v) !in Distinct(init) {
        StripIdempotent(PyStr(v));
        AppendFresh(Distinct(init), Cleaned(v));
      }
    }
  }

  /** Appending a value not yet in a duplicate-free list keeps it duplicate-free. */
  lemma AppendFresh(xs: seq<string>, x: string)
    requires NoDuplicates(xs) && x !in xs
    ensures NoDuplicates(xs + [x])
  {
  }

  /** How the cleaned list of a prefix grows by one row. */
  lemma DistinctStep(rows: seq<Json>, i: nat)
    requires i < |rows|
    ensures Distinct(rows[..i + 1])
      == if Kept(rows[i]) && Cleaned(rows[i]) !in Distinct(rows[..i])
         then Distinct(rows[..i]) + [Cleaned(rows[i])]
         else Distinct(rows[..i])
  {
    assert rows[..i + 1][..i] == rows[..i];
  }

  /** Every kept row's cleaned value is in the cleaned list. */
  lemma {:induction false} DistinctComplete(rows: seq<Json>, k: nat)
    requires k < |rows| && Kept(rows[k])
    ensures Cleaned(rows[k]) in Distinct(rows)
  {
    var init := rows[..|rows| - 1];
    if k < |init| {
      assert init[k] == rows[k];
      DistinctComplete(init, k);
      DistinctKeeps(rows, Cleaned(rows[k]));
    } else {
      DistinctGrows(rows);
    }
  }

  /** One more row adds its value to the cleaned list when kept. */
  lemma DistinctGrows(rows: seq<Json>)
    requires rows != []
    ensures Kept(rows[|rows| - 1]) ==> Cleaned(rows[|rows| - 1]) in Distinct(rows)
  {
  }

  /** One more row keeps every value already collected. */
  lemma DistinctKeeps(rows: seq<Json>, x: string)
    requires rows != [] && x in Distinct(rows[..|rows| - 1])
    ensures x in Distinct(rows)
  {
    var prev := Distinct(rows[..|rows| - 1]);
    var j :| 0 <= j < |prev| && prev[j] == x;
    assert Distinct(rows)[j] == x;
  }

  /** Every value in the cleaned list comes from a kept row. */
  lemma {:induction false} DistinctSound(rows: seq<Json>, x: string)
    requires x in Distinct(rows)
    ensures exists k | 0 <= k < |rows| :: Kept(rows[k]) && Cleaned(rows[k]) == x
  {
    var init := rows[..|rows| - 1];
    if x in Distinct(init) {
      DistinctSound(init, x);
      var k :| 0 <= k < |init| && Kept(init[k]) && Cleaned(init[k]) == x;
      assert rows[k] == init[k];
    } else {
      assert Kept(rows[|rows| - 1]) && Cleaned(rows[|rows| - 1]) == x;
    }
  }

  /**
   * First-seen order: what the loop has collected after the first `n` rows
   * is a prefix of the final list.
   */
  lemma {:induction false} DistinctKeepsFirstSeenOrder(rows: seq<Json>, n: nat)
    requires n <= |rows|
    ensures Distinct(rows[..n]) <= Distinct(rows)
  {
    if n < |rows| {
      var init := rows[..|rows| - 1];
      assert init[..n] == rows[..n];
      DistinctKeepsFirstSeenOrder(init, n);
    } else {
      assert rows[..n] == rows;
    }
  }

  /** Two arrangements of the same values have the same duplicates. */
  lemma NoDuplicatesPermutation(a: seq<string>, b: seq<string>)
    requires NoDuplicates(a) && multiset(a) == multiset(b)
    ensures NoDuplicates(b)
  {
    NoDuplicatesCount(a);
    forall i, j | 0 <= i < j < |b| ensures b[i] != b[j] {
      TwoCopies(b, i, j);
    }
  }

  lemma TwoCopies(b: seq<string>, i: nat, j: nat)
    requires i < j < |b|
    ensures b[i] == b[j] ==> multiset(b)[b[i]] >= 2
  {
    assert b == b[..i] + [b[i]] + b[i + 1..j] + [b[j]] + b[j + 1..];
  }

  lemma {:induction false} NoDuplicatesCount(a: seq<string>)
    requires NoDuplicates(a)
    ensures forall x :: multiset(a)[x] <= 1
  {
    if a != [] {
      var init := a[..|a| - 1];
      NoDuplicatesCount(init);
      assert a == init + [a[|a| - 1]];
      assert a[|a| - 1] !in init;
    }
  }

  /**
   * The current module's answer: the cleaned values in ascending order,
   * each once, and exactly the kept rows' values.
   */
  function SortedDistinct(rows: seq<Json>): (r: seq<string>)
    ensures forall i, j | 0 <= i < j < |r| :: LexLeq(r[i], r[j]) && r[i] != r[j]
    ensures forall x :: x in r <==> x in Distinct(rows)
    ensures forall x | x in r :: x != "" && Strip(x) == x
  {
    var d := Distinct(rows);
    var r := SortStrings(d);
    DistinctSpec(rows);
    NoDuplicatesPermutation(d, r);
    assert forall x :: x in r <==> x in multiset(r);
    r
  }

  // ---------------------------------------------------------------------
  // Reading the filters
  // ---------------------------------------------------------------------

  /** `filters_dict.get(key)` of a parsed JSON object. */
  function Lookup(entries: seq<(string, SearchObj)>, key: string): (r: Option<SearchObj>)
    ensures r.Some? <==> exists k | 0 <= k < |entries| :: entries[k].0 == key
    ensures r.Some? ==> (key, r.value) in entries
  {
    if entries == [] then None
    else if entries[0].0 == key then Some(entries[0].1)
    else
      var r := Lookup(entries[1..], key);
      assert forall k | 1 <= k < |entries| :: entries[k] == entries[1..][k - 1];
      r
  }

  /** The key of the global search in the current module's GET filters. */
  const GlobalSearchKey: string := "search"
  /** The key of the global search in the older module's GET filters. */
  const LegacyGlobalSearchKey: string := "global_search"

  /**
   * The current GET handler's `column_searches`: filters on other known
   * columns whose plain value is non-empty, each reduced to that plain value
   * (the assignment expression keeps the value and drops the regex flag).
   */
  function GeGetSearches(columnNames: seq<string>, column: string, entries: seq<(string, SearchObj)>)
    : (r: seq<(string, SearchObj)>)
    ensures forall e | e in r :: e.0 in columnNames && e.0 != column && e.1.Bare? && e.1.text != ""
    ensures forall e | e in entries && e.0 in columnNames && e.0 != column && SearchText(e.1) != ""
              :: (e.0, Bare(SearchText(e.1))) in r
  {
    if entries == [] then []
    else
      var e := entries[0];
      var rest := GeGetSearches(columnNames, column, entries[1..]);
      assert forall x | x in entries :: x == e || x in entries[1..];
      if e.0 in columnNames && e.0 != column && SearchText(e.1) != ""
      then [(e.0, Bare(SearchText(e.1)))] + rest
      else rest
  }

  /** `filters_dict.get('search', {}).get('value')`; a bare string there fails with HTTP 500. */
  function GeGetGlobal(entries: seq<(string, SearchObj)>): (r: Result<Option<string>, int>)
    ensures r.Err? <==> Lookup(entries, GlobalSearchKey).Some? && Lookup(entries, GlobalSearchKey).value.Bare?
    ensures r.Err? ==> r.error == 500
  {
    match Lookup(entries, GlobalSearchKey)
    case None => Ok(None)
    case Some(SearchDict(v, _)) => Ok(v)
    case Some(Bare(_)) => Err(500)
  }

  /** The current GET handler's filters feed only LIKE conditions, never an exact match. */
  lemma GeGetFiltersAreLike(columnNames: seq<string>, column: string, entries: seq<(string, SearchObj)>)
    ensures forall c | c in ColumnClauses(columnNames, GeGetSearches(columnNames, column, entries))
              :: c.ColumnLike? && c.column != column
  {
    BareSearchesAreLike(columnNames, GeGetSearches(columnNames, column, entries), column);
  }

  lemma {:induction false} BareSearchesAreLike(columnNames: seq<string>, searches: seq<(string, SearchObj)>, column: string)
    requires forall e | e in searches :: e.1.Bare? && e.0 != column
    ensures forall c | c in ColumnClauses(columnNames, searches) :: c.ColumnLike? && c.column != column
  {
    if searches != [] {
      var init := searches[..|searches| - 1];
      assert forall e | e in init :: e in searches;
      BareSearchesAreLike(columnNames, init, column);
    }
  }

  /**
   * The older GET handler's `column_searches`: filters on known columns with
   * a truthy value, except the `global_search` entry, kept as sent.
   */
  function LegacyGetSearches(columnNames: seq<string>, entries: seq<(string, SearchObj)>)
    : (r: seq<(string, SearchObj)>)
    ensures forall e | e in r :: e in entries && e.0 in columnNames && SearchTruthy(e.1) && e.0 != LegacyGlobalSearchKey
    ensures forall e | e in entries && e.0 in columnNames && SearchTruthy(e.1) && e.0 != LegacyGlobalSearchKey :: e in r
  {
    if entries == [] then []
    else
      var e := entries[0];
      var rest := LegacyGetSearches(columnNames, entries[1..]);
      assert forall x | x in entries :: x == e || x in entries[1..];
      if e.0 in columnNames && SearchTruthy(e.1) && e.0 != LegacyGlobalSearchKey then [e] + rest else rest
  }

  /**
   * `filters_dict.get('global_search')` as the WHERE builder uses it: a
   * string is the search; an object is truthy and has no `upper()`, so the
   * handler answers HTTP 500.
   */
  function LegacyGetGlobal(entries: seq<(string, SearchObj)>): (r: Result<Option<string>, int>)
    ensures r.Err? <==> Lookup(entries, LegacyGlobalSearchKey).Some? && Lookup(entries, LegacyGlobalSearchKey).value.SearchDict?
    ensures r.Ok? && r.value.Some? ==> (LegacyGlobalSearchKey, Bare(r.value.value)) in entries
  {
    match Lookup(entries, LegacyGlobalSearchKey)
    case None => Ok(None)
    case Some(Bare(t)) => Ok(Some(t))
    case Some(SearchDict(_, _)) => Err(500)
  }

  /** The filter entries of the GET query string, or the 400 of malformed JSON. */
  function FilterEntries(filters: FilterText): Result<seq<(string, SearchObj)>, int>
  {
    match filters
    case NoFilters => Ok([])
    case Malformed => Err(400)
    case Filters(entries) => Ok(entries)
  }

  // ---------------------------------------------------------------------
  // GET handlers
  // ---------------------------------------------------------------------

  /** The statement an endpoint sends, with its bound parameters. */
  datatype Statement = Statement(query: Query, params: map<string, string>)

  /**
   * `get_unique_column_values` of the current module: 400 for an unknown
   * column or malformed filters, 500 when the global search is not an
   * object or the statement fails, otherwise the sorted cleaned values.
   */
  method GeUniqueValuesGet(columnNames: seq<string>, column: string, month: string, filters: FilterText,
                           db: Option<seq<Json>>)
    returns (reply: Result<seq<string>, int>, stmt: Option<Statement>)
    ensures column !in columnNames ==> reply == Err(400) && stmt.None?
    ensures column in columnNames && filters.Malformed? ==> reply == Err(400) && stmt.None?
    ensures stmt.Some? <==> column in columnNames && !filters.Malformed? && GeGetGlobal(FilterEntries(filters).value).Ok?
    ensures stmt.Some? ==>
              var entries := FilterEntries(filters).value;
              var search := GeGetGlobal(entries).value;
              var searches := GeGetSearches(columnNames, column, entries);
              stmt.value == Statement(
                BuildUniqueValuesQuery(TableName, column, WhereSql(WhereClauses(columnNames, month, search, searches))),
                WhereParams(month, search, columnNames, searches))
    ensures reply.Ok? <==> stmt.Some? && db.Some?
    ensures reply.Err? && column in columnNames && !filters.Malformed? ==> reply.error == 500
    ensures reply.Ok? ==> reply.value == SortedDistinct(db.value)
  {
    stmt := None;
    if column !in columnNames {
      reply := Err(400);
      return;
    }
    var entries := FilterEntries(filters);
    if entries.Err? {
      reply := Err(400);
      return;
    }
    var searches := GeGetSearches(columnNames, column, entries.value);
    var search := GeGetGlobal(entries.value);
    if search.Err? {
      reply := Err(500);
      return;
    }
    var whereSql, clauses, params := BuildWhereClause(columnNames, month, search.value, searches);
    stmt := Some(Statement(BuildUniqueValuesQuery(TableName, column, whereSql), params));
    if db.None? {
      reply := Err(500);
    } else {
      var values := DedupValues(db.value);
      reply := Ok(SortStrings(values));
    }
  }

  /**
   * `get_unique_column_values` of the older module: the same checks, the
   * `global_search` key as global search, other filters kept as sent (the
   * target column's own filter included), and the cleaned values in the
   * database's order.
   */
  method LegacyUniqueValuesGet(columnNames: seq<string>, column: string, month: string, filters: FilterText,
                               db: Option<seq<Json>>)
    returns (reply: Result<seq<string>, int>, stmt: Option<Statement>)
    ensures column !in columnNames ==> reply == Err(400) && stmt.None?
    ensures column in columnNames && filters.Malformed? ==> reply == Err(400) && stmt.None?
    ensures stmt.Some? <==> column in columnNames && !filters.Malformed? && LegacyGetGlobal(FilterEntries(filters).value).Ok?
    ensures stmt.Some? ==>
              var entries := FilterEntries(filters).value;
              var search := LegacyGetGlobal(entries).value;
              var searches := LegacyGetSearches(columnNames, entries);
              stmt.value == Statement(
                BuildUniqueValuesQuery(TableName, column, WhereSql(WhereClauses(columnNames, month, search, searches))),
                WhereParams(month, search, columnNames, searches))
    ensures reply.Ok? <==> stmt.Some? && db.Some?
    ensures reply.Err? && column in columnNames && !filters.Malformed? ==> reply.error == 500
    ensures reply.Ok? ==> reply.value == Distinct(db.value)
  {
    stmt := None;
    if column !in columnNames {
      reply := Err(400);
      return;
    }
    var entries := FilterEntries(filters);
    if entries.Err? {
      reply := Err(400);
      return;
    }
    var searches := LegacyGetSearches(columnNames, entries.value);
    var search := LegacyGetGlobal(entries.value);
    if search.Err? {
      reply := Err(500);
      return;
    }
    var whereSql, clauses, params := BuildWhereClause(columnNames, month, search.value, searches);
    stmt := Some(Statement(BuildUniqueValuesQuery(TableName, column, whereSql), params));
    if db.None? {
      reply := Err(500);
    } else {
      reply := DedupOk(db.value);
    }
  }

  method DedupOk(rows: seq<Json>) returns (reply: Result<seq<string>, int>)
    ensures reply == Ok(Distinct(rows))
  {
    var values := DedupValues(rows);
    reply := Ok(values);
  }

  // ---------------------------------------------------------------------
  // POST handlers
  // ---------------------------------------------------------------------

  /** The JSON body of the POST endpoints. */
  datatype UniquePost = UniquePost(
    column: Option<string>,
    monthFilter: string,
    search: Option<string>,
    columns: Option<seq<ColumnRequest>>)

  /**
   * The current POST handler's `column_searches`: for each entry `i` of the
   * request's `columns` that has a table column and a non-empty value, the
   * search object under that column's name, except for the target column.
   */
  function PostSearches(columnNames: seq<string>, columns: seq<ColumnRequest>, target: string, n: nat)
    : seq<(string, SearchObj)>
    requires n <= |columns|
  {
    if n == 0 then []
    else
      var prev := PostSearches(columnNames, columns, target, n - 1);
      var i := n - 1;
      if i < |columnNames| && HasText(columns[i].value) && columnNames[i] != target
      then Put(prev, columnNames[i], SearchDict(columns[i].value, columns[i].regex))
      else prev
  }

  /** The loop that fills `column_searches` in the current POST handler. */
  method CollectPostSearches(columnNames: seq<string>, columns: seq<ColumnRequest>, target: string)
    returns (searches: seq<(string, SearchObj)>)
    ensures searches == PostSearches(columnNames, columns, target, |columns|)
  {
    searches := [];
    var i := 0;
    while i < |columns|
      invariant 0 <= i <= |columns|
      invariant searches == PostSearches(columnNames, columns, target, i)
    {
      if i < |columnNames| && columns[i].value.Some? && columns[i].value.value != "" {
        if columnNames[i] != target {
          searches := Put(searches, columnNames[i], SearchDict(columns[i].value, columns[i].regex));
        }
      }
      i := i + 1;
    }
  }

  /** The target column's own filter never narrows its values, and only table columns are filtered. */
  lemma {:induction false} PostSearchesRule(columnNames: seq<string>, columns: seq<ColumnRequest>, target: string, n: nat)
    requires n <= |columns|
    ensures UniqueKeys(PostSearches(columnNames, columns, target, n))
    ensures forall e | e in PostSearches(columnNames, columns, target, n) :: e.0 != target && e.0 in columnNames
  {
    if n > 0 {
      var prev := PostSearches(columnNames, columns, target, n - 1);
      PostSearchesRule(columnNames, columns, target, n - 1);
      var i := n - 1;
      if i < |columnNames| && HasText(columns[i].value) && columnNames[i] != target {
        var v := SearchDict(columns[i].value, columns[i].regex);
        var r := Put(prev, columnNames[i], v);
        PutKeys(prev, columnNames[i], v);
        PutEntries(prev, columnNames[i], v);
        forall e | e in r ensures e.0 != target && e.0 in columnNames {
          if e !in prev {
            assert e.0 == columnNames[i];
          }
        }
      }
    }
  }

  /** Every table column other than the target with a non-empty value in the request is filtered. */
  lemma {:induction false} PostSearchesCover(columnNames: seq<string>, columns: seq<ColumnRequest>, target: string, n: nat)
    requires n <= |columns|
    ensures forall i | 0 <= i < n && i < |columnNames| && HasText(columns[i].value) && columnNames[i] != target
              :: columnNames[i] in Keys(PostSearches(columnNames, columns, target, n))
  {
    if n > 0 {
      var prev := PostSearches(columnNames, columns, target, n - 1);
      PostSearchesCover(columnNames, columns, target, n - 1);
      var i := n - 1;
      if i < |columnNames| && HasText(columns[i].value) && columnNames[i] != target {
        var v := SearchDict(columns[i].value, columns[i].regex);
        PutKeysGrow(prev, columnNames[i], v);
      }
    }
  }

  /**
   * `post_unique_column_values` of the current module: 400 for a malformed
   * body, a missing or empty `column`, or an unknown column; 500 when the
   * statement fails; otherwise the sorted cleaned values.
   */
  method GeUniqueValuesPost(columnNames: seq<string>, body: Option<UniquePost>, db: Option<seq<Json>>)
    returns (reply: Result<seq<string>, int>, stmt: Option<Statement>)
    ensures stmt.Some? <==> body.Some? && HasText(body.value.column) && body.value.column.value in columnNames
    ensures stmt.None? ==> reply == Err(400)
    ensures stmt.Some? ==>
              var p := body.value;
              var month := Strip(p.monthFilter);
              var searches := if p.columns.Some? && p.columns.value != []
                              then PostSearches(columnNames, p.columns.value, p.column.value, |p.columns.value|)
                              else [];
              stmt.value == Statement(
                BuildUniqueValuesQuery(TableName, p.column.value, WhereSql(WhereClauses(columnNames, month, p.search, searches))),
                WhereParams(month, p.search, columnNames, searches))
    ensures stmt.Some? ==> (reply.Ok? <==> db.Some?) && (reply.Err? ==> reply.error == 500)
    ensures reply.Ok? ==> reply.value == SortedDistinct(db.value)
  {
    stmt := None;
    if body.None? || !HasText(body.value.column) || body.value.column.value !in columnNames {
      reply := Err(400);
      return;
    }
    var p := body.value;
    var target := p.column.value;
    var month := Strip(p.monthFilter);
    var searches: seq<(string, SearchObj)> := [];
    if p.columns.Some? && p.columns.value != [] {
      searches := CollectPostSearches(columnNames, p.columns.value, target);
    }
    var whereSql, clauses, params := BuildWhereClause(columnNames, month, p.search, searches);
    stmt := Some(Statement(BuildUniqueValuesQuery(TableName, target, whereSql), params));
    if db.None? {
      reply := Err(500);
    } else {
      var values := DedupValues(db.value);
      reply := Ok(SortStrings(values));
    }
  }

  /**
   * `post_unique_column_values` of the older module: whatever the body says,
   * the values are those of `RTC`; the column searches index `columns[i]`
   * for every table column, so a non-empty but shorter list fails; every
   * failure, a malformed body included, is HTTP 500.
   */
  method LegacyUniqueValuesPost(columnNames: seq<string>, body: Option<UniquePost>, db: Option<seq<Json>>)
    returns (reply: Result<seq<string>, int>, stmt: Option<Statement>)
    ensures stmt.Some? <==> body.Some? && LegacyColumnSearches(columnNames, body.value.columns, |columnNames|).Some?
    ensures stmt.Some? ==>
              var p := body.value;
              var month := Strip(p.monthFilter);
              var searches := LegacyColumnSearches(columnNames, p.columns, |columnNames|).value;
              stmt.value == Statement(
                BuildUniqueValuesQuery(TableName, RtcColumn, WhereSql(WhereClauses(columnNames, month, p.search, searches))),
                WhereParams(month, p.search, columnNames, searches))
    ensures reply.Ok? <==> stmt.Some? && db.Some?
    ensures reply.Err? ==> reply.error == 500
    ensures reply.Ok? ==> reply.value == Distinct(db.value)
  {
    stmt := None;
    if body.None? {
      reply := Err(500);
      return;
    }
    var p := body.value;
    var month := Strip(p.monthFilter);
    var searches := LegacyColumnSearches(columnNames, p.columns, |columnNames|);
    if searches.None? {
      reply := Err(500);
      return;
    }
    var whereSql, clauses, params := BuildWhereClause(columnNames, month, p.search, searches.value);
    stmt := Some(Statement(BuildUniqueValuesQuery(TableName, RtcColumn, whereSql), params));
    if db.None? {
      reply := Err(500);
    } else {
      reply := DedupOk(db.value);
    }
  }
}
