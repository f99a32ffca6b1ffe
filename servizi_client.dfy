/**
 * The browser side of the older service-order page (static/js/ordini_servizi.js):
 * the active filters read off the DataTables table, the export request built
 * from them, the RTC select with its cache of the last values, and the
 * generic-search trigger.
 *
 * The table is an input (`None` until one is set up); the page's module
 * variable `lastRTCValues` and the RTC select are the fields of
 * `ServiziPage`.
 */
module ServiziClient {
  import opened Base
  import opened Text
  import opened JsArray
  import opened WhereClause
  import GridData
  import UniqueValues

  // ---------------------------------------------------------------------
  // Active filters (`getActiveFilters`)
  // ---------------------------------------------------------------------

  /** A column of the DataTables table: its `data` name, its search text, whether it is shown. */
  datatype DtColumn = DtColumn(data: string, search: string, visible: bool)

  /** The table's global search text and its columns, in order. */
  datatype DataTable = DataTable(search: string, columns: seq<DtColumn>)

  /** A value of the filters object: the global search text, or a column's `{value, regex}`. */
  datatype FilterValue = GlobalText(text: string) | ColumnSearch(value: string, regex: bool)

  const GlobalSearchKey: string := "global_search"

  /** A column search written as `^...$`, which the browser flags as a regular expression. */
  predicate Anchored(v: string)
  {
    StartsWith(v, "^") && EndsWith(v, "$")
  }

  /** The filters object before the column loop: the global search when it is non-empty. */
  function GlobalEntry(t: DataTable): seq<(string, FilterValue)>
  {
    if t.search != "" then [(GlobalSearchKey, GlobalText(t.search))] else []
  }

  /** The filters object after the first `n` columns have been visited. */
  function FiltersAfter(t: DataTable, n: nat): seq<(string, FilterValue)>
    requires n <= |t.columns|
  {
    if n == 0 then GlobalEntry(t)
    else
      var prev := FiltersAfter(t, n - 1);
      var c := t.columns[n - 1];
      if c.search != "" then Put(prev, c.data, ColumnSearch(c.search, Anchored(c.search))) else prev
  }

  /** What `getActiveFilters` returns: `{}` without a table. */
  function ActiveFilters(table: Option<DataTable>): seq<(string, FilterValue)>
  {
    if table.None? then [] else FiltersAfter(table.value, |table.value.columns|)
  }

  /** `getActiveFilters`: the global search, then one entry per column with a search, in column order. */
  method GetActiveFilters(table: Option<DataTable>) returns (filters: seq<(string, FilterValue)>)
    ensures filters == ActiveFilters(table)
  {
    filters := [];
    if table.None? {
      return;
    }
    var t := table.value;
    if t.search != "" {
      filters := Put(filters, GlobalSearchKey, GlobalText(t.search));
    }
    var i := 0;
    while i < |t.columns|
      invariant 0 <= i <= |t.columns|
      invariant filters == FiltersAfter(t, i)
    {
      var c := t.columns[i];
      if c.search != "" {
        filters := Put(filters, c.data, ColumnSearch(c.search, Anchored(c.search)));
      }
      i := i + 1;
    }
  }

  /** The table's column names are distinct and none is the global-search key. */
  predicate DistinctColumns(t: DataTable)
  {
    && (forall i, j | 0 <= i < j < |t.columns| :: t.columns[i].data != t.columns[j].data)
    && (forall i | 0 <= i < |t.columns| :: t.columns[i].data != GlobalSearchKey)
  }

  /**
   * The filters hold the global search exactly when it is non-empty and a
   * column exactly when its search is non-empty; no key occurs twice and
   * no other key appears.
   */
  lemma {:induction false} FiltersAfterRule(t: DataTable, n: nat)
    requires n <= |t.columns| && DistinctColumns(t)
    ensures UniqueKeys(FiltersAfter(t, n))
    ensures GlobalSearchKey in Keys(FiltersAfter(t, n)) <==> t.search != ""
    ensures forall j | 0 <= j < n ::
              (t.columns[j].data in Keys(FiltersAfter(t, n)) <==> t.columns[j].search != "")
    ensures forall k | k in Keys(FiltersAfter(t, n)) ::
              k == GlobalSearchKey || exists j | 0 <= j < n :: t.columns[j].data == k
  {
    if n == 0 {
      assert Keys(GlobalEntry(t)) == if t.search != "" then [GlobalSearchKey] else [];
    } else {
      FiltersAfterRule(t, n - 1);
      var prev := FiltersAfter(t, n - 1);
      var c := t.columns[n - 1];
      if c.search != "" {
        PutKeys(prev, c.data, ColumnSearch(c.search, Anchored(c.search)));
      }
    }
  }

  /**
   * The global search is stored as it is typed, and each searched column
   * as `{value, regex}` with `regex` set exactly when the value is anchored
   * by `^` and `$`.
   */
  lemma {:induction false} FiltersAfterEntries(t: DataTable, n: nat)
    requires n <= |t.columns| && DistinctColumns(t)
    ensures t.search != "" ==> (GlobalSearchKey, GlobalText(t.search)) in FiltersAfter(t, n)
    ensures forall j | 0 <= j < n && t.columns[j].search != "" ::
              (t.columns[j].data, ColumnSearch(t.columns[j].search, Anchored(t.columns[j].search))) in FiltersAfter(t, n)
  {
    if n > 0 {
      FiltersAfterEntries(t, n - 1);
      var prev := FiltersAfter(t, n - 1);
      var c := t.columns[n - 1];
      if c.search != "" {
        PutKeepsOthers(prev, c.data, ColumnSearch(c.search, Anchored(c.search)));
      }
    }
  }

  /** `getActiveFilters` on a table, read as a rule; without a table there are no filters. */
  lemma ActiveFiltersRule(table: Option<DataTable>)
    requires table.Some? ==> DistinctColumns(table.value)
    ensures table.None? ==> ActiveFilters(table) == []
    ensures table.Some? ==>
              var t := table.value;
              var f := ActiveFilters(table);
              && UniqueKeys(f)
              && (GlobalSearchKey in Keys(f) <==> t.search != "")
              && (forall j | 0 <= j < |t.columns| :: t.columns[j].data in Keys(f) <==> t.columns[j].search != "")
              && (forall j | 0 <= j < |t.columns| && t.columns[j].search != "" ::
                    (t.columns[j].data, ColumnSearch(t.columns[j].search, Anchored(t.columns[j].search))) in f)
  {
    if table.Some? {
      FiltersAfterRule(table.value, |table.value.columns|);
      FiltersAfterEntries(table.value, |table.value.columns|);
    }
  }

  // ---------------------------------------------------------------------
  // Export (`handleExport`)
  // ---------------------------------------------------------------------

  /** A value of the export URL's query: plain text, or the JSON of a name list or of filters. */
  datatype QueryValue = Plain(text: string) | JsonNames(names: seq<string>) | JsonFilters(filters: seq<(string, FilterValue)>)

  const TableMissing: string := "Tabella non inizializzata"
  const MonthMissing: string := "Seleziona un mese prima di esportare"

  /** The alert `handleError` shows for a message. */
  function Alert(message: string): string
  {
    "Si è verificato un errore: " + message
  }

  /** The `data` names of the shown columns, in column order. */
  function VisibleColumns(cols: seq<DtColumn>): (r: seq<string>)
    ensures forall x :: x in r <==> exists j | 0 <= j < |cols| :: cols[j].visible && cols[j].data == x
  {
    if cols == [] then []
    else
      var rest := VisibleColumns(cols[..|cols| - 1]);
      var c := cols[|cols| - 1];
      assert forall j | 0 <= j < |cols| - 1 :: cols[..|cols| - 1][j] == cols[j];
      if c.visible then rest + [c.data] else rest
  }

  /** The filters without the global search, in their order. */
  function WithoutGlobal(filters: seq<(string, FilterValue)>): (r: seq<(string, FilterValue)>)
    ensures forall e :: e in r <==> e in filters && e.0 != GlobalSearchKey
  {
    if filters == [] then []
    else
      var rest := WithoutGlobal(filters[..|filters| - 1]);
      var e := filters[|filters| - 1];
      assert filters == filters[..|filters| - 1] + [e];
      if e.0 != GlobalSearchKey then rest + [e] else rest
  }

  /** The text `activeFilters.global_search` stands for, when it is truthy. */
  function GlobalOf(filters: seq<(string, FilterValue)>): Option<string>
  {
    if filters == [] then None
    else if filters[0].0 == GlobalSearchKey then
      match filters[0].1
      case GlobalText(s) => if s != "" then Some(s) else None
      case ColumnSearch(_, _) => Some("[object Object]")
    else GlobalOf(filters[1..])
  }

  /** The query of the export URL for a table and a chosen month. */
  function ExportQuery(t: DataTable, month: string): seq<(string, QueryValue)>
  {
    var active := ActiveFilters(Some(t));
    var global := GlobalOf(active);
    var columnFilters := WithoutGlobal(active);
    [("month", Plain(month)), ("visible_columns", JsonNames(VisibleColumns(t.columns)))]
    + (if global.Some? then [("global_search", Plain(global.value))] else [])
    + (if columnFilters != [] then [("column_filters", JsonFilters(columnFilters))] else [])
  }

  /**
   * `handleExport`: an alert and no navigation without a table or a
   * month; otherwise the query of `/api/servizi/ge/export`.
   */
  method HandleExport(table: Option<DataTable>, month: string) returns (r: Result<seq<(string, QueryValue)>, string>)
    ensures table.None? ==> r == Err(Alert(TableMissing))
    ensures table.Some? && month == "" ==> r == Err(Alert(MonthMissing))
    ensures table.Some? && month != "" ==> r == Ok(ExportQuery(table.value, month))
  {
    if table.None? {
      return Err(Alert(TableMissing));
    }
    if month == "" {
      return Err(Alert(MonthMissing));
    }
    var t := table.value;
    var visible: seq<string> := [];
    var i := 0;
    while i < |t.columns|
      invariant 0 <= i <= |t.columns|
      invariant visible == VisibleColumns(t.columns[..i])
    {
      assert t.columns[..i + 1][..i] == t.columns[..i];
      if t.columns[i].visible {
        visible := visible + [t.columns[i].data];
      }
      i := i + 1;
    }
    assert t.columns[..i] == t.columns;
    var params := [("month", Plain(month)), ("visible_columns", JsonNames(visible))];
    var active := GetActiveFilters(table);
    var global := GlobalOf(active);
    if global.Some? {
      params := params + [("global_search", Plain(global.value))];
    }
    var columnFilters: seq<(string, FilterValue)> := [];
    var k := 0;
    while k < |active|
      invariant 0 <= k <= |active|
      invariant columnFilters == WithoutGlobal(active[..k])
    {
      assert active[..k + 1][..k] == active[..k];
      if active[k].0 != GlobalSearchKey {
        columnFilters := columnFilters + [active[k]];
      }
      k := k + 1;
    }
    assert active[..k] == active;
    if columnFilters != [] {
      params := params + [("column_filters", JsonFilters(columnFilters))];
    }
    assert table == Some(t);
    assert params == [("month", Plain(month)), ("visible_columns", JsonNames(visible))]
                     + (if global.Some? then [("global_search", Plain(global.value))] else [])
                     + (if columnFilters != [] then [("column_filters", JsonFilters(columnFilters))] else []);
    r := Ok(params);
  }

  /** The global search among the filters, when there is one. */
  lemma {:induction false} GlobalOfUnique(filters: seq<(string, FilterValue)>, s: string)
    requires UniqueKeys(filters) && (GlobalSearchKey, GlobalText(s)) in filters && s != ""
    ensures GlobalOf(filters) == Some(s)
  {
    if filters[0].0 != GlobalSearchKey {
      assert (GlobalSearchKey, GlobalText(s)) in filters[1..];
      GlobalOfUnique(filters[1..], s);
    } else {
      var j :| 0 <= j < |filters| && filters[j] == (GlobalSearchKey, GlobalText(s));
      assert j == 0;
    }
  }

  lemma {:induction false} GlobalOfAbsent(filters: seq<(string, FilterValue)>)
    requires GlobalSearchKey !in Keys(filters)
    ensures GlobalOf(filters) == None
  {
    if filters != [] {
      assert filters[0].0 == Keys(filters)[0];
      assert Keys(filters[1..]) == Keys(filters)[1..];
      GlobalOfAbsent(filters[1..]);
    }
  }

  /** Some column of the table has a search. */
  predicate AnySearch(t: DataTable)
  {
    exists j | 0 <= j < |t.columns| :: t.columns[j].search != ""
  }

  /** The entry a searched column contributes to the filters. */
  function ColumnEntry(c: DtColumn): (string, FilterValue)
  {
    (c.data, ColumnSearch(c.search, Anchored(c.search)))
  }

  /** The column filters of an export are exactly the entries of the searched columns. */
  lemma ColumnFiltersMembers(t: DataTable)
    requires DistinctColumns(t)
    ensures forall j | 0 <= j < |t.columns| && t.columns[j].search != "" ::
              ColumnEntry(t.columns[j]) in WithoutGlobal(ActiveFilters(Some(t)))
    ensures forall e | e in WithoutGlobal(ActiveFilters(Some(t))) ::
              exists j | 0 <= j < |t.columns| :: t.columns[j].search != "" && e == ColumnEntry(t.columns[j])
  {
    var active := ActiveFilters(Some(t));
    FiltersAfterRule(t, |t.columns|);
    FiltersAfterEntries(t, |t.columns|);
    var cf := WithoutGlobal(active);
    forall e | e in cf
      ensures exists j | 0 <= j < |t.columns| :: t.columns[j].search != "" && e == ColumnEntry(t.columns[j])
    {
      assert e.0 in Keys(active) by {
        var m :| 0 <= m < |active| && active[m] == e;
        assert Keys(active)[m] == e.0;
      }
      var j :| 0 <= j < |t.columns| && t.columns[j].data == e.0;
      assert t.columns[j].search != "";
      OneEntryPerKey(active, e, ColumnEntry(t.columns[j]));
    }
  }

  /** `activeFilters.global_search` is the table's global search, when it has one. */
  lemma ExportGlobalRule(t: DataTable)
    requires DistinctColumns(t)
    ensures GlobalOf(ActiveFilters(Some(t))) == if t.search != "" then Some(t.search) else None
  {
    FiltersAfterRule(t, |t.columns|);
    FiltersAfterEntries(t, |t.columns|);
    if t.search != "" {
      GlobalOfUnique(ActiveFilters(Some(t)), t.search);
    } else {
      GlobalOfAbsent(ActiveFilters(Some(t)));
    }
  }

  /** There are column filters to export exactly when some column has a search. */
  lemma ExportColumnFiltersRule(t: DataTable)
    requires DistinctColumns(t)
    ensures WithoutGlobal(ActiveFilters(Some(t))) != [] <==> AnySearch(t)
  {
    ColumnFiltersMembers(t);
    var cf := WithoutGlobal(ActiveFilters(Some(t)));
    if AnySearch(t) {
      var j :| 0 <= j < |t.columns| && t.columns[j].search != "";
      assert ColumnEntry(t.columns[j]) in cf;
    }
    if cf != [] {
      assert cf[0] in cf;
      var j :| 0 <= j < |t.columns| && t.columns[j].search != "" && cf[0] == ColumnEntry(t.columns[j]);
    }
  }

  /**
   * The export query: the month and the shown columns always; then the
   * global search exactly when the table has one; then the column filters
   * exactly when some column has a search.
   */
  lemma ExportQueryRule(t: DataTable, month: string)
    requires DistinctColumns(t)
    ensures ExportQuery(t, month) ==
              [("month", Plain(month)), ("visible_columns", JsonNames(VisibleColumns(t.columns)))]
              + (if t.search != "" then [("global_search", Plain(t.search))] else [])
              + (if AnySearch(t) then [("column_filters", JsonFilters(WithoutGlobal(ActiveFilters(Some(t)))))] else [])
  {
    ExportGlobalRule(t);
    ExportColumnFiltersRule(t);
  }

  /** Two entries with the same key in a dictionary are the same entry. */
  lemma OneEntryPerKey<V>(d: seq<(string, V)>, a: (string, V), b: (string, V))
    requires UniqueKeys(d) && a in d && b in d && a.0 == b.0
    ensures a == b
  {
  }

  /** What the export endpoint reads out of `column_filters`: each `{value, regex}` as a search object. */
  function ServerFilters(filters: seq<(string, FilterValue)>): (r: seq<(string, SearchObj)>)
    ensures |r| == |filters|
    ensures forall i | 0 <= i < |filters| :: r[i].0 == filters[i].0
  {
    seq(|filters|, i requires 0 <= i < |filters| =>
      (filters[i].0, match filters[i].1
                     case ColumnSearch(v, re) => SearchDict(Some(v), re)
                     case GlobalText(s) => Bare(s)))
  }

  /**
   * Every column filter the browser exports on one of the table's columns
   * reaches the server's WHERE clause, as an equality exactly when the value
   * is written `^...$` and as a LIKE otherwise.
   */
  lemma ExportedFilterReachesServer(columnNames: seq<string>, t: DataTable, j: nat)
    requires DistinctColumns(t) && j < |t.columns|
    requires t.columns[j].search != "" && t.columns[j].data in columnNames
    ensures var served := GridData.ExportSearches(columnNames, GridData.Filters(ServerFilters(WithoutGlobal(ActiveFilters(Some(t))))));
            var c := t.columns[j];
            && (c.data, SearchDict(Some(c.search), Anchored(c.search))) in served
            && var f := ColumnFilter(columnNames, c.data, SearchDict(Some(c.search), Anchored(c.search)));
               f.Some? && (f.value.0 == ColumnEq(c.data) <==> Anchored(c.search))
               && (f.value.0 == ColumnLike(c.data) <==> !Anchored(c.search))
  {
    var c := t.columns[j];
    ColumnFiltersMembers(t);
    var cf := WithoutGlobal(ActiveFilters(Some(t)));
    var e := ColumnEntry(c);
    assert e in cf;
    var m :| 0 <= m < |cf| && cf[m] == e;
    var sf := ServerFilters(cf);
    var obj := SearchDict(Some(c.search), Anchored(c.search));
    assert sf[m] == (c.data, obj);
    assert (c.data, obj) in sf && GridData.SearchTruthy(obj);
    assert GridData.ExportSearches(columnNames, GridData.Filters(sf)) == GridData.KnownTruthy(columnNames, sf);
    AnchoredFilter(columnNames, c.data, c.search);
  }

  /** The server reads a non-empty column value flagged by `Anchored` as an equality, any other as a LIKE. */
  lemma AnchoredFilter(columnNames: seq<string>, column: string, v: string)
    requires v != "" && column in columnNames
    ensures var f := ColumnFilter(columnNames, column, SearchDict(Some(v), Anchored(v)));
            f.Some? && (f.value.0 == ColumnEq(column) <==> Anchored(v))
            && (f.value.0 == ColumnLike(column) <==> !Anchored(v))
  {
    var obj := SearchDict(Some(v), Anchored(v));
    assert SearchText(obj) == v && (IsExactPattern(obj) <==> Anchored(v));
  }

  // ---------------------------------------------------------------------
  // The RTC select (`aggiornaFiltroRTC`) and the generic search
  // ---------------------------------------------------------------------

  /** The body posted to the unique-values endpoint: one empty column search per table column. */
  function RtcPayload(month: string, search: string, table: Option<DataTable>): UniqueValues.UniquePost
  {
    var columns := if table.Some? then seq(|table.value.columns|, _ => GridData.ColumnRequest(Some(""), false)) else [];
    UniqueValues.UniquePost(None, month, Some(search), Some(columns))
  }

  /** The generic search redraws on Enter, or as soon as the input is cleared. */
  predicate SearchFires(key: string, value: string)
  {
    key == "Enter" || value == ""
  }

  class ServiziPage {
    /** `lastRTCValues`: the last list shown, `None` while it is `null`. */
    var lastRtcValues: Option<seq<string>>
    /** The RTC select: its options after the placeholder, whether it is disabled, its value. */
    var rtcOptions: seq<string>
    var rtcDisabled: bool
    var rtcValue: string
    /** Each body posted to the unique-values endpoint. */
    var rtcRequests: seq<UniqueValues.UniquePost>
    /** Each global search the DataTables table has been redrawn with. */
    var searchDraws: seq<string>

    /** The select lists the last values, and is enabled exactly when there is one. */
    predicate ShowsLast()
      reads this
    {
      lastRtcValues.Some? ==> rtcOptions == lastRtcValues.value && (rtcDisabled <==> lastRtcValues.value == [])
    }

    constructor ()
      ensures lastRtcValues.None? && rtcOptions == [] && rtcDisabled && rtcValue == ""
      ensures rtcRequests == [] && searchDraws == []
      ensures ShowsLast()
    {
      lastRtcValues := None;
      rtcOptions := [];
      rtcDisabled := true;
      rtcValue := "";
      rtcRequests := [];
      searchDraws := [];
    }

    /** Appends each value as an option, in order. */
    method AddOptions(values: seq<string>)
      modifies this`rtcOptions
      ensures rtcOptions == old(rtcOptions) + values
    {
      var k := 0;
      while k < |values|
        invariant 0 <= k <= |values|
        invariant rtcOptions == old(rtcOptions) + values[..k]
      {
        rtcOptions := rtcOptions + [values[k]];
        k := k + 1;
      }
      assert values[..k] == values;
    }

    /**
     * `aggiornaFiltroRTC` as written: the select is emptied and disabled
     * before the new values are compared with the last ones, so when they
     * are unchanged it stays empty and disabled. `reply` is `None` when the
     * request fails or its body is not a list.
     */
    method AggiornaFiltroRtcAsWritten(month: string, search: string, table: Option<DataTable>, reply: Option<seq<string>>)
      modifies this`lastRtcValues, this`rtcOptions, this`rtcDisabled, this`rtcValue, this`rtcRequests
      ensures rtcValue == ""
      ensures month == "" || reply.None? ==> rtcOptions == [] && rtcDisabled && lastRtcValues == old(lastRtcValues)
      ensures month == "" ==> rtcRequests == old(rtcRequests)
      ensures month != "" ==> rtcRequests == old(rtcRequests) + [RtcPayload(month, search, table)]
      ensures month != "" && reply.Some? && old(lastRtcValues) == Some(Dedup(reply.value)) ==>
                rtcOptions == [] && rtcDisabled && rtcValue == "" && lastRtcValues == old(lastRtcValues)
      ensures month != "" && reply.Some? && old(lastRtcValues) != Some(Dedup(reply.value)) ==>
                && lastRtcValues == Some(Dedup(reply.value))
                && rtcOptions == Dedup(reply.value) && (rtcDisabled <==> reply.value == [])
    {
      rtcDisabled := true;
      rtcOptions := [];
      rtcValue := "";
      if month == "" {
        return;
      }
      rtcRequests := rtcRequests + [RtcPayload(month, search, table)];
      if reply.None? {
        return;
      }
      var values := Dedup(reply.value);
      if Some(values) == lastRtcValues {
        return;
      }
      lastRtcValues := Some(values);
      DedupEmpty(reply.value);
      if |values| > 0 {
        AddOptions(values);
        rtcDisabled := false;
      } else {
        rtcValue := "";
      }
    }

    /**
     * `aggiornaFiltroRTC` with the comparison made before the select is
     * touched: unchanged values leave the select, and the value chosen in
     * it, as they are; otherwise it is rebuilt from the new values. A reset
     * that lists nothing forgets the last values.
     */
    method AggiornaFiltroRtc(month: string, search: string, table: Option<DataTable>, reply: Option<seq<string>>)
      requires ShowsLast()
      modifies this`lastRtcValues, this`rtcOptions, this`rtcDisabled, this`rtcValue, this`rtcRequests
      ensures ShowsLast()
      ensures month == "" || reply.None? ==> rtcOptions == [] && rtcDisabled && rtcValue == "" && lastRtcValues.None?
      ensures month != "" ==> rtcRequests == old(rtcRequests) + [RtcPayload(month, search, table)]
      ensures month != "" && reply.Some? ==>
                rtcOptions == Dedup(reply.value) && (rtcDisabled <==> reply.value == [])
      ensures month != "" && reply.Some? && old(lastRtcValues) == Some(Dedup(reply.value)) ==>
                rtcValue == old(rtcValue)
    {
      if month == "" {
        Reset();
        return;
      }
      rtcRequests := rtcRequests + [RtcPayload(month, search, table)];
      if reply.None? {
        Reset();
        return;
      }
      var values := Dedup(reply.value);
      DedupEmpty(reply.value);
      if Some(values) == lastRtcValues {
        return;
      }
      Reset();
      lastRtcValues := Some(values);
      if |values| > 0 {
        AddOptions(values);
        rtcDisabled := false;
      }
    }

    /** The select back to its placeholder, disabled, with no last values. */
    method Reset()
      modifies this`lastRtcValues, this`rtcOptions, this`rtcDisabled, this`rtcValue
      ensures rtcOptions == [] && rtcDisabled && rtcValue == "" && lastRtcValues.None?
    {
      rtcDisabled := true;
      rtcOptions := [];
      rtcValue := "";
      lastRtcValues := None;
    }

    /**
     * `keyup` on the generic search: on Enter or an emptied input, and once
     * the DataTables table exists, the table is searched for the input and
     * the RTC select refreshed with it, by `aggiornaFiltroRTC` as written.
     */
    method OnGenericSearchKeyUp(key: string, value: string, tableReady: bool, month: string,
                                table: Option<DataTable>, reply: Option<seq<string>>)
      modifies this
      ensures !(SearchFires(key, value) && tableReady) ==>
                && searchDraws == old(searchDraws) && rtcRequests == old(rtcRequests)
                && rtcOptions == old(rtcOptions) && rtcDisabled == old(rtcDisabled) && rtcValue == old(rtcValue)
                && lastRtcValues == old(lastRtcValues)
      ensures SearchFires(key, value) && tableReady ==> searchDraws == old(searchDraws) + [value] && rtcValue == ""
      ensures SearchFires(key, value) && tableReady && month == "" ==>
                rtcRequests == old(rtcRequests) && rtcOptions == [] && rtcDisabled && lastRtcValues == old(lastRtcValues)
      ensures SearchFires(key, value) && tableReady && month != "" ==>
                rtcRequests == old(rtcRequests) + [RtcPayload(month, value, table)]
      ensures SearchFires(key, value) && tableReady && month != "" && reply.None? ==>
                rtcOptions == [] && rtcDisabled && lastRtcValues == old(lastRtcValues)
      ensures SearchFires(key, value) && tableReady && month != "" && reply.Some? &&
              old(lastRtcValues) == Some(Dedup(reply.value)) ==>
                rtcOptions == [] && rtcDisabled && rtcValue == "" && lastRtcValues == old(lastRtcValues)
      ensures SearchFires(key, value) && tableReady && month != "" && reply.Some? &&
              old(lastRtcValues) != Some(Dedup(reply.value)) ==>
                && lastRtcValues == Some(Dedup(reply.value))
                && rtcOptions == Dedup(reply.value) && (rtcDisabled <==> reply.value == [])
    {
      if SearchFires(key, value) && tableReady {
        searchDraws := searchDraws + [value];
        AggiornaFiltroRtcAsWritten(month, value, table, reply);
      }
    }
  }

  /** The set of a list is empty exactly when the list is. */
  lemma DedupEmpty(xs: seq<string>)
    ensures Dedup(xs) == [] <==> xs == []
  {
    if xs != [] {
      assert xs[0] in Dedup(xs);
    }
  }

  /**
   * Two refreshes in a row with the same month and the same values, as
   * written: the first lists `ROSSI`, the second leaves the select empty
   * and disabled.
   */
  method SecondRefreshEmptiesSelect() returns (page: ServiziPage)
    ensures page.rtcOptions == [] && page.rtcDisabled
    ensures page.lastRtcValues == Some(["ROSSI"])
  {
    page := new ServiziPage();
    assert Dedup(["ROSSI"]) == ["ROSSI"] by {
      assert NoRepeats(["ROSSI"]);
      DedupOfNoRepeats(["ROSSI"]);
    }
    page.AggiornaFiltroRtcAsWritten("GENNAIO", "", None, Some(["ROSSI"]));
    assert page.rtcOptions == ["ROSSI"];
    page.AggiornaFiltroRtcAsWritten("GENNAIO", "", None, Some(["ROSSI"]));
  }

  /** The same two refreshes with the comparison made first: the select still lists `ROSSI`, enabled. */
  method SecondRefreshKeepsSelect() returns (page: ServiziPage)
    ensures page.rtcOptions == ["ROSSI"] && !page.rtcDisabled
  {
    page := new ServiziPage();
    assert Dedup(["ROSSI"]) == ["ROSSI"] by {
      assert NoRepeats(["ROSSI"]);
      DedupOfNoRepeats(["ROSSI"]);
    }
    page.AggiornaFiltroRtc("GENNAIO", "", None, Some(["ROSSI"]));
    page.AggiornaFiltroRtc("GENNAIO", "", None, Some(["ROSSI"]));
  }
}
