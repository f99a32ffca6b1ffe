/**
 * `DataManager.get_filtered_data` and `get_export_data` of the service-order
 * grids, in the current version (ordini_servizi_ge.py) and the older one
 * (ordini_servizi.py), plus the fixed list of presentation months.
 *
 * The database is an input: what `COUNT(*)` and the data statement answer is
 * a `DbReply`, and a statement that raises is `None`. The handlers are
 * modelled by the statements they prepare (a `DataPlan`) and the JSON body
 * they return (a `GridResponse`).
 */
module GridData {
  import opened Base
  import opened Text
  import opened WhereClause
  import opened QueryBuilder

  /** A result row, `dict(row._mapping)`: column name to cell value. */
  type Row = map<string, Json>

  /** The `search` object of one `columns[i]` entry (a missing object reads as no value). */
  datatype ColumnRequest = ColumnRequest(value: Option<string>, regex: bool)

  /** One `order[k]` entry: column index and direction, each possibly missing. */
  datatype OrderRequest = OrderRequest(column: Option<Json>, dir: Option<string>)

  /** The DataTables request body; `None` is a missing key, a missing text key reads as `''`. */
  datatype GridRequest = GridRequest(
    draw: Option<Json>,
    start: Option<Json>,
    length: Option<Json>,
    search: Option<string>,
    order: Option<seq<OrderRequest>>,
    monthFilter: string,
    rtcFilter: string,
    columns: Option<seq<ColumnRequest>>)

  datatype GridError =
    | NoColumns   // "Impossibile recuperare i nomi delle colonne."
    | Internal    // "Errore Interno del Server: ..." (any exception)

  /** The JSON body; a count of `None` is serialised as `null`. */
  datatype GridResponse = GridResponse(
    draw: Json,
    recordsTotal: Option<int>,
    recordsFiltered: Option<int>,
    data: seq<Row>,
    error: Option<GridError>)

  /** What the database answers: the two counts (`scalar()`, possibly `None`) and the page rows. */
  datatype DbReply = DbReply(total: Option<int>, filtered: Option<int>, rows: seq<Row>)

  /** A bound statement parameter. */
  datatype ParamValue = PText(s: string) | PInt(i: int)

  /** The statements the handler prepares once the request is understood. */
  datatype DataPlan = DataPlan(
    searches: seq<(string, SearchObj)>,
    whereSql: string,
    whereParams: map<string, string>,
    count: Query,
    data: Query,
    finalParams: map<string, ParamValue>)

  const LimitParam: string := "limit"
  const OffsetParam: string := "offset"
  /** The column the RTC filter applies to. */
  const RtcColumn: string := "RTC"
  /** The order column of the older handler when the index is past the end. */
  const FallbackOrderColumn: string := "ID"

  // ---------------------------------------------------------------------
  // Reading the request
  // ---------------------------------------------------------------------

  /** A JSON scalar used directly as a list index and compared with `<` (`None` when that raises). */
  function PyIndexValue(v: Json): Option<int>
  {
    match v
    case JBool(b) => Some(if b then 1 else 0)
    case JInt(i) => Some(i)
    case _ => None
  }

  /** Python's `xs[k]`: negative indices count from the end; `None` is an `IndexError`. */
  function PyIndex<T>(xs: seq<T>, k: int): (r: Option<T>)
    ensures r.Some? <==> -|xs| <= k < |xs|
    ensures 0 <= k < |xs| ==> r == Some(xs[k])
    ensures -|xs| <= k < 0 ==> r == Some(xs[|xs| + k])
  {
    if 0 <= k < |xs| then Some(xs[k])
    else if -|xs| <= k < 0 then Some(xs[|xs| + k])
    else None
  }

  function Draw(req: GridRequest): Json
  {
    req.draw.GetOr(JInt(1))
  }

  /** `params.get('order', [{}])[0]`; `None` when the list is empty. */
  function FirstOrder(req: GridRequest): Option<OrderRequest>
  {
    var orders := req.order.GetOr([OrderRequest(None, None)]);
    if orders == [] then None else Some(orders[0])
  }

  function OrderDir(o: OrderRequest): string
  {
    o.dir.GetOr("asc")
  }

  /** Python truthiness of an optional text. */
  predicate HasText(v: Option<string>)
  {
    v.Some? && v.value != ""
  }

  /**
   * `column_searches` of the current handler: for each table column `i`, the
   * `search` object of `columns[i]` when the request has that entry and its
   * value is non-empty.
   */
  function GeColumnSearches(columnNames: seq<string>, columns: Option<seq<ColumnRequest>>, n: nat)
    : (searches: seq<(string, SearchObj)>)
    requires n <= |columnNames|
  {
    if n == 0 then []
    else
      var prev := GeColumnSearches(columnNames, columns, n - 1);
      var i := n - 1;
      if columns.Some? && columns.value != [] && i < |columns.value| && HasText(columns.value[i].value)
      then Put(prev, columnNames[i], SearchDict(columns.value[i].value, columns.value[i].regex))
      else prev
  }

  /**
   * `column_searches` of the older handler, which indexes `columns[i]` for
   * every table column without checking the request's length: `None` is
   * the `IndexError` of a non-empty but shorter `columns` list.
   */
  function LegacyColumnSearches(columnNames: seq<string>, columns: Option<seq<ColumnRequest>>, n: nat)
    : Option<seq<(string, SearchObj)>>
    requires n <= |columnNames|
  {
    if n == 0 then Some([])
    else
      var prev := LegacyColumnSearches(columnNames, columns, n - 1);
      var i := n - 1;
      if prev.None? then None
      else if columns.None? || columns.value == [] then prev
      else if i >= |columns.value| then None
      else if HasText(columns.value[i].value)
      then Some(Put(prev.value, columnNames[i], SearchDict(columns.value[i].value, columns.value[i].regex)))
      else prev
  }

  /**
   * A non-empty RTC filter sets the `RTC` entry to `{value: rtc, regex: true}`.
   * The WHERE builder reads that as an equality only for an anchored `^x$`
   * value; any other value is a `LIKE %RTC%` search (RtcFilterClause).
   */
  function WithRtc(searches: seq<(string, SearchObj)>, rtc: string): seq<(string, SearchObj)>
  {
    if rtc == "" then searches else Put(searches, RtcColumn, SearchDict(Some(rtc), true))
  }

  /** The where-parameters as bound parameters. */
  function TextParams(ps: map<string, string>): (r: map<string, ParamValue>)
    ensures r.Keys == ps.Keys && forall k | k in ps :: r[k] == PText(ps[k])
  {
    map k | k in ps :: PText(ps[k])
  }

  // ---------------------------------------------------------------------
  // Current handler (ordini_servizi_ge.py)
  // ---------------------------------------------------------------------

  function GeStart(req: GridRequest): Option<int> { PyInt(req.start.GetOr(JInt(0))) }
  function GeLength(req: GridRequest): Option<int> { PyInt(req.length.GetOr(JInt(10))) }

  function GeOrderIndex(req: GridRequest): Option<int>
  {
    match FirstOrder(req)
    case None => None
    case Some(o) => PyInt(o.column.GetOr(JInt(0)))
  }

  /** Every value read before the column list is consulted converts without raising. */
  predicate GeParses(req: GridRequest)
  {
    GeStart(req).Some? && GeLength(req).Some? && GeOrderIndex(req).Some?
  }

  /**
   * The order column of the current handler: the column at the index, or
   * the first column when the index is past the end. A negative index counts
   * from the end, and one below `-len` raises.
   */
  function GeOrderColumn(columnNames: seq<string>, k: int): (r: Option<string>)
    requires columnNames != []
    ensures k >= |columnNames| ==> r == Some(columnNames[0])
    ensures 0 <= k < |columnNames| ==> r == Some(columnNames[k])
    ensures -|columnNames| <= k < 0 ==> r == Some(columnNames[|columnNames| + k])
    ensures r.None? <==> k < -|columnNames|
  {
    if k < |columnNames| then PyIndex(columnNames, k) else Some(columnNames[0])
  }

  /** The request gets past every check and a data statement is prepared. */
  predicate GeReady(columnNames: seq<string>, req: GridRequest)
  {
    GeParses(req) && columnNames != [] && GeOrderColumn(columnNames, GeOrderIndex(req).value).Some?
  }

  function ErrorResponse(draw: Json, e: GridError): (r: GridResponse)
    ensures r.error == Some(e) && r.data == [] && r.recordsTotal == Some(0) && r.recordsFiltered == Some(0)
  {
    GridResponse(draw, Some(0), Some(0), [], Some(e))
  }

  /**
   * What the prepared statements are for one set of filters: the WHERE text
   * and parameters of `build_where_clause`, a count over it, and a data
   * statement ordered by `orderColumn` that carries LIMIT/OFFSET, with their
   * two parameters, exactly when `length` is not -1.
   */
  ghost predicate PlanFor(p: DataPlan, columnNames: seq<string>, month: string, search: Option<string>,
                          searches: seq<(string, SearchObj)>, orderColumn: string, orderDir: string,
                          length: int, start: int)
  {
    && p.searches == searches
    && p.whereParams == WhereParams(month, search, columnNames, searches)
    && p.whereSql == WhereSql(WhereClauses(columnNames, month, search, searches))
    && p.count == BuildCountQuery(TableName, p.whereSql)
    && p.data.Data? && p.data.whereSql == p.whereSql
    && p.data.orderColumn == orderColumn && p.data.orderDir == orderDir
    && (p.data.paged <==> length != NoLimit)
    && (LimitParam in p.finalParams <==> length != NoLimit)
    && (OffsetParam in p.finalParams <==> length != NoLimit)
    && (length != NoLimit ==>
          p.finalParams[LimitParam] == PInt(length) && p.finalParams[OffsetParam] == PInt(start))
    && (length == NoLimit ==> p.finalParams == TextParams(p.whereParams))
    && (forall k | k in p.whereParams :: k in p.finalParams && p.finalParams[k] == PText(p.whereParams[k]))
  }

  /** The part of `get_filtered_data` from `build_where_clause` to `final_params`. */
  method PrepareStatements(columnNames: seq<string>, month: string, search: Option<string>,
                           searches: seq<(string, SearchObj)>, orderColumn: string, orderDir: string,
                           length: int, start: int)
    returns (p: DataPlan)
    ensures PlanFor(p, columnNames, month, search, searches, orderColumn, orderDir, length, start)
  {
    var whereSql, clauses, params := BuildWhereClause(columnNames, month, search, searches);
    var count := BuildCountQuery(TableName, whereSql);
    var data := BuildDataQuery(TableName, whereSql, orderColumn, orderDir, length, start);
    PagingParamsFresh(month, search, columnNames, searches);
    var finalParams := TextParams(params);
    if length != NoLimit {
      finalParams := finalParams[LimitParam := PInt(length)];
      finalParams := finalParams[OffsetParam := PInt(start)];
    }
    p := DataPlan(searches, whereSql, params, count, data, finalParams);
  }

  /**
   * The statements the current handler prepares: the trimmed month, the
   * global search, the column filters with the RTC entry, the order column
   * and direction, and the page the request asks for.
   */
  ghost predicate GePlanned(p: DataPlan, columnNames: seq<string>, req: GridRequest)
    requires GeReady(columnNames, req)
  {
    PlanFor(p, columnNames, Strip(req.monthFilter), req.search,
            WithRtc(GeColumnSearches(columnNames, req.columns, |columnNames|), Strip(req.rtcFilter)),
            GeOrderColumn(columnNames, GeOrderIndex(req).value).value, OrderDir(FirstOrder(req).value),
            GeLength(req).value, GeStart(req).value)
  }

  /** `DataManager.get_filtered_data` of ordini_servizi_ge.py. */
  method GetFilteredDataGe(columnNames: seq<string>, req: GridRequest, db: Option<DbReply>)
    returns (resp: GridResponse, plan: Option<DataPlan>)
    ensures resp.draw == Draw(req)
    ensures resp.error.Some? ==>
              resp.recordsTotal == Some(0) && resp.recordsFiltered == Some(0) && resp.data == []
    ensures resp.error == Some(NoColumns) <==> GeParses(req) && columnNames == []
    ensures resp.error.None? <==> GeReady(columnNames, req) && db.Some?
    ensures resp.error.None? ==>
              && resp.data == db.value.rows
              && resp.recordsTotal == Some(db.value.total.GetOr(0))
              && resp.recordsFiltered == Some(db.value.filtered.GetOr(0))
    ensures plan.Some? <==> GeReady(columnNames, req)
    ensures plan.Some? ==> GePlanned(plan.value, columnNames, req)
  {
    var draw := Draw(req);
    var start := GeStart(req);
    var length := GeLength(req);
    var order := FirstOrder(req);
    if start.None? || length.None? || order.None? {
      return ErrorResponse(draw, Internal), None;
    }
    var index := PyInt(order.value.column.GetOr(JInt(0)));
    if index.None? {
      return ErrorResponse(draw, Internal), None;
    }
    var dir := OrderDir(order.value);
    var month := Strip(req.monthFilter);
    var rtc := Strip(req.rtcFilter);
    if columnNames == [] {
      return ErrorResponse(draw, NoColumns), None;
    }
    var orderColumn := GeOrderColumn(columnNames, index.value);
    if orderColumn.None? {
      return ErrorResponse(draw, Internal), None;
    }
    var searches := WithRtc(GeColumnSearches(columnNames, req.columns, |columnNames|), rtc);
    var p := PrepareStatements(columnNames, month, req.search, searches, orderColumn.value, dir,
                               length.value, start.value);
    plan := Some(p);
    resp := if db.None? then ErrorResponse(draw, Internal)
            else GridResponse(draw, Some(db.value.total.GetOr(0)), Some(db.value.filtered.GetOr(0)),
                              db.value.rows, None);
  }

  // ---------------------------------------------------------------------
  // Older handler (ordini_servizi.py)
  // ---------------------------------------------------------------------

  /** The older handler reads the order index as given, without `int()`. */
  function LegacyOrderIndex(req: GridRequest): Option<int>
  {
    match FirstOrder(req)
    case None => None
    case Some(o) => PyIndexValue(o.column.GetOr(JInt(0)))
  }

  /**
   * The order column of the older handler: the column at the index, or the
   * literal `ID` when the index is past the end (also for an empty column list).
   */
  function LegacyOrderColumn(columnNames: seq<string>, k: int): (r: Option<string>)
    ensures k >= |columnNames| ==> r == Some(FallbackOrderColumn)
    ensures 0 <= k < |columnNames| ==> r == Some(columnNames[k])
    ensures r.None? <==> k < -|columnNames|
  {
    if k < |columnNames| then PyIndex(columnNames, k) else Some(FallbackOrderColumn)
  }

  predicate LegacyReady(columnNames: seq<string>, req: GridRequest)
  {
    && LegacyOrderIndex(req).Some?
    && LegacyOrderColumn(columnNames, LegacyOrderIndex(req).value).Some?
    && LegacyColumnSearches(columnNames, req.columns, |columnNames|).Some?
  }

  /** The statements the older handler prepares: the same filters, never a page. */
  ghost predicate LegacyPlanned(p: DataPlan, columnNames: seq<string>, req: GridRequest)
    requires LegacyReady(columnNames, req)
  {
    PlanFor(p, columnNames, Strip(req.monthFilter), req.search,
            WithRtc(LegacyColumnSearches(columnNames, req.columns, |columnNames|).value, Strip(req.rtcFilter)),
            LegacyOrderColumn(columnNames, LegacyOrderIndex(req).value).value,
            OrderDir(FirstOrder(req).value), NoLimit, 0)
  }

  /** `DataManager.get_filtered_data` of ordini_servizi.py: every row, never a page. */
  method GetFilteredDataLegacy(columnNames: seq<string>, req: GridRequest, db: Option<DbReply>)
    returns (resp: GridResponse, plan: Option<DataPlan>)
    ensures resp.draw == Draw(req)
    ensures resp.error.Some? ==>
              resp.error == Some(Internal) && resp.recordsTotal == Some(0) && resp.recordsFiltered == Some(0)
              && resp.data == []
    ensures resp.error.None? <==> LegacyReady(columnNames, req) && db.Some?
    ensures resp.error.None? ==>
              && resp.data == db.value.rows
              && resp.recordsTotal == db.value.total
              && resp.recordsFiltered == db.value.filtered
    ensures plan.Some? <==> LegacyReady(columnNames, req)
    ensures plan.Some? ==>
              && LegacyPlanned(plan.value, columnNames, req)
              && !plan.value.data.paged
              && LimitParam !in plan.value.finalParams && OffsetParam !in plan.value.finalParams
  {
    var draw := Draw(req);
    var length := NoLimit;
    var start := 0;
    var order := FirstOrder(req);
    if order.None? {
      return ErrorResponse(draw, Internal), None;
    }
    var index := PyIndexValue(order.value.column.GetOr(JInt(0)));
    if index.None? {
      return ErrorResponse(draw, Internal), None;
    }
    var dir := OrderDir(order.value);
    var month := Strip(req.monthFilter);
    var rtc := Strip(req.rtcFilter);
    var orderColumn := LegacyOrderColumn(columnNames, index.value);
    if orderColumn.None? {
      return ErrorResponse(draw, Internal), None;
    }
    var columnSearches := LegacyColumnSearches(columnNames, req.columns, |columnNames|);
    if columnSearches.None? {
      return ErrorResponse(draw, Internal), None;
    }
    var searches := WithRtc(columnSearches.value, rtc);
    var p := PrepareStatements(columnNames, month, req.search, searches, orderColumn.value, dir, length, start);
    plan := Some(p);
    resp := if db.None? then ErrorResponse(draw, Internal)
            else GridResponse(draw, db.value.total, db.value.filtered, db.value.rows, None);
  }

  // ---------------------------------------------------------------------
  // What the two handlers promise
  // ---------------------------------------------------------------------

  /** No where-parameter is called `limit` or `offset`. */
  lemma PagingParamsFresh(month: string, search: Option<string>, columnNames: seq<string>,
                          searches: seq<(string, SearchObj)>)
    ensures LimitParam !in WhereParams(month, search, columnNames, searches)
    ensures OffsetParam !in WhereParams(month, search, columnNames, searches)
  {
    ColumnParamsKeys(columnNames, searches);
    forall i | 0 <= i < |searches|
      ensures ColumnParam(searches[i].0) != LimitParam && ColumnParam(searches[i].0) != OffsetParam
    {
      assert ColumnParam(searches[i].0)[0] == 'c';
    }
  }

  /** Every column filter the current handler derives comes from a request entry with a value. */
  lemma {:induction false} GeColumnSearchesSound(columnNames: seq<string>, columns: Option<seq<ColumnRequest>>,
                                                 n: nat)
    requires n <= |columnNames|
    ensures forall e | e in GeColumnSearches(columnNames, columns, n) ::
              exists i | 0 <= i < n :: && columns.Some? && i < |columns.value|
                                       && e == (columnNames[i], SearchDict(columns.value[i].value, columns.value[i].regex))
                                       && HasText(columns.value[i].value)
    ensures UniqueKeys(GeColumnSearches(columnNames, columns, n))
  {
    if n > 0 {
      var prev := GeColumnSearches(columnNames, columns, n - 1);
      GeColumnSearchesSound(columnNames, columns, n - 1);
      var i := n - 1;
      if columns.Some? && columns.value != [] && i < |columns.value| && HasText(columns.value[i].value) {
        var v := SearchDict(columns.value[i].value, columns.value[i].regex);
        PutKeys(prev, columnNames[i], v);
        forall e | e in Put(prev, columnNames[i], v)
          ensures exists j | 0 <= j < n :: && columns.Some? && j < |columns.value|
                                           && e == (columnNames[j], SearchDict(columns.value[j].value, columns.value[j].regex))
                                           && HasText(columns.value[j].value)
        {
          var r := Put(prev, columnNames[i], v);
          var m :| 0 <= m < |r| && r[m] == e;
          if m < |prev| && prev[m].0 != columnNames[i] {
            assert e in prev;
          }
        }
      }
    }
  }

  /** The table's column names, which a table never repeats. */
  predicate DistinctNames(columnNames: seq<string>)
  {
    forall a, b | 0 <= a < b < |columnNames| :: columnNames[a] != columnNames[b]
  }

  /**
   * The other direction: every table column among the first `n` whose
   * request entry exists and has text is collected, with that entry's
   * search object.
   */
  lemma {:induction false} GeColumnSearchesComplete(columnNames: seq<string>, columns: Option<seq<ColumnRequest>>,
                                                    n: nat)
    requires n <= |columnNames| && DistinctNames(columnNames)
    ensures forall i | 0 <= i < n && columns.Some? && i < |columns.value| && HasText(columns.value[i].value) ::
              (columnNames[i], SearchDict(columns.value[i].value, columns.value[i].regex))
                in GeColumnSearches(columnNames, columns, n)
  {
    if n > 0 {
      var prev := GeColumnSearches(columnNames, columns, n - 1);
      GeColumnSearchesComplete(columnNames, columns, n - 1);
      var i := n - 1;
      if columns.Some? && columns.value != [] && i < |columns.value| && HasText(columns.value[i].value) {
        PutKeepsOthers(prev, columnNames[i], SearchDict(columns.value[i].value, columns.value[i].regex));
      }
    }
  }

  /**
   * The older handler's `column_searches`: it raises exactly when the
   * request has a non-empty `columns` list shorter than the table, and
   * otherwise collects exactly the table columns whose request entry has
   * text, under unique keys.
   */
  lemma {:induction false} LegacyColumnSearchesRule(columnNames: seq<string>, columns: Option<seq<ColumnRequest>>,
                                                    n: nat)
    requires n <= |columnNames|
    ensures var r := LegacyColumnSearches(columnNames, columns, n);
            r.None? <==> columns.Some? && columns.value != [] && |columns.value| < n
    ensures var r := LegacyColumnSearches(columnNames, columns, n);
            r.Some? ==> r.value == GeColumnSearches(columnNames, columns, n)
  {
    if n > 0 {
      LegacyColumnSearchesRule(columnNames, columns, n - 1);
    }
  }

  /** Both directions for the older handler, through the current one's lemmas. */
  lemma LegacyColumnSearchesSoundComplete(columnNames: seq<string>, columns: Option<seq<ColumnRequest>>)
    requires DistinctNames(columnNames)
    ensures var r := LegacyColumnSearches(columnNames, columns, |columnNames|);
            r.Some? ==>
              && UniqueKeys(r.value)
              && (forall e | e in r.value ::
                    exists i | 0 <= i < |columnNames| :: && columns.Some? && i < |columns.value|
                      && e == (columnNames[i], SearchDict(columns.value[i].value, columns.value[i].regex))
                      && HasText(columns.value[i].value))
              && (forall i | 0 <= i < |columnNames| && columns.Some? && i < |columns.value|
                                                   && HasText(columns.value[i].value) ::
                    (columnNames[i], SearchDict(columns.value[i].value, columns.value[i].regex)) in r.value)
  {
    LegacyColumnSearchesRule(columnNames, columns, |columnNames|);
    GeColumnSearchesSound(columnNames, columns, |columnNames|);
    GeColumnSearchesComplete(columnNames, columns, |columnNames|);
  }

  /**
   * A non-empty RTC filter (after stripping) always ends up as the `RTC`
   * entry, whatever the column entries said; an empty one changes nothing.
   */
  lemma RtcFilterRule(searches: seq<(string, SearchObj)>, rtc: string)
    requires UniqueKeys(searches)
    ensures rtc == "" ==> WithRtc(searches, rtc) == searches
    ensures rtc != "" ==> (RtcColumn, SearchDict(Some(rtc), true)) in WithRtc(searches, rtc)
    ensures UniqueKeys(WithRtc(searches, rtc))
    ensures forall e | e in WithRtc(searches, rtc) && e.0 == RtcColumn :: rtc != "" ==> e.1 == SearchDict(Some(rtc), true)
  {
    if rtc != "" {
      PutKeys(searches, RtcColumn, SearchDict(Some(rtc), true));
    }
  }

  /**
   * What the RTC entry becomes at the WHERE builder: with `RTC` a table
   * column, an anchored `^x$` value binds `X` under an equality, and any
   * other value, such as the plain option text the browser sends, binds
   * `%VALUE%` under a `LIKE`, so `AB` also selects `XABY`.
   */
  lemma RtcFilterClause(columnNames: seq<string>, month: string, search: Option<string>,
                        searches: seq<(string, SearchObj)>, rtc: string)
    requires UniqueKeys(searches) && rtc != "" && RtcColumn in columnNames
    ensures var ws := WithRtc(searches, rtc);
            var cs := WhereClauses(columnNames, month, search, ws);
            var ps := WhereParams(month, search, columnNames, ws);
            && ColumnParam(RtcColumn) in ps
            && (StartsWith(rtc, "^") && EndsWith(rtc, "$") ==>
                  ColumnEq(RtcColumn) in cs && ps[ColumnParam(RtcColumn)] == Upper(ExactValue(rtc)))
            && (!(StartsWith(rtc, "^") && EndsWith(rtc, "$")) ==>
                  ColumnLike(RtcColumn) in cs && ps[ColumnParam(RtcColumn)] == "%" + Upper(rtc) + "%")
  {
    var obj := SearchDict(Some(rtc), true);
    var ws := WithRtc(searches, rtc);
    RtcFilterRule(searches, rtc);
    var k :| 0 <= k < |ws| && ws[k] == (RtcColumn, obj);
    assert SearchText(obj) == rtc;
    assert IsExactPattern(obj) <==> StartsWith(rtc, "^") && EndsWith(rtc, "$");
    ColumnFilterRule(columnNames, month, search, ws, k);
    ColumnFilterClause(columnNames, month, search, ws, k);
  }

  /**
   * Past the end of the column list the two handlers order differently:
   * the current one by the first column, the older one by `ID`.
   */
  lemma OrderFallbacksDiffer(columnNames: seq<string>, k: int)
    requires columnNames != [] && k >= |columnNames|
    ensures GeOrderColumn(columnNames, k) == Some(columnNames[0])
    ensures LegacyOrderColumn(columnNames, k) == Some(FallbackOrderColumn)
  {
  }

  // ---------------------------------------------------------------------
  // Export
  // ---------------------------------------------------------------------

  /** The `column_filters` query string once URL-decoded and parsed as JSON. */
  datatype FilterText =
    | NoFilters                                   // empty string
    | Malformed                                   // not valid JSON
    | Filters(entries: seq<(string, SearchObj)>)  // a JSON object, in key order

  /** Python truthiness of a filter value (a dictionary with a key is true). */
  predicate SearchTruthy(obj: SearchObj)
  {
    obj.SearchDict? || obj.text != ""
  }

  function KnownTruthy(columnNames: seq<string>, entries: seq<(string, SearchObj)>): (r: seq<(string, SearchObj)>)
    ensures forall e | e in r :: e in entries && e.0 in columnNames && SearchTruthy(e.1)
    ensures forall e | e in entries && e.0 in columnNames && SearchTruthy(e.1) :: e in r
  {
    if entries == [] then []
    else
      var rest := KnownTruthy(columnNames, entries[1..]);
      var e := entries[0];
      assert forall x | x in entries[1..] :: x in entries;
      if e.0 in columnNames && SearchTruthy(e.1) then [e] + rest else rest
  }

  /** The column searches of an export: known columns with a truthy value; malformed JSON counts as none. */
  function ExportSearches(columnNames: seq<string>, filters: FilterText): seq<(string, SearchObj)>
  {
    match filters
    case Filters(entries) => KnownTruthy(columnNames, entries)
    case _ => []
  }

  /** `get_export_data` (both versions): every matching row, or an HTTP 500 when the statement fails. */
  method GetExportData(columnNames: seq<string>, month: string, globalSearch: string, filters: FilterText,
                       db: Option<seq<Row>>)
    returns (rows: Result<seq<Row>, int>, query: Query, params: map<string, string>)
    ensures var searches := ExportSearches(columnNames, filters);
            && query == BuildExportQuery(TableName, WhereSql(WhereClauses(columnNames, month, Some(globalSearch), searches)))
            && params == WhereParams(month, Some(globalSearch), columnNames, searches)
    ensures rows.Err? <==> db.None?
    ensures rows.Err? ==> rows.error == 500
    ensures rows.Ok? ==> rows.value == db.value
  {
    var searches := ExportSearches(columnNames, filters);
    var whereSql, clauses;
    whereSql, clauses, params := BuildWhereClause(columnNames, month, Some(globalSearch), searches);
    query := BuildExportQuery(TableName, whereSql);
    if db.None? {
      rows := Err(500);
    } else {
      rows := Ok(db.value);
    }
  }

  /** A malformed `column_filters` exports exactly what no column filters export. */
  lemma MalformedFiltersIgnored(columnNames: seq<string>)
    ensures ExportSearches(columnNames, Malformed) == ExportSearches(columnNames, NoFilters) == []
  {
  }

  /**
   * Export filters on unknown columns or with empty values never reach the
   * WHERE text: the export is filtered as if they were absent.
   */
  lemma ExportDropsUnknownAndEmpty(columnNames: seq<string>, entries: seq<(string, SearchObj)>)
    ensures forall e | e in ExportSearches(columnNames, Filters(entries)) :: e.0 in columnNames && SearchTruthy(e.1)
    ensures forall e | e in entries && e.0 !in columnNames :: e !in ExportSearches(columnNames, Filters(entries))
  {
  }

  /**
   * The status of the export endpoint as written, from what
   * `get_export_data` answered (a failure is its `HTTPException(500)`).
   * Both versions handle an empty result inside their `try`: the older one
   * raises `HTTPException(404)`, the current one builds a `JSONResponse`
   * without the `content` argument it requires, and `except Exception`
   * turns either into a 500. Rows are streamed as a workbook with 200.
   */
  function ExportStatusAsWritten(current: bool, rows: Result<seq<Row>, int>): (code: int)
    ensures code == 200 <==> rows.Ok? && rows.value != []
    ensures code != 200 ==> code == 500
  {
    if rows.Ok? && rows.value != [] then 200 else 500
  }

  /** As written, an export that matched nothing answers exactly like one whose statement failed. */
  lemma EmptyExportLooksFailed(current: bool)
    ensures ExportStatusAsWritten(current, Ok([])) == ExportStatusAsWritten(current, Err(500)) == 500
  {
  }

  /**
   * The status the code evidently intends: no rows is 204 No Content in
   * the current version (not an error, as its comment says) and 404 in the
   * older one, a failure stays 500, and rows give 200.
   */
  function ExportStatus(current: bool, rows: Result<seq<Row>, int>): (code: int)
    ensures rows.Err? ==> code == 500
    ensures rows.Ok? ==> (code == 200 <==> rows.value != [])
    ensures rows.Ok? && rows.value == [] ==> code == (if current then 204 else 404)
  {
    if rows.Err? then 500 else if rows.value != [] then 200 else if current then 204 else 404
  }

  /**
   * With the intended statuses the code alone tells the browser which of
   * the three outcomes happened, and an empty export is an error reply
   * only in the older version.
   */
  lemma {:induction false} ExportStatusDistinguishes(current: bool, a: Result<seq<Row>, int>, b: Result<seq<Row>, int>)
    ensures ExportStatus(current, a) == ExportStatus(current, b) ==>
              (a.Err? <==> b.Err?) && (a.Ok? && b.Ok? ==> (a.value == [] <==> b.value == []))
    ensures a.Ok? && a.value == [] ==> (ExportStatus(current, a) >= 400 <==> !current)
  {
  }

  // ---------------------------------------------------------------------
  // Presentation months
  // ---------------------------------------------------------------------

  /** `get_presentation_months`: the twelve months in order, then `TUTTO`. */
  const PresentationMonths: seq<string> := [
    "GENNAIO", "FEBBRAIO", "MARZO", "APRILE", "MAGGIO", "GIUGNO",
    "LUGLIO", "AGOSTO", "SETTEMBRE", "OTTOBRE", "NOVEMBRE", "DICEMBRE",
    AllMonths]

  /**
   * Thirteen entries; choosing one of the first twelve filters the grid by
   * that month, choosing the last (`TUTTO`) does not.
   */
  lemma PresentationMonthsRule()
    ensures |PresentationMonths| == 13
    ensures PresentationMonths[12] == AllMonths && !MonthActive(PresentationMonths[12])
    ensures forall i | 0 <= i < 12 :: MonthActive(PresentationMonths[i])
  {
    AllMonthsInactive();
    forall i | 0 <= i < 12 ensures MonthActive(PresentationMonths[i]) {
      CapitalEdges(PresentationMonths[i]);
    }
  }

  lemma AllMonthsInactive()
    ensures !MonthActive(AllMonths)
  {
    StripUnchanged(AllMonths);
    assert Upper(AllMonths) == AllMonths;
  }

  /** A text that starts and ends with a capital letter other than `T` is a month filter. */
  lemma CapitalEdges(m: string)
    requires m != [] && IsUpperLetter(m[0]) && IsUpperLetter(m[|m| - 1])
    ensures Strip(m) == m
    ensures |Upper(Strip(m))| == |m| && Upper(Strip(m))[0] == m[0]
    ensures m[0] != 'T' ==> MonthActive(m)
  {
    StripUnchanged(m);
  }
}
