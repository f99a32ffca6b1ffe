/**
 * The browser side of the service-order grid (static/js/ordini_servizi_ge.js):
 * the Tabulator column definitions built from the column endpoint, the rows
 * taken out of a data reply, the inline cell edit and its rollback, the
 * month guard of the table (re)load and the RTC select.
 *
 * The page's module variables (`tabulatorTable`, `columnsConfig`,
 * `editModeEnabled`, `currentParams`) and the DOM it touches (the RTC
 * select, the alerts it shows) are the fields of `GeGridPage`. Every reply of
 * the server is an input of the method that awaits it.
 */
module GeGridClient {
  import opened Base
  import opened Text
  import opened JsArray
  import SessionColumns
  import CellUpdate
  import UniqueValues
  import GridData
  import WhereClause

  // ---------------------------------------------------------------------
  // Column definitions (`fetchColumns`)
  // ---------------------------------------------------------------------

  /** The body of `/api/servizi/ge/columns`: bare names, or descriptor objects. */
  datatype ColumnsReply =
    | Names(names: seq<string>)
    | Descriptors(descs: seq<SessionColumns.ColumnDescriptor>)

  datatype Editor = NoEditor | InputEditor

  /** One Tabulator column definition; it never carries a header filter. */
  datatype GridColumn = GridColumn(title: string, field: string, sorter: string, editor: Editor,
                                   visible: bool, headerSort: bool, cssClass: string)

  const StringSorter: string := "string"
  const EditableClass: string := "editable"
  const ColumnsError: string := "Errore nel recupero colonne"

  /** The column of action buttons `initTabulator` appends. */
  const ActionsColumn: GridColumn := GridColumn("Azioni", "actions", "", NoEditor, true, false, "")

  /** A field name turned into a heading: underscores become spaces, each word starts upper case. */
  function JsTitle(field: string): string
  {
    JsCapitalizeWords(ReplaceChar(field, '_', ' '))
  }

  /** `col.toLowerCase() === 'id'`. */
  predicate IsIdField(field: string)
  {
    Lower(field) == "id"
  }

  function ColumnFor(field: string, title: string): GridColumn
  {
    var id := IsIdField(field);
    GridColumn(title, field, StringSorter, if id then NoEditor else InputEditor, true, true,
               if id then "" else EditableClass)
  }

  /** The descriptor's own title when it is non-empty, the field's heading otherwise. */
  function DescriptorTitle(d: SessionColumns.ColumnDescriptor): string
  {
    if d.title != "" then d.title else JsTitle(d.field)
  }

  /** The column definitions `fetchColumns` builds from a successful reply. */
  function MapColumns(reply: ColumnsReply): (r: seq<GridColumn>)
    ensures reply.Names? ==> |r| == |reply.names| && forall i | 0 <= i < |r| ::
              r[i].field == reply.names[i] && r[i].title == JsTitle(reply.names[i])
    ensures reply.Descriptors? ==> |r| == |reply.descs| && forall i | 0 <= i < |r| ::
              r[i].field == reply.descs[i].field && r[i].title == DescriptorTitle(reply.descs[i])
    ensures forall i | 0 <= i < |r| :: r[i].visible && r[i].headerSort && r[i].sorter == StringSorter
    ensures forall i | 0 <= i < |r| ::
              && (r[i].editor == NoEditor <==> IsIdField(r[i].field))
              && (r[i].cssClass == EditableClass <==> !IsIdField(r[i].field))
  {
    match reply
    case Names(ns) =>
      seq(|ns|, i requires 0 <= i < |ns| => ColumnFor(ns[i], JsTitle(ns[i])))
    case Descriptors(ds) =>
      seq(|ds|, i requires 0 <= i < |ds| => ColumnFor(ds[i].field, DescriptorTitle(ds[i])))
  }

  /** `fetchColumns`: an HTTP error status throws. */
  function FetchColumns(ok: bool, reply: ColumnsReply): (r: Result<seq<GridColumn>, string>)
    ensures r.Err? <==> !ok
    ensures r.Err? ==> r.error == ColumnsError
    ensures r.Ok? ==> r.value == MapColumns(reply)
  {
    if !ok then Err(ColumnsError) else Ok(MapColumns(reply))
  }

  /**
   * A heading built from a field has no underscore, reads as the field with
   * spaces once case is ignored, and every word of it starts upper case.
   */
  lemma JsTitleRule(field: string)
    ensures |JsTitle(field)| == |field|
    ensures '_' !in JsTitle(field)
    ensures Lower(JsTitle(field)) == Lower(ReplaceChar(field, '_', ' '))
    ensures forall i | 0 <= i < |field| && JsWordStart(ReplaceChar(field, '_', ' '), i) ::
              !IsLowerLetter(JsTitle(field)[i])
  {
    var spaced := ReplaceChar(field, '_', ' ');
    JsCapitalizeWordsSpec(spaced);
    var t := JsTitle(field);
    forall i | 0 <= i < |t| ensures t[i] != '_' {
      if !JsWordStart(spaced, i) {
        assert t[i] == spaced[i];
      } else {
        assert t[i] == UpperChar(spaced[i]);
      }
    }
  }

  /**
   * The bare names of the older column endpoint get the headings the
   * current endpoint would give them, up to case: the browser capitalises
   * the first letter of each word where Python's `title()` also lowers the
   * rest.
   */
  lemma NameTitlesMatchServerHeadings(names: seq<string>)
    ensures forall i | 0 <= i < |names| ::
              Lower(MapColumns(Names(names))[i].title) == Lower(SessionColumns.Heading(names[i]))
  {
    forall i | 0 <= i < |names|
      ensures Lower(MapColumns(Names(names))[i].title) == Lower(SessionColumns.Heading(names[i]))
    {
      JsTitleRule(names[i]);
    }
  }

  /**
   * Descriptors from the current column endpoint keep the server's fields
   * and headings, but every column is shown: the columns the role's
   * permission row hides come back visible.
   */
  lemma ServerHidingIgnored(cookie: SessionColumns.SessionCookie, users: set<Json>, hiddenByRole: map<Json, string>,
                            columnNames: seq<string>, failure: SessionColumns.LookupFailure)
    requires SessionColumns.GeColumns(cookie, users, hiddenByRole, columnNames, failure).Ok?
    ensures var r := MapColumns(Descriptors(SessionColumns.GeColumns(cookie, users, hiddenByRole, columnNames, failure).value));
            && |r| == |columnNames|
            && forall i | 0 <= i < |r| ::
                 r[i].field == columnNames[i] && r[i].title == SessionColumns.Heading(columnNames[i]) && r[i].visible
  {
    var ds := SessionColumns.GeColumns(cookie, users, hiddenByRole, columnNames, failure).value;
    assert ds == SessionColumns.Descriptors(columnNames, if cookie.ruoloId in hiddenByRole
                                                          then SessionColumns.HiddenColumns(hiddenByRole[cookie.ruoloId])
                                                          else []);
    forall i | 0 <= i < |ds| ensures DescriptorTitle(ds[i]) == SessionColumns.Heading(columnNames[i]) {
      if ds[i].title == "" {
        assert |SessionColumns.Heading(columnNames[i])| == |columnNames[i]|;
        assert columnNames[i] == "";
        assert JsTitle("") == "";
      }
    }
  }

  // ---------------------------------------------------------------------
  // Data replies (`fetchData` and the table's own loader)
  // ---------------------------------------------------------------------

  /** A row of the grid as the browser holds it. */
  type Record = map<string, Json>

  /** A data reply: a bare array, or the DataTables envelope with its `data` member. */
  datatype DataReply =
    | RowArray(rows: seq<Record>)
    | Envelope(data: Option<seq<Record>>)

  const DataError: string := "Errore nel caricamento dati"

  /**
   * `data.data || data`: an envelope's `data` list, even an empty one
   * (a JavaScript array is always truthy); otherwise the reply itself.
   */
  function SelectRows(reply: DataReply): (r: DataReply)
    ensures r.RowArray? <==> reply.RowArray? || reply.data.Some?
    ensures reply.RowArray? ==> r == reply
    ensures reply.Envelope? && reply.data.Some? ==> r.rows == reply.data.value
    ensures reply.Envelope? && reply.data.None? ==> r == reply
  {
    match reply
    case RowArray(_) => reply
    case Envelope(data) => if data.Some? then RowArray(data.value) else reply
  }

  /**
   * `fetchData`: an HTTP error status throws. Nothing in the script calls
   * it; the grid loads its rows through Tabulator's `ajaxResponse`
   * (`AjaxRows`).
   */
  function FetchData(ok: bool, reply: DataReply): (r: Result<DataReply, string>)
    ensures r.Err? <==> !ok
    ensures r.Err? ==> r.error == DataError
    ensures r.Ok? ==> r.value == SelectRows(reply)
  {
    if !ok then Err(DataError) else Ok(SelectRows(reply))
  }

  /** `response.data || []`: the rows the table's `ajaxResponse` hands to Tabulator. */
  function AjaxRows(reply: DataReply): (r: seq<Record>)
    ensures reply.Envelope? && reply.data.Some? ==> r == reply.data.value
    ensures reply.RowArray? || reply.data.None? ==> r == []
  {
    if reply.Envelope? && reply.data.Some? then reply.data.value else []
  }

  /**
   * The two readings agree on an envelope with data; on a bare array
   * `fetchData` passes the rows through while the table's loader shows none.
   */
  lemma RowSelectionsCompared(reply: DataReply)
    ensures reply.Envelope? && reply.data.Some? ==> SelectRows(reply) == RowArray(AjaxRows(reply))
    ensures reply.RowArray? ==> SelectRows(reply).rows == reply.rows && AjaxRows(reply) == []
    ensures reply.Envelope? && reply.data.None? ==> !SelectRows(reply).RowArray? && AjaxRows(reply) == []
  {
  }

  // ---------------------------------------------------------------------
  // Cell updates (`updateCell`)
  // ---------------------------------------------------------------------

  /** What `fetch('/api/servizi/ge/update')` yields: a rejection, or a response and its JSON body. */
  datatype UpdateReply =
    | NetworkFailure(reason: string)
    | Response(ok: bool, status: Option<string>, message: Option<string>)

  const UpdateHttpError: string := "Errore aggiornamento cella"
  const UpdateDefaultError: string := "Errore update"
  const SuccessStatus: string := "success"

  /** `updateCell`: true on a 2xx reply whose `status` is `success`; otherwise the error it throws. */
  function UpdateCell(reply: UpdateReply): (r: Result<bool, string>)
    ensures r.Ok? <==> reply.Response? && reply.ok && reply.status == Some(SuccessStatus)
    ensures r.Ok? ==> r.value
    ensures reply.NetworkFailure? ==> r == Err(reply.reason)
    ensures reply.Response? && !reply.ok ==> r == Err(UpdateHttpError)
    ensures reply.Response? && reply.ok && reply.status != Some(SuccessStatus) ==>
              r == Err(if reply.message.Some? && reply.message.value != "" then reply.message.value
                       else UpdateDefaultError)
  {
    match reply
    case NetworkFailure(m) => Err(m)
    case Response(ok, status, message) =>
      if !ok then Err(UpdateHttpError)
      else if status != Some(SuccessStatus) then
        Err(if message.Some? && message.value != "" then message.value else UpdateDefaultError)
      else Ok(true)
  }

  /**
   * The reply both update endpoints send for an outcome: a 2xx status only
   * when the row was written, with `status: "success"`.
   */
  function ServerUpdateReply(o: CellUpdate.Outcome): UpdateReply
  {
    var code := CellUpdate.Status(o);
    Response(200 <= code < 300, if o == CellUpdate.Done then Some(SuccessStatus) else Some("error"), None)
  }

  /** The browser reports success exactly when the server wrote the row; any other outcome is an HTTP error. */
  lemma UpdateCellAgreesWithServer(o: CellUpdate.Outcome)
    ensures UpdateCell(ServerUpdateReply(o)).Ok? <==> o == CellUpdate.Done
    ensures o != CellUpdate.Done ==> UpdateCell(ServerUpdateReply(o)) == Err(UpdateHttpError)
  {
  }

  // ---------------------------------------------------------------------
  // Page state
  // ---------------------------------------------------------------------

  /** `getParams()`: the month, RTC and search inputs. */
  datatype Params = Params(monthFilter: string, rtcFilter: string, search: string)

  /** The body `refreshRTCFilter` posts to `/api/servizi/ge/unique_values`: no `column`, no column searches. */
  function RtcPayload(p: Params): (r: UniqueValues.UniquePost)
    ensures r.column.None? && r.monthFilter == p.monthFilter && r.search == Some(p.search)
    ensures r.columns == Some([])
  {
    UniqueValues.UniquePost(None, p.monthFilter, Some(p.search), Some([]))
  }

  /** The generic search reloads on Enter, or as soon as the input is cleared. */
  predicate SearchFires(key: string, value: string)
  {
    key == "Enter" || value == ""
  }

  class GeGridPage {
    /** `editModeEnabled`. */
    var editModeEnabled: bool
    /** `tabulatorTable !== null`. */
    var built: bool
    /** `columnsConfig`. */
    var columns: seq<GridColumn>
    /** `currentParams`. */
    var currentParams: Params
    /** Each data request the table has made, with its parameters. */
    var dataLoads: seq<Params>
    /** The rows the table shows. */
    var rows: seq<Record>
    /** Each body posted to the update endpoint. */
    var updates: seq<CellUpdate.UpdateRequest>
    /** Each message shown with `alert`. */
    var alerts: seq<string>
    /** The RTC select: its options after the placeholder, whether it is disabled, its value. */
    var rtcOptions: seq<string>
    var rtcDisabled: bool
    var rtcValue: string
    /** Each body posted to the unique-values endpoint. */
    var rtcRequests: seq<UniqueValues.UniquePost>

    /** The page once its listeners are set up: no table yet, edit mode off, the RTC select disabled. */
    constructor ()
      ensures !editModeEnabled && !built && columns == [] && dataLoads == [] && rows == []
      ensures updates == [] && alerts == [] && rtcRequests == []
      ensures rtcOptions == [] && rtcDisabled && rtcValue == ""
      ensures currentParams.monthFilter == ""
    {
      editModeEnabled := false;
      built := false;
      columns := [];
      currentParams := Params("", "", "");
      dataLoads := [];
      rows := [];
      updates := [];
      alerts := [];
      rtcOptions := [];
      rtcDisabled := true;
      rtcValue := "";
      rtcRequests := [];
    }

    /** The edit-mode switch, whose listener exists once the table is built. */
    method SetEditMode(checked: bool)
      requires built
      modifies this`editModeEnabled
      ensures editModeEnabled == checked
    {
      editModeEnabled := checked;
    }

    /**
     * `onCellEdit`, called once Tabulator has put the new value in cell
     * `field` of row `i`: with edit mode off nothing is sent and the edit
     * stays; otherwise the row's `ID`, the field and the new value are
     * posted, and on any failure the message is shown and the old value
     * put back.
     */
    method OnCellEdit(i: nat, field: string, oldValue: Json, reply: UpdateReply)
      requires i < |rows|
      modifies this`rows, this`updates, this`alerts
      ensures !editModeEnabled ==> rows == old(rows) && updates == old(updates) && alerts == old(alerts)
      ensures editModeEnabled ==>
                updates == old(updates) + [CellUpdate.UpdateRequest(CellUpdate.Cell(old(rows)[i], "ID"),
                                                                   JText(field),
                                                                   CellUpdate.Cell(old(rows)[i], field))]
      ensures editModeEnabled && UpdateCell(reply).Ok? ==> rows == old(rows) && alerts == old(alerts)
      ensures editModeEnabled && UpdateCell(reply).Err? ==>
                && rows == old(rows)[i := old(rows)[i][field := oldValue]]
                && alerts == old(alerts) + [UpdateCell(reply).error]
    {
      if !editModeEnabled {
        return;
      }
      var row := rows[i];
      updates := updates + [CellUpdate.UpdateRequest(CellUpdate.Cell(row, "ID"), JText(field), CellUpdate.Cell(row, field))];
      var result := UpdateCell(reply);
      if result.Err? {
        alerts := alerts + [result.error];
        rows := rows[i := rows[i][field := oldValue]];
      }
    }

    /**
     * The synchronous start of `refreshRTCFilter`: the select is emptied
     * back to its placeholder and disabled, and with a month the values are
     * requested. Everything after the request waits for its reply.
     */
    method BeginRtcRefresh(params: Params)
      modifies this`rtcOptions, this`rtcDisabled, this`rtcValue, this`rtcRequests
      ensures rtcOptions == [] && rtcDisabled && rtcValue == ""
      ensures params.monthFilter == "" ==> rtcRequests == old(rtcRequests)
      ensures params.monthFilter != "" ==> rtcRequests == old(rtcRequests) + [RtcPayload(params)]
    {
      rtcDisabled := true;
      rtcOptions := [];
      rtcValue := "";
      if params.monthFilter != "" {
        rtcRequests := rtcRequests + [RtcPayload(params)];
      }
    }

    /**
     * The rest of `refreshRTCFilter`, once its reply arrives: the
     * deduplicated values are appended to whatever the select lists now,
     * and it is enabled when there was at least one. `reply` is `None` when
     * the request fails or its body is not a list, which changes nothing.
     */
    method ReceiveRtcReply(reply: Option<seq<string>>)
      modifies this`rtcOptions, this`rtcDisabled
      ensures reply.None? ==> rtcOptions == old(rtcOptions) && rtcDisabled == old(rtcDisabled)
      ensures reply.Some? ==>
                && rtcOptions == old(rtcOptions) + Dedup(reply.value)
                && (rtcDisabled <==> old(rtcDisabled) && reply.value == [])
    {
      if reply.None? {
        return;
      }
      var values := Dedup(reply.value);
      var k := 0;
      while k < |values|
        invariant 0 <= k <= |values|
        invariant rtcOptions == old(rtcOptions) + values[..k]
        invariant rtcDisabled == old(rtcDisabled)
      {
        rtcOptions := rtcOptions + [values[k]];
        k := k + 1;
      }
      assert values[..k] == values;
      assert values == [] <==> reply.value == [] by {
        if reply.value != [] {
          assert reply.value[0] in values;
        }
      }
      if |values| > 0 {
        rtcDisabled := false;
      }
    }

    /**
     * `refreshRTCFilter` when its reply arrives before any other refresh
     * starts: the options are the deduplicated reply, listed once, and the
     * select is enabled exactly when there is one.
     */
    method RefreshRtcFilter(params: Params, reply: Option<seq<string>>)
      modifies this`rtcOptions, this`rtcDisabled, this`rtcValue, this`rtcRequests
      ensures rtcValue == "" && NoRepeats(rtcOptions)
      ensures params.monthFilter == "" ==> rtcOptions == [] && rtcDisabled && rtcRequests == old(rtcRequests)
      ensures params.monthFilter != "" ==> rtcRequests == old(rtcRequests) + [RtcPayload(params)]
      ensures params.monthFilter != "" && reply.Some? ==>
                rtcOptions == Dedup(reply.value) && (rtcDisabled <==> reply.value == [])
      ensures params.monthFilter != "" && reply.None? ==> rtcOptions == [] && rtcDisabled
    {
      BeginRtcRefresh(params);
      if params.monthFilter != "" {
        ReceiveRtcReply(reply);
      }
    }

    /**
     * Two refreshes that overlap, as the un-awaited ones started by
     * `loadOrUpdateTable` and by the table's `dataLoaded` event can: both
     * start before either reply arrives, so each reply is appended to the
     * other's and neither reset clears the first list.
     */
    method OverlappingRtcRefreshes(first: Params, second: Params,
                                   firstReply: Option<seq<string>>, secondReply: Option<seq<string>>)
      requires first.monthFilter != "" && second.monthFilter != ""
      modifies this`rtcOptions, this`rtcDisabled, this`rtcValue, this`rtcRequests
      ensures rtcRequests == old(rtcRequests) + [RtcPayload(first), RtcPayload(second)]
      ensures firstReply.Some? && secondReply.Some? ==>
                rtcOptions == Dedup(firstReply.value) + Dedup(secondReply.value)
    {
      BeginRtcRefresh(first);
      BeginRtcRefresh(second);
      ReceiveRtcReply(firstReply);
      ReceiveRtcReply(secondReply);
    }

    /**
     * `loadOrUpdateTable`: nothing happens without a month; otherwise the
     * parameters are remembered, the table is built on the first call (its
     * column definitions plus the action column, then its first data
     * request) and asked to reload on later ones, and the RTC select is
     * refreshed. When the columns cannot be fetched the error is shown and
     * the table stays unbuilt.
     */
    method LoadOrUpdateTable(params: Params, columnsReply: Result<seq<GridColumn>, string>,
                             rtcReply: Option<seq<string>>)
      modifies this
      ensures params.monthFilter == "" ==>
                && built == old(built) && columns == old(columns) && currentParams == old(currentParams)
                && dataLoads == old(dataLoads) && alerts == old(alerts)
                && rtcOptions == old(rtcOptions) && rtcDisabled == old(rtcDisabled) && rtcRequests == old(rtcRequests)
      ensures params.monthFilter != "" ==> currentParams == params
      ensures params.monthFilter != "" && !old(built) && columnsReply.Err? ==>
                !built && columns == old(columns) && dataLoads == old(dataLoads)
                && alerts == old(alerts) + [columnsReply.error]
      ensures params.monthFilter != "" && !old(built) && columnsReply.Ok? ==>
                built && columns == columnsReply.value + [ActionsColumn]
                && dataLoads == old(dataLoads) + [params] && alerts == old(alerts)
      ensures params.monthFilter != "" && old(built) ==>
                built && columns == old(columns) && dataLoads == old(dataLoads) + [params] && alerts == old(alerts)
      ensures params.monthFilter != "" ==>
                && rtcRequests == old(rtcRequests) + [RtcPayload(params)]
                && (rtcReply.Some? ==> rtcOptions == Dedup(rtcReply.value) && (rtcDisabled <==> rtcReply.value == []))
                && (rtcReply.None? ==> rtcOptions == [] && rtcDisabled)
      ensures editModeEnabled == old(editModeEnabled) && rows == old(rows) && updates == old(updates)
    {
      if params.monthFilter == "" {
        return;
      }
      currentParams := params;
      if !built {
        if columnsReply.Err? {
          alerts := alerts + [columnsReply.error];
        } else {
          columns := columnsReply.value + [ActionsColumn];
          built := true;
          dataLoads := dataLoads + [params];
        }
      } else {
        dataLoads := dataLoads + [params];
      }
      RefreshRtcFilter(params, rtcReply);
    }

    /**
     * The table's `dataLoaded` event: the rows of the reply are shown and
     * the RTC select is refreshed with the remembered parameters.
     */
    method OnDataLoaded(reply: DataReply, rtcReply: Option<seq<string>>)
      modifies this`rows, this`rtcOptions, this`rtcDisabled, this`rtcValue, this`rtcRequests
      ensures rows == AjaxRows(reply)
      ensures currentParams.monthFilter == "" ==> rtcOptions == [] && rtcDisabled && rtcRequests == old(rtcRequests)
      ensures currentParams.monthFilter != "" ==> rtcRequests == old(rtcRequests) + [RtcPayload(currentParams)]
    {
      rows := AjaxRows(reply);
      RefreshRtcFilter(currentParams, rtcReply);
    }

    /** `keyup` on the generic search: a reload only on Enter or an emptied input. */
    method OnSearchKeyUp(key: string, value: string, params: Params,
                         columnsReply: Result<seq<GridColumn>, string>, rtcReply: Option<seq<string>>)
      modifies this
      ensures !SearchFires(key, value) ==>
                && built == old(built) && columns == old(columns) && currentParams == old(currentParams)
                && dataLoads == old(dataLoads) && alerts == old(alerts) && rtcOptions == old(rtcOptions)
                && rtcDisabled == old(rtcDisabled) && rtcValue == old(rtcValue) && rtcRequests == old(rtcRequests)
      ensures SearchFires(key, value) && params.monthFilter != "" ==>
                currentParams == params && rtcRequests == old(rtcRequests) + [RtcPayload(params)]
      ensures editModeEnabled == old(editModeEnabled) && rows == old(rows) && updates == old(updates)
    {
      if SearchFires(key, value) {
        LoadOrUpdateTable(params, columnsReply, rtcReply);
      }
    }
  }

  // ---------------------------------------------------------------------
  // The RTC select against the two unique-values endpoints
  // ---------------------------------------------------------------------

  /** The body the browser reads from a unique-values reply: the list, or nothing on an error status. */
  function ListOf(reply: Result<seq<string>, int>): Option<seq<string>>
  {
    if reply.Ok? then Some(reply.value) else None
  }

  /** An empty `columns` list yields no column searches in the older handler. */
  lemma {:induction false} EmptyColumnsNoSearches(columnNames: seq<string>, n: nat)
    requires n <= |columnNames|
    ensures GridDataSearches(columnNames, n) == Some([])
  {
    if n > 0 {
      EmptyColumnsNoSearches(columnNames, n - 1);
    }
  }

  function GridDataSearches(columnNames: seq<string>, n: nat): Option<seq<(string, WhereClause.SearchObj)>>
    requires n <= |columnNames|
  {
    GridData.LegacyColumnSearches(columnNames, Some([]), n)
  }

  /**
   * With the older handler answering (it names `RTC` itself), a refresh
   * lists exactly the distinct cleaned RTC values the statement returns, in
   * the order the rows come, and enables the select when there is one.
   */
  method RefreshWithOlderServer(page: GeGridPage, columnNames: seq<string>, params: Params, db: Option<seq<Json>>)
    requires params.monthFilter != ""
    modifies page
    ensures db.Some? ==> page.rtcOptions == UniqueValues.Distinct(db.value)
                         && (page.rtcDisabled <==> page.rtcOptions == [])
    ensures db.None? ==> page.rtcOptions == [] && page.rtcDisabled
  {
    EmptyColumnsNoSearches(columnNames, |columnNames|);
    var reply, stmt := UniqueValues.LegacyUniqueValuesPost(columnNames, Some(RtcPayload(params)), db);
    page.RefreshRtcFilter(params, ListOf(reply));
    if db.Some? {
      var d := UniqueValues.Distinct(db.value);
      UniqueValues.DistinctSpec(db.value);
      assert NoRepeats(d);
      DedupOfNoRepeats(d);
    }
  }

  /**
   * Two overlapping refreshes with the same month, each answered
   * `["ROSSI"]`, list `ROSSI` twice; one refresh at a time lists it once.
   */
  method OverlapListsTwice(page: GeGridPage, params: Params)
    requires params.monthFilter != ""
    modifies page
    ensures page.rtcOptions == ["ROSSI", "ROSSI"] && !NoRepeats(page.rtcOptions)
  {
    var reply := ["ROSSI"];
    DedupOfNoRepeats(reply);
    page.OverlappingRtcRefreshes(params, params, Some(reply), Some(reply));
    assert page.rtcOptions[0] == page.rtcOptions[1];
  }

  /**
   * The current handler requires a `column` the browser never sends: it
   * answers 400, and the select stays empty and disabled.
   */
  method RefreshWithCurrentServer(page: GeGridPage, columnNames: seq<string>, params: Params, db: Option<seq<Json>>)
    requires params.monthFilter != ""
    modifies page
    ensures page.rtcOptions == [] && page.rtcDisabled
  {
    var reply, stmt := UniqueValues.GeUniqueValuesPost(columnNames, Some(RtcPayload(params)), db);
    page.RefreshRtcFilter(params, ListOf(reply));
  }
}
