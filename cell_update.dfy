/**
 * The cell-update endpoint `POST /api/servizi/ge/update` in its current form
 * (ordini_servizi_ge.py) and its older form (ordini_servizi.py).
 *
 * The database is a `Session`: the committed table and change log, plus the
 * uncommitted changes of the handler's own transaction. What the handler
 * cannot foresee (the SELECT raising, the UPDATE raising, another
 * connection deleting the row between the SELECT and the UPDATE, the log
 * insert raising) is a `Faults` input.
 */
module CellUpdate {
  import opened Base
  import opened Text

  /** A row: column name to cell. */
  type Row = map<string, Json>

  /** The grid table, keyed by its primary key `ID`. */
  type Table = map<Json, Row>

  /** A `CarrefourLog` row (its timestamp, `datetime.utcnow()`, is not modelled). */
  datatype LogEntry = LogEntry(user: string, oldValue: Option<string>, newValue: Option<string>,
                               rowId: Json, column: string)

  /** The fields of a request body; a missing key reads as `null` (`data.get`). */
  datatype UpdateRequest = UpdateRequest(pk: Json, field: Json, value: Json)

  /**
   * What `await request.json()` yields: text that is not JSON, JSON that is
   * not an object (so `data.get` raises), or an object.
   */
  datatype UpdateBody = NotJson | NotAnObject | Object(req: UpdateRequest)

  datatype Faults = Faults(readFails: bool, updateFails: bool, rowGone: bool, logFails: bool)

  /** How a request ends. */
  datatype Outcome =
    | MalformedBody   // 400, the body is not JSON
    | MissingParams   // 400
    | InvalidField    // 400
    | RecordMissing   // 404, no row with that key before the UPDATE
    | NothingUpdated  // 404, the UPDATE matched no row
    | ServerError     // 500
    | Done            // 200

  function Status(o: Outcome): int
  {
    match o
    case MalformedBody => 400
    case MissingParams => 400
    case InvalidField => 400
    case RecordMissing => 404
    case NothingUpdated => 404
    case ServerError => 500
    case Done => 200
  }

  /** The cell a `SELECT `field`` reads (`NULL` for a column the row does not hold). */
  function Cell(row: Row, field: string): Json
  {
    if field in row then row[field] else JNull
  }

  /** The table after `UPDATE ... SET `field` = :value WHERE ID = :pk` on an existing row. */
  function Updated(t: Table, pk: Json, field: string, value: Json): (r: Table)
    requires pk in t
    ensures r.Keys == t.Keys
    ensures pk in r && field in r[pk] && r[pk][field] == value
    ensures forall k | k in t && k != pk :: r[k] == t[k]
    ensures forall c | c in t[pk] && c != field :: c in r[pk] && r[pk][c] == t[pk][c]
  {
    t[pk := t[pk][field := value]]
  }

  /** `field in column_names`. */
  predicate IsColumn(columnNames: seq<string>, field: Json)
  {
    field.JText? && field.s in columnNames
  }

  class Session {
    /** Committed rows. */
    var table: Table
    /** Committed log entries. */
    var log: seq<LogEntry>
    /** The rows as this transaction sees them. */
    var pendingTable: Table
    /** Log entries added in this transaction. */
    var pendingLog: seq<LogEntry>

    /** No transaction is open. */
    predicate Idle()
      reads this
    {
      pendingTable == table && pendingLog == []
    }

    constructor(table0: Table, log0: seq<LogEntry>)
      ensures table == table0 && log == log0 && Idle()
    {
      table := table0;
      log := log0;
      pendingTable := table0;
      pendingLog := [];
    }

    /** `SELECT `field` FROM ... WHERE ID = :pk` then `fetchone()`: `None` when no row matches. */
    function Select(pk: Json, field: string): Option<Json>
      reads this
    {
      if pk in pendingTable then Some(Cell(pendingTable[pk], field)) else None
    }

    /** The UPDATE; `rowcount` is the number of matched rows. */
    method ExecuteUpdate(pk: Json, field: string, value: Json, rowGone: bool) returns (rowcount: nat)
      modifies this
      ensures rowcount == (if pk in old(pendingTable) && !rowGone then 1 else 0)
      ensures pendingTable == (if rowcount == 1 then Updated(old(pendingTable), pk, field, value)
                               else old(pendingTable))
      ensures table == old(table) && log == old(log) && pendingLog == old(pendingLog)
    {
      if pk in pendingTable && !rowGone {
        pendingTable := Updated(pendingTable, pk, field, value);
        rowcount := 1;
      } else {
        rowcount := 0;
      }
    }

    /** `db.add(log_entry)`. */
    method Add(e: LogEntry)
      modifies this
      ensures pendingLog == old(pendingLog) + [e]
      ensures table == old(table) && log == old(log) && pendingTable == old(pendingTable)
    {
      pendingLog := pendingLog + [e];
    }

    /** `db.commit()`: the transaction's rows and log entries become permanent. */
    method Commit()
      modifies this
      ensures table == old(pendingTable) && log == old(log) + old(pendingLog)
      ensures Idle()
    {
      table := pendingTable;
      log := log + pendingLog;
      pendingLog := [];
    }

    /** `db.rollback()`: the transaction's changes are discarded. */
    method Rollback()
      modifies this
      ensures table == old(table) && log == old(log)
      ensures Idle()
    {
      pendingTable := table;
      pendingLog := [];
    }
  }

  /** `str(x) if x is not None else None`. */
  function StrOrNone(v: Json): (r: Option<string>)
    ensures r.None? <==> v.JNull?
  {
    if v.JNull? then None else Some(PyStr(v))
  }

  // ---------------------------------------------------------------------
  // Current handler (ordini_servizi_ge.py)
  // ---------------------------------------------------------------------

  /** The user recorded in the log: the session cookie, or a placeholder when it is missing or empty. */
  function GeLogUser(cookie: Option<string>): string
  {
    if cookie.Some? && cookie.value != "" then cookie.value else "UtenteNonIdentificato"
  }

  function GeOutcome(columnNames: seq<string>, t: Table, body: UpdateBody, f: Faults): Outcome
  {
    match body
    case NotJson => MalformedBody
    case NotAnObject => ServerError
    case Object(req) =>
      if req.pk.JNull? || req.field.JNull? then MissingParams
      else if !IsColumn(columnNames, req.field) then InvalidField
      else if f.readFails then ServerError
      else if req.pk !in t then RecordMissing
      else if f.updateFails then ServerError
      else if f.rowGone then NothingUpdated
      else if f.logFails then ServerError
      else Done
  }

  /**
   * `update_gestione_gs_data` of ordini_servizi_ge.py. The update and its
   * log entry are committed together; on every other path the transaction
   * is rolled back, so neither the table nor the log changes. A body that
   * is JSON but not an object makes `data.get` raise outside every `try`,
   * which the framework answers with a 500.
   */
  method UpdateGe(s: Session, columnNames: seq<string>, body: UpdateBody, cookie: Option<string>, f: Faults)
    returns (outcome: Outcome)
    requires s.Idle()
    modifies s
    ensures s.Idle()
    ensures outcome == GeOutcome(columnNames, old(s.table), body, f)
    ensures outcome == Done ==>
              && body.Object?
              && s.table == Updated(old(s.table), body.req.pk, body.req.field.s, body.req.value)
              && s.log == old(s.log) + [LogEntry(GeLogUser(cookie),
                                                 StrOrNone(Cell(old(s.table)[body.req.pk], body.req.field.s)),
                                                 StrOrNone(body.req.value), body.req.pk, body.req.field.s)]
    ensures outcome != Done ==> s.table == old(s.table) && s.log == old(s.log)
  {
    if body.NotJson? {
      return MalformedBody;
    }
    if body.NotAnObject? {
      return ServerError;
    }
    var req := body.req;
    if req.pk.JNull? || req.field.JNull? {
      return MissingParams;
    }
    if !IsColumn(columnNames, req.field) {
      return InvalidField;
    }
    var field := req.field.s;
    if f.readFails {
      return ServerError;
    }
    var found := s.Select(req.pk, field);
    if found.None? {
      return RecordMissing;
    }
    var campoOld := StrOrNone(found.value);
    if f.updateFails {
      s.Rollback();
      return ServerError;
    }
    var rowcount := s.ExecuteUpdate(req.pk, field, req.value, f.rowGone);
    if rowcount == 0 {
      s.Rollback();
      return NothingUpdated;
    }
    if f.logFails {
      s.Rollback();
      return ServerError;
    }
    s.Add(LogEntry(GeLogUser(cookie), campoOld, StrOrNone(req.value), req.pk, field));
    s.Commit();
    outcome := Done;
  }

  /**
   * The current handler writes exactly when the body is an object, the key
   * and field are present, the field is a column, the row exists and nothing
   * fails; `null`, `''` and `0` are all acceptable values.
   */
  lemma GeUpdateRule(columnNames: seq<string>, t: Table, body: UpdateBody, f: Faults)
    ensures GeOutcome(columnNames, t, body, f) == Done <==>
              && body.Object? && !body.req.pk.JNull? && IsColumn(columnNames, body.req.field) && body.req.pk in t
              && !f.readFails && !f.updateFails && !f.rowGone && !f.logFails
    ensures Status(GeOutcome(columnNames, t, body, f)) == 400 <==>
              || body.NotJson?
              || (body.Object? && (body.req.pk.JNull? || body.req.field.JNull? || !IsColumn(columnNames, body.req.field)))
    ensures Status(GeOutcome(columnNames, t, body, f)) == 404 <==>
              && body.Object? && !body.req.pk.JNull? && IsColumn(columnNames, body.req.field) && !f.readFails
              && (body.req.pk !in t || (!f.updateFails && f.rowGone))
    ensures Status(GeOutcome(columnNames, t, body, f)) == 500 <==>
              || body.NotAnObject?
              || (&& body.Object? && !body.req.pk.JNull? && IsColumn(columnNames, body.req.field)
                  && (f.readFails || (body.req.pk in t && (f.updateFails || (!f.rowGone && f.logFails)))))
  {
  }

  // ---------------------------------------------------------------------
  // Older handler (ordini_servizi.py)
  // ---------------------------------------------------------------------

  /** `not all([pk, field, value is not None])`: a falsy key or field, or a `null` value. */
  predicate LegacyMissing(req: UpdateRequest)
  {
    !Truthy(req.pk) || !Truthy(req.field) || req.value.JNull?
  }

  /** The older handler commits the UPDATE as soon as it matches a row. */
  predicate LegacyWrites(columnNames: seq<string>, t: Table, body: UpdateBody, f: Faults)
  {
    && body.Object? && !LegacyMissing(body.req) && IsColumn(columnNames, body.req.field)
    && !f.readFails && !f.updateFails && body.req.pk in t && !f.rowGone
  }

  /** Every failure, the body's included, is inside the one `try` and answered with a 500. */
  function LegacyOutcome(columnNames: seq<string>, t: Table, body: UpdateBody, f: Faults): Outcome
  {
    match body
    case NotJson => ServerError
    case NotAnObject => ServerError
    case Object(req) =>
      if LegacyMissing(req) then MissingParams
      else if !IsColumn(columnNames, req.field) then InvalidField
      else if f.readFails || f.updateFails then ServerError
      else if req.pk !in t || f.rowGone then NothingUpdated
      else if f.logFails then ServerError
      else Done
  }

  /**
   * `update_gestione_gs_data` of ordini_servizi.py. The UPDATE is committed
   * before the log entry is written, and the log entry only when a row
   * matched: a failing log insert answers 500 but leaves the update in place.
   * An UPDATE that raises leaves nothing to commit.
   */
  method UpdateLegacy(s: Session, columnNames: seq<string>, body: UpdateBody, cookie: Option<string>, f: Faults)
    returns (outcome: Outcome)
    requires s.Idle()
    modifies s
    ensures s.Idle()
    ensures outcome == LegacyOutcome(columnNames, old(s.table), body, f)
    ensures s.table == (if LegacyWrites(columnNames, old(s.table), body, f)
                        then Updated(old(s.table), body.req.pk, body.req.field.s, body.req.value) else old(s.table))
    ensures s.log == (if LegacyWrites(columnNames, old(s.table), body, f) && !f.logFails
                      then old(s.log) + [LogEntry(cookie.GetOr(""),
                                                  StrOrNone(Cell(old(s.table)[body.req.pk], body.req.field.s)),
                                                  Some(PyStr(body.req.value)), body.req.pk, body.req.field.s)]
                      else old(s.log))
  {
    if !body.Object? {
      return ServerError;
    }
    var req := body.req;
    if LegacyMissing(req) {
      return MissingParams;
    }
    if !IsColumn(columnNames, req.field) {
      return InvalidField;
    }
    var field := req.field.s;
    if f.readFails {
      return ServerError;
    }
    var found := s.Select(req.pk, field);
    var oldValue := if found.Some? then found.value else JNull;
    if f.updateFails {
      return ServerError;
    }
    var rowcount := s.ExecuteUpdate(req.pk, field, req.value, f.rowGone);
    s.Commit();
    if rowcount != 0 {
      if f.logFails {
        return ServerError;
      }
      s.Add(LogEntry(cookie.GetOr(""), StrOrNone(oldValue), Some(PyStr(req.value)), req.pk, field));
      s.Commit();
    }
    if rowcount == 0 {
      return NothingUpdated;
    }
    outcome := Done;
  }

  /**
   * The older handler: 400 for a falsy key or field or a `null` value, or a
   * field that is not a column; 404 when no row matched; a log entry is
   * written exactly when the update matched a row and the log insert works.
   */
  lemma LegacyUpdateRule(columnNames: seq<string>, t: Table, body: UpdateBody, f: Faults)
    ensures Status(LegacyOutcome(columnNames, t, body, f)) == 400 <==>
              body.Object? && (LegacyMissing(body.req) || !IsColumn(columnNames, body.req.field))
    ensures LegacyOutcome(columnNames, t, body, f) == NothingUpdated <==>
              && body.Object? && !LegacyMissing(body.req) && IsColumn(columnNames, body.req.field)
              && !f.readFails && !f.updateFails && (body.req.pk !in t || f.rowGone)
    ensures LegacyOutcome(columnNames, t, body, f) == Done <==> LegacyWrites(columnNames, t, body, f) && !f.logFails
    ensures Status(LegacyOutcome(columnNames, t, body, f)) == 500 <==>
              || !body.Object?
              || (&& !LegacyMissing(body.req) && IsColumn(columnNames, body.req.field)
                  && (f.readFails || f.updateFails || (body.req.pk in t && !f.rowGone && f.logFails)))
    ensures LegacyWrites(columnNames, t, body, f) && f.logFails ==> LegacyOutcome(columnNames, t, body, f) == ServerError
  {
  }

  /**
   * Where the two handlers part ways: a key of `0` or a `null` value is
   * written by the current handler and refused with 400 by the older one.
   */
  lemma FalsyInputsDiffer(columnNames: seq<string>, t: Table, req: UpdateRequest)
    requires IsColumn(columnNames, req.field) && req.pk in t
    requires req.pk == JInt(0) || (Truthy(req.pk) && req.value.JNull?)
    ensures GeOutcome(columnNames, t, Object(req), Faults(false, false, false, false)) == Done
    ensures LegacyOutcome(columnNames, t, Object(req), Faults(false, false, false, false)) == MissingParams
  {
  }
}
