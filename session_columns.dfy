/**
 * The column list of the service-order grid (`/api/servizi/ge/columns`).
 *
 * The current module reads the `session` cookie, checks the user and the
 * role, and hides the columns the role's permission row lists in its
 * comma-separated `colonne_ordini_servizio_ge` text. The older module
 * returns the bare column names.
 */
module SessionColumns {
  import opened Base
  import opened Text

  /** The `session` cookie as the handler reads it. */
  datatype SessionCookie =
    | NoCookie                           // absent or empty
    | Unreadable                         // not a JSON object
    | Session(id: Json, ruoloId: Json)   // its `id` and `ruolo_id` entries (JNull when absent)

  /** One entry of the reply: the column, its heading and whether it is shown. */
  datatype ColumnDescriptor = ColumnDescriptor(field: string, title: string, visible: bool)

  /** The HTTP statuses of the session chain. */
  const Unauthenticated: int := 401
  const UserNotFound: int := 404
  const RoleMissing: int := 400
  /** The status of the `HTTPException` the handler's `except Exception` raises. */
  const LookupFailed: int := 500

  /**
   * Which database lookup of the columns handler raises, if any: the user
   * lookup, or one made after the user and role checks (the permission row
   * or the table's column names).
   */
  datatype LookupFailure = NoFailure | UserLookupFails | LaterLookupFails

  // ---------------------------------------------------------------------
  // Hidden columns
  // ---------------------------------------------------------------------

  /** Each piece stripped. */
  function StripAll(parts: seq<string>): (r: seq<string>)
    ensures |r| == |parts| && forall k | 0 <= k < |parts| :: r[k] == Strip(parts[k])
  {
    seq(|parts|, k requires 0 <= k < |parts| => Strip(parts[k]))
  }

  /** The non-empty pieces, in order. */
  function NonEmpty(parts: seq<string>): (r: seq<string>)
    ensures |r| <= |parts|
  {
    if parts == [] then []
    else
      var rest := NonEmpty(parts[1..]);
      if parts[0] != "" then [parts[0]] + rest else rest
  }

  /** The columns a permission text hides: its comma-separated names, stripped, empty ones dropped. */
  function HiddenColumns(spec: string): seq<string>
  {
    NonEmpty(StripAll(SplitOn(spec, ',')))
  }

  /** The non-empty pieces are exactly the pieces that are not empty. */
  lemma {:induction false} NonEmptyMembers(parts: seq<string>, c: string)
    ensures c in NonEmpty(parts) <==> c != "" && c in parts
  {
    if parts != [] {
      NonEmptyMembers(parts[1..], c);
      assert parts == [parts[0]] + parts[1..];
    }
  }

  /**
   * A column is hidden exactly when one of the comma-separated pieces of the
   * permission text, once stripped, is its name.
   */
  lemma HiddenColumnsRule(spec: string, column: string)
    ensures column in HiddenColumns(spec) <==> column != "" && column in StripAll(SplitOn(spec, ','))
  {
    NonEmptyMembers(StripAll(SplitOn(spec, ',')), column);
  }

  /** Every hidden name is stripped and holds no comma. */
  lemma HiddenColumnsClean(spec: string, column: string)
    requires column in HiddenColumns(spec)
    ensures Strip(column) == column && ',' !in column
  {
    var parts := SplitOn(spec, ',');
    var stripped := StripAll(parts);
    NonEmptyMembers(stripped, column);
    var k :| 0 <= k < |stripped| && stripped[k] == column;
    StripIdempotent(parts[k]);
    StripKeepsOut(parts[k], ',');
  }

  /** Names written without padding or commas come back from their comma-joined text unchanged. */
  lemma {:induction false} HiddenColumnsRoundTrip(names: seq<string>)
    requires forall k | 0 <= k < |names| :: names[k] != "" && ',' !in names[k] && Strip(names[k]) == names[k]
    ensures HiddenColumns(JoinWith(names, ',')) == names
  {
    if names != [] {
      SplitJoinPieces(names);
      assert StripAll(names) == names;
      NonEmptyAll(names);
    }
  }

  /** Splitting a comma-joined list of comma-free names gives the names back. */
  lemma {:induction false} SplitJoinPieces(names: seq<string>)
    requires names != []
    requires forall k | 0 <= k < |names| :: ',' !in names[k]
    ensures SplitOn(JoinWith(names, ','), ',') == names
  {
    if |names| == 1 {
      SplitNoSep(names[0]);
    } else {
      SplitJoinPieces(names[1..]);
      SplitAppend(names[0], JoinWith(names[1..], ','));
    }
  }

  lemma {:induction false} SplitNoSep(s: string)
    requires ',' !in s
    ensures SplitOn(s, ',') == [s]
  {
    if s != [] {
      SplitNoSep(s[1..]);
      assert s == [s[0]] + s[1..];
    }
  }

  /** `SplitOn(a + "," + b) == [a] + SplitOn(b)` for a comma-free `a`. */
  lemma {:induction false} SplitAppend(a: string, b: string)
    requires ',' !in a
    ensures SplitOn(a + [','] + b, ',') == [a] + SplitOn(b, ',')
  {
    var s := a + [','] + b;
    if a == [] {
      assert s == [','] + b;
      assert s[1..] == b;
    } else {
      assert s[1..] == a[1..] + [','] + b;
      SplitAppend(a[1..], b);
      assert a == [a[0]] + a[1..];
    }
  }

  lemma {:induction false} NonEmptyOfEmpties(parts: seq<string>)
    requires forall k | 0 <= k < |parts| :: parts[k] == ""
    ensures NonEmpty(parts) == []
  {
    if parts != [] {
      NonEmptyOfEmpties(parts[1..]);
    }
  }

  /** Stripping keeps a character out that the text did not contain. */
  lemma StripKeepsOut(s: string, c: char)
    requires c !in s
    ensures c !in Strip(s)
  {
    var l := LStrip(s);
    var r := RStrip(l);
    forall k | 0 <= k < |r| ensures r[k] != c {
      assert r[k] == l[k] == s[|s| - |l| + k];
    }
  }

  lemma {:induction false} NonEmptyAll(names: seq<string>)
    requires forall k | 0 <= k < |names| :: names[k] != ""
    ensures NonEmpty(names) == names
  {
    if names != [] {
      assert names[0] != "";
      NonEmptyAll(names[1..]);
    }
  }

  // ---------------------------------------------------------------------
  // Column descriptors
  // ---------------------------------------------------------------------

  /** `col.replace('_', ' ').title()`. */
  function Heading(column: string): (h: string)
    ensures |h| == |column|
    ensures '_' !in h
    ensures Lower(h) == Lower(ReplaceChar(column, '_', ' '))
  {
    var spaced := ReplaceChar(column, '_', ' ');
    PyTitleKeepsLetters(spaced);
    var h := PyTitle(spaced);
    assert forall i | 0 <= i < |h| :: h[i] == '_' ==> spaced[i] == '_';
    h
  }

  /** One descriptor per table column, in table order, shown unless hidden. */
  function Descriptors(columnNames: seq<string>, hidden: seq<string>): (r: seq<ColumnDescriptor>)
    ensures |r| == |columnNames|
    ensures forall i | 0 <= i < |r| ::
              r[i].field == columnNames[i] && r[i].title == Heading(columnNames[i])
              && (r[i].visible <==> columnNames[i] !in hidden)
  {
    seq(|columnNames|, i requires 0 <= i < |columnNames| =>
      ColumnDescriptor(columnNames[i], Heading(columnNames[i]), columnNames[i] !in hidden))
  }

  // ---------------------------------------------------------------------
  // The handlers
  // ---------------------------------------------------------------------

  /** The session passes the cookie checks. */
  predicate Authenticated(cookie: SessionCookie)
  {
    cookie.Session? && Truthy(cookie.id)
  }

  /**
   * `get_gestione_gs_columns` of the current module. `users` are the keys of
   * existing users, `hiddenByRole` the permission text of each role that
   * has a permission row with a non-empty text, and `failure` the lookup
   * that raises, which the handler answers with a 500.
   */
  function GeColumns(cookie: SessionCookie, users: set<Json>, hiddenByRole: map<Json, string>,
                     columnNames: seq<string>, failure: LookupFailure): (r: Result<seq<ColumnDescriptor>, int>)
    ensures r == Err(Unauthenticated) <==> !Authenticated(cookie)
    ensures r == Err(LookupFailed) <==>
              Authenticated(cookie)
              && (failure.UserLookupFails?
                  || (failure.LaterLookupFails? && cookie.id in users && Truthy(cookie.ruoloId)))
    ensures r == Err(UserNotFound) <==> Authenticated(cookie) && !failure.UserLookupFails? && cookie.id !in users
    ensures r == Err(RoleMissing) <==>
              Authenticated(cookie) && !failure.UserLookupFails? && cookie.id in users && !Truthy(cookie.ruoloId)
    ensures r.Ok? <==> Authenticated(cookie) && failure.NoFailure? && cookie.id in users && Truthy(cookie.ruoloId)
    ensures r.Ok? ==> |r.value| == |columnNames|
    ensures r.Ok? ==> forall i | 0 <= i < |r.value| ::
              r.value[i].field == columnNames[i] && r.value[i].title == Heading(columnNames[i])
              && (!r.value[i].visible <==>
                    cookie.ruoloId in hiddenByRole && columnNames[i] in HiddenColumns(hiddenByRole[cookie.ruoloId]))
  {
    if !Authenticated(cookie) then Err(Unauthenticated)
    else if failure.UserLookupFails? then Err(LookupFailed)
    else if cookie.id !in users then Err(UserNotFound)
    else if !Truthy(cookie.ruoloId) then Err(RoleMissing)
    else if failure.LaterLookupFails? then Err(LookupFailed)
    else
      var hidden := if cookie.ruoloId in hiddenByRole then HiddenColumns(hiddenByRole[cookie.ruoloId]) else [];
      Ok(Descriptors(columnNames, hidden))
  }

  /** A role without a permission row, or with an empty text, sees every column. */
  lemma RoleWithoutRowSeesAll(cookie: SessionCookie, users: set<Json>, hiddenByRole: map<Json, string>,
                              columnNames: seq<string>)
    requires Authenticated(cookie) && cookie.id in users && Truthy(cookie.ruoloId)
    requires cookie.ruoloId !in hiddenByRole || Strip(hiddenByRole[cookie.ruoloId]) == ""
    ensures var r := GeColumns(cookie, users, hiddenByRole, columnNames, NoFailure);
            r.Ok? && forall d | d in r.value :: d.visible
  {
    if cookie.ruoloId in hiddenByRole {
      var parts := SplitOn(hiddenByRole[cookie.ruoloId], ',');
      forall k | 0 <= k < |parts| ensures StripAll(parts)[k] == "" {
        OnlySpacePieces(hiddenByRole[cookie.ruoloId], k);
      }
      NonEmptyOfEmpties(StripAll(parts));
    }
  }

  /** A text that strips to nothing splits into pieces that strip to nothing. */
  lemma OnlySpacePieces(spec: string, k: nat)
    requires Strip(spec) == "" && k < |SplitOn(spec, ',')|
    ensures Strip(SplitOn(spec, ',')[k]) == ""
  {
    StripEmptyIff(spec);
    PiecesOfSpace(spec);
    StripEmptyIff(SplitOn(spec, ',')[k]);
  }

  lemma {:induction false} PiecesOfSpace(s: string)
    requires AllSpace(s)
    ensures forall k | 0 <= k < |SplitOn(s, ',')| :: AllSpace(SplitOn(s, ',')[k])
  {
    if s != [] {
      PiecesOfSpace(s[1..]);
      assert IsSpace(s[0]);
    }
  }

  /**
   * `get_gestione_gs_columns` of the older module as written: the names of
   * the table's columns; with no columns the 404 it raises inside its
   * `try` is caught by its own `except Exception` and becomes a 500.
   */
  function LegacyColumnsAsWritten(columnNames: seq<string>): (r: Result<seq<string>, int>)
    ensures r.Ok? <==> columnNames != []
    ensures r.Ok? ==> r.value == columnNames
    ensures r.Err? ==> r.error == 500
  {
    if columnNames == [] then Err(500) else Ok(columnNames)
  }

  /** The table without columns: the older handler answers 500 where it raises 404. */
  lemma LegacyColumnsEmptyTableIs500()
    ensures LegacyColumnsAsWritten([]) == Err(500)
    ensures LegacyColumnsAsWritten([]) != LegacyColumns([])
  {
  }

  /** The older handler as intended: the names, or 404 when the table has none. */
  function LegacyColumns(columnNames: seq<string>): (r: Result<seq<string>, int>)
    ensures r.Ok? <==> columnNames != []
    ensures r.Ok? ==> r.value == columnNames
    ensures r.Err? ==> r.error == 404
  {
    if columnNames == [] then Err(404) else Ok(columnNames)
  }
}
