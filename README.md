# Service-order grids, materials search and page shell of bomweb

bomweb is a FastAPI back office with browser scripts. This project models its core in Dafny and proves properties of that model:

- the two server modules behind the "Gestione GS" service-order grid: the current `ordini_servizi_ge.py` and the older `ordini_servizi.py`. Both declare the same `/api/servizi/ge/*` paths.
- the materials article search in `ordini_materiale_articoli.py`.
- the three scripts that drive those pages: `static/js/ordini_servizi_ge.js`, `static/js/ordini_servizi.js` and `static/js/main.js`.

## Server side

| file | module | what it holds |
|---|---|---|
| `where_clause.dfy` | `WhereClause` | The WHERE-clause builder that both modules share verbatim. Its clauses are a datatype with their SQL rendering. Its bound parameters are a map. The builder is a method with a loop, proved equal to specification functions. Lemmas cover four rules: the month filter (`TUTTO` turns it off), the global search, each column filter (`^...$` with the regex flag gives an exact match, anything else a `LIKE`), and the parameter/clause bookkeeping. |
| `query_builder.dfy` | `QueryBuilder` | The count, data, export and distinct-values statements. |
| `grid_data.dfy` | `GridData` | The grid's data endpoint in both versions: the current one (paged, with a guard for an empty column list) and the older one (unpaged, with fallback order column `ID`). Also the export selection, the export status codes and the month list. |
| `cell_update.dfy` | `CellUpdate` | A database `Session` class holding committed and pending state. The two update handlers run against it, including the rollback when writing the audit log fails. |
| `unique_values.dfy` | `UniqueValues` | The de-duplication loop that feeds every filter list, and the GET and POST distinct-values handlers of both modules. |
| `lex_sort.dfy` | `LexSort` | The lexicographic order and a sort, standing in for Python's `sorted`. |
| `session_columns.dfy` | `SessionColumns` | The column-list endpoint: the session-cookie chain and the role's hidden-column list in the current module, and the older module's plain list. |
| `materials.dfy` | `Materials` | The search filters, the early return when a request has no filters and no order, the order rules and the default order, pagination and row mapping, and the cookie check of the page routes. |

## Browser side

| file | module | what it holds |
|---|---|---|
| `ge_grid_client.dfy` | `GeGridClient` | The Tabulator page as a class (`GeGridPage`), with methods for the cell-edit callback, the RTC select refresh, the table load and the search key. Column mapping, result selection and the cell-update reply are pure functions. |
| `servizi_client.dfy` | `ServiziClient` | The older DataTables page: the active-filter object, the export query and the RTC select refresh. |
| `shell.dfy` | `Shell` | `main.js`: the active menu link, the collapsible sidebar, the chat boxes and the chat submit guards. |

## Shared helpers

`base.dfy` (`Option`, `Result`, scalar `Json`, ordered dictionaries), `text.dfy` (ASCII case mapping, `strip`, `split`, `title`, `int`) and `js_array.dfy` (`Array.from(new Set(...))`).

## Modelling decisions

- **Which module answers.** `main.py` includes the older module's router (line 48) before the current one (line 50), and both declare the same paths. The older handlers therefore answer `/api/servizi/ge/*` requests. Both are modelled, and the client-side compositions say which one a request reaches:
  - `GeGridClient.RefreshWithOlderServer`: the GE page's RTC request carries no `column`. The older POST handler always lists `RTC`, so this works.
  - `GeGridClient.RefreshWithCurrentServer`: the current POST handler would answer 400 to the same request, leaving the select empty.
  - The current column endpoint's role-based hiding never reaches the grid. `GeGridClient.ServerHidingIgnored` shows that even its descriptors would be mapped to visible columns.
- **Database.** The database is abstract. Column names, stored rows, counts and faults are inputs. SQL text is a datatype that renders to the statements the source builds.
- **Faults.** The update chain takes them as an explicit `Faults` value:
  - the read of the old value fails;
  - the `UPDATE` raises;
  - the row is deleted by another connection between the read and the `UPDATE`;
  - writing the log fails.
- **Truncation.** `length` and `start` in the current data handler pass through Python `int()`, modelled as `Text.PyInt`. A JSON boolean becomes 0 or 1, a decimal string in ASCII digits is parsed, and any other string or `null` raises.

## Model

| member | source | states |
|---|---|---|
| WhereClause.BuildWhereClause | ordini_servizi_ge.py:33-75 | The builder's clauses, parameters and SQL equal the specification functions `WhereClauses`, `WhereParams` and `WhereSql`. |
| WhereClause.ColumnSearchClauses | ordini_servizi_ge.py:51-69 | The per-column loop produces exactly `ColumnClauses` and `ColumnParams` of the searches. |
| WhereClause.WhereSqlEmptyIff | ordini_servizi_ge.py:71 | The WHERE text is empty exactly when there are no clauses. |
| WhereClause.ExactValue | ordini_servizi_ge.py:63-64 | `val[1:-1]` of an anchored value: two characters shorter, and `^` + it + `$` gives back the value. |
| WhereClause.ColumnClauses | ordini_servizi_ge.py:51-69 | Column searches only ever add an exact-match or a `LIKE` clause. |
| WhereClause.ColumnStep | ordini_servizi_ge.py:52-69 | Each entry of the searches dictionary adds its clause and its parameter, or nothing. |
| WhereClause.ColumnParamDistinct | ordini_servizi_ge.py:62 | `col_filter_<name>` never collides with `month_filter` or `search_value`, and distinct columns get distinct parameters. |
| WhereClause.ColumnParamsKeys | ordini_servizi_ge.py:62-69 | Every column parameter comes from some searched column. |
| WhereClause.NoColumnParamIsMonthOrSearch | ordini_servizi_ge.py:43-69 | The column parameters never overwrite the month or global search parameter. |
| WhereClause.MonthFilterRule | ordini_servizi_ge.py:40-43 | The month clause and parameter are present exactly when the month is non-empty and is not `TUTTO` after strip/upper. The parameter is the stripped, upper-cased month. |
| WhereClause.GlobalSearchParam | ordini_servizi_ge.py:45-49 | `search_value` is bound exactly when the search is non-empty, to `%SEARCH%`. |
| WhereClause.GlobalSearchRule | ordini_servizi_ge.py:45-49 | Exactly one OR-over-all-columns clause appears when the search is non-empty, and none otherwise. |
| WhereClause.LastParamIsFresh | ordini_servizi_ge.py:52-62 | With distinct column keys, a later column's parameter is not already bound. |
| WhereClause.ColumnParamsAt | ordini_servizi_ge.py:53-69 | A searched column is bound exactly when its filter applies, to that filter's value. |
| WhereClause.ColumnClausesMention | ordini_servizi_ge.py:53-69 | A clause on a column exists only if that column was searched with an applicable filter, and every applicable filter contributes its clause. |
| WhereClause.ColumnFilterRule | ordini_servizi_ge.py:53-69 | A column parameter is bound exactly when the column exists and the value is non-empty. `^v$` with the regex flag binds `UPPER(v)`. Anything else binds `%UPPER(val)%`. |
| WhereClause.ColumnFilterClause | ordini_servizi_ge.py:53-69 | Unknown columns and empty values add no condition on that column. `^v$` with the regex flag adds the `=` condition. Anything else adds the `LIKE` condition. |
| WhereClause.ColumnCountsMatch | ordini_servizi_ge.py:51-69 | One parameter per column clause. |
| WhereClause.ClauseCountMatchesParams | ordini_servizi_ge.py:37-71 | The statement has as many bound parameters as clauses. |
| QueryBuilder.BuildCountQuery | ordini_servizi_ge.py:85-86 | `SELECT COUNT(*) FROM` the table followed by the WHERE text. |
| QueryBuilder.BuildExportQuery | ordini_servizi_ge.py:82-83 | `SELECT *` of the table followed by the WHERE text. |
| QueryBuilder.BuildDataQuery | ordini_servizi_ge.py:88-94 | The export query plus `ORDER BY`. `LIMIT :limit OFFSET :offset` is added exactly when `limit` is not -1. |
| QueryBuilder.BuildUniqueValuesQuery | ordini_servizi_ge.py:99-112 | Distinct values of the named column under the WHERE text, capped at 200. |
| QueryBuilder.CountAndDataShareFilter | ordini_servizi_ge.py:165-172 | The count and data statements carry the same WHERE text. |
| GridData.PyIndex | ordini_servizi.py:133 | Python list indexing: negative indices from the end, anything else outside the list raises. |
| GridData.TextParams | ordini_servizi_ge.py:174 | `{**query_params}` keeps every filter parameter. |
| GridData.GeOrderColumn | ordini_servizi_ge.py:144 | An index past the end falls back to the first column, and a negative one counts from the end. An index below `-len` raises. |
| GridData.ErrorResponse | ordini_servizi_ge.py:188-194 | An error reply has zero counts and no rows. |
| GridData.PrepareStatements | ordini_servizi_ge.py:158-178 | The plan binds the WHERE parameters, plus `limit`/`offset` exactly when the length is not -1. |
| GridData.GetFilteredDataGe | ordini_servizi_ge.py:127-194 | Besides the plan, the method states that `draw` is echoed. "No column names" is reported exactly when parsing succeeds on an empty table. Success means the request parses and the database answers, and then the rows are returned and a `None` count becomes 0. Every failure returns zero counts and no rows. |
| GridData.LegacyOrderColumn | ordini_servizi.py:133 | An index past the end falls back to `ID`, a negative one counts from the end, and one below `-len` raises. |
| GridData.GetFilteredDataLegacy | ordini_servizi.py:120-176 | The same as the current handler, but unpaged: no `limit`/`offset`. The counts are passed through even when `None`. A `columns` list shorter than the table raises, and every failure is "internal". |
| GridData.PagingParamsFresh | ordini_servizi_ge.py:174-177 | `limit` and `offset` never collide with a filter parameter. |
| GridData.GeColumnSearchesComplete | ordini_servizi_ge.py:147-153 | With distinct table column names, every table column whose request entry exists and has text is collected with that entry's search object. |
| GridData.LegacyColumnSearchesRule | ordini_servizi.py:135-139 | The older comprehension raises exactly when `columns` is a non-empty list shorter than the table; otherwise it collects what the current one does. |
| GridData.LegacyColumnSearchesSoundComplete | ordini_servizi.py:135-139 | With distinct column names, the older comprehension collects exactly the table columns whose request entry has text, each with its search object, under unique keys. |
| GridData.GeColumnSearchesSound | ordini_servizi_ge.py:147-153 | Each collected search is some request column `i` with non-empty text, filed under the table column `i`, and there is one per column. |
| GridData.RtcFilterRule | ordini_servizi_ge.py:155-156 | A non-empty RTC filter becomes the `RTC` entry `{value, regex: true}`, replacing any `RTC` column search. An empty one changes nothing. |
| GridData.RtcFilterClause | ordini_servizi_ge.py:155-156 | With `RTC` a table column, an anchored `^x$` filter gives the equality clause bound to `X`. Any other filter, such as the plain option text the browser sends, gives `RTC LIKE` bound to `%VALUE%`, so `AB` also selects `XABY`. |
| GridData.OrderFallbacksDiffer | ordini_servizi.py:133 | Past the end, the current handler orders by the first column and the older one by `ID`. |
| GridData.KnownTruthy | ordini_servizi_ge.py:202-205 | Exactly the entries on known columns with a truthy value are kept. |
| GridData.GetExportData | ordini_servizi_ge.py:196-222 | The export statement and parameters are those of the WHERE builder over the kept filters. A database failure is a 500. Otherwise the rows are returned. |
| GridData.MalformedFiltersIgnored | ordini_servizi_ge.py:199-208 | Absent and malformed `column_filters` both select no column filter. |
| GridData.ExportDropsUnknownAndEmpty | ordini_servizi_ge.py:202-205 | Exported filters are on known columns with truthy values, and unknown columns never pass. |
| GridData.ExportStatusAsWritten | ordini_servizi_ge.py:390-429 | As written, rows give 200 and every other outcome 500. Both versions build their empty-result reply inside the `try`, and `except Exception` turns it into a 500 (`ordini_servizi.py:317-351`). |
| GridData.EmptyExportLooksFailed | ordini_servizi_ge.py:395-397 | As written, an export that matched nothing answers exactly like a failed one: 500. |
| GridData.ExportStatus | ordini_servizi_ge.py:395-398 | Corrected: no rows gives 204 in the current module and 404 in the older one (`ordini_servizi.py:320-321`). A failure stays 500, and rows give 200. |
| GridData.ExportStatusDistinguishes | ordini_servizi_ge.py:395-398 | With the corrected statuses, the code alone tells failure, no rows and rows apart. An empty export is an error status only in the older module. |
| GridData.PresentationMonthsRule | ordini_servizi_ge.py:272-280 | Thirteen months. The first twelve each filter the grid and the last, `TUTTO`, does not. |
| GridData.AllMonthsInactive | ordini_servizi_ge.py:40 | `TUTTO` turns the month filter off. |
| CellUpdate.Updated | ordini_servizi_ge.py:335-343 | The UPDATE changes the one cell and nothing else. |
| CellUpdate.Session.ExecuteUpdate | ordini_servizi_ge.py:343 | It matches one row exactly when the key exists and the row was not deleted meanwhile. Only pending state changes. |
| CellUpdate.Session.Add | ordini_servizi_ge.py:365 | It appends a pending log entry. |
| CellUpdate.Session.Commit | ordini_servizi_ge.py:366 | Pending state becomes committed. |
| CellUpdate.Session.Rollback | ordini_servizi_ge.py:348 | Pending state is dropped. |
| CellUpdate.StrOrNone | ordini_servizi_ge.py:359-360 | `str(x) if x is not None else None`. |
| CellUpdate.UpdateGe | ordini_servizi_ge.py:291-381 | The outcome is `GeOutcome`: a body that is not JSON is a 400, JSON that is not an object a 500. On success the cell is updated and one log entry is committed, holding the cookie user, old and new text, key and column. On every other outcome both table and log are unchanged, which is the rollback. |
| CellUpdate.GeUpdateRule | ordini_servizi_ge.py:293-381 | Success exactly when the body is an object, the key is not null, the field is a column, the row exists and no fault occurs. 400 exactly for a body that is not JSON, a null key or field, or an unknown field. 404 exactly for a missing row, or a vanished one when the UPDATE does not raise. 500 exactly for a non-object body, a failing read, or, on an existing row, a raising UPDATE or a failing log. |
| CellUpdate.UpdateLegacy | ordini_servizi.py:239-307 | The outcome is `LegacyOutcome`. The UPDATE is committed before the log. A log failure is a 500 that leaves the update applied. An unreadable body or a raising UPDATE is a 500 that changes nothing. |
| CellUpdate.LegacyUpdateRule | ordini_servizi.py:239-307 | 400 exactly for an object body with falsy `pk`/`field`, a null value or an unknown field. "Record non trovato" exactly when the UPDATE ran and matched no row. Success exactly when written and logged. 500 exactly for a body that is not a JSON object, a failing read or UPDATE, or a failing log after a match. |
| CellUpdate.FalsyInputsDiffer | ordini_servizi.py:252 | Key `0`, or a null value, is accepted by the current handler and refused by the older one. |
| UniqueValues.DedupValues | ordini_servizi_ge.py:471-481 | The loop over result rows returns `Distinct` of them. |
| UniqueValues.DistinctSpec | ordini_servizi_ge.py:471-481 | No value twice, and every value is stripped and non-empty. |
| UniqueValues.DistinctComplete | ordini_servizi_ge.py:475-481 | Every non-null row with non-blank text contributes its stripped text. |
| UniqueValues.DistinctSound | ordini_servizi_ge.py:475-481 | Every listed value comes from some kept row. |
| UniqueValues.DistinctKeepsFirstSeenOrder | ordini_servizi.py:386-397 | Values stay in first-seen order: the list for a prefix of the rows is a prefix of the list. |
| UniqueValues.NoDuplicatesPermutation | ordini_servizi_ge.py:485 | Sorting a duplicate-free list keeps it duplicate-free. |
| UniqueValues.SortedDistinct | ordini_servizi_ge.py:485 | `sorted(values)` is strictly increasing, has the same members, and keeps them clean. |
| UniqueValues.Lookup | ordini_servizi_ge.py:458 | The first entry under a key, present exactly when the key is. |
| UniqueValues.GeGetSearches | ordini_servizi_ge.py:453-457 | Filters on other known columns with a non-empty plain value, each reduced to that value. |
| UniqueValues.GeGetGlobal | ordini_servizi_ge.py:458 | `filters['search']` that is not an object raises, which is a 500. |
| UniqueValues.GeGetFiltersAreLike | ordini_servizi_ge.py:453-466 | Because the regex flag is dropped, every column filter of this handler is a `LIKE` on another column. |
| UniqueValues.LegacyGetSearches | ordini_servizi.py:368-371 | Entries on known columns with a truthy value, except `global_search`. |
| UniqueValues.LegacyGetGlobal | ordini_servizi.py:372 | An object under `global_search` makes the builder raise, which is a 500. Otherwise its text is the search. |
| UniqueValues.GeUniqueValuesGet | ordini_servizi_ge.py:431-491 | 400 for an unknown column or malformed filters. Otherwise the distinct-values statement over the selected filters. Its rows come back as `SortedDistinct`, and failures are 500. |
| UniqueValues.LegacyUniqueValuesGet | ordini_servizi.py:353-415 | The same selection rules as the current handler, with `global_search`, returning `Distinct` unsorted. |
| UniqueValues.DedupOk | ordini_servizi.py:461-473 | The POST handler's loop answers `Distinct` of the rows. |
| UniqueValues.CollectPostSearches | ordini_servizi_ge.py:519-525 | The loop over `columns` returns `PostSearches`. |
| UniqueValues.PostSearchesRule | ordini_servizi_ge.py:519-525 | Distinct keys, never the target column, only table columns. |
| UniqueValues.PostSearchesCover | ordini_servizi_ge.py:519-525 | Each non-empty request column other than the target is included. |
| UniqueValues.GeUniqueValuesPost | ordini_servizi_ge.py:494-554 | A statement exactly when the body has a non-empty, known `column`. Otherwise 400. The statement's filters are the collected column searches. Rows come back as `SortedDistinct`, and failure is 500. |
| UniqueValues.LegacyUniqueValuesPost | ordini_servizi.py:417-477 | Always the distinct `RTC` values, filtered by month, search and columns. A `columns` list shorter than the table is a 500. Rows come back as `Distinct`. |
| LexSort.SortStrings | ordini_servizi_ge.py:485 | Sorted, and a permutation of the input. |
| LexSort.SortedUnique | ordini_servizi_ge.py:485 | Two sorted permutations of the same values are equal, so `sorted` is determined. |
| SessionColumns.HiddenColumnsRule | ordini_servizi_ge.py:252-254 | A column is hidden exactly when it is a non-empty comma-separated piece after strip. |
| SessionColumns.HiddenColumnsClean | ordini_servizi_ge.py:254 | Hidden names are stripped and contain no comma. |
| SessionColumns.HiddenColumnsRoundTrip | ordini_servizi_ge.py:254 | Joining clean names with commas and parsing gives them back. |
| SessionColumns.Heading | ordini_servizi_ge.py:260 | `col.replace('_', ' ').title()`: same length, no underscore, same letters ignoring case. |
| SessionColumns.Descriptors | ordini_servizi_ge.py:259-262 | One descriptor per column, in order, visible exactly when not hidden. |
| SessionColumns.GeColumns | ordini_servizi_ge.py:231-270 | 401 without a usable session. 500 when the user lookup raises, or when a later lookup raises once the user and role checks pass. Otherwise 404 for an unknown user and 400 without a role. On success every column in order, titled by its heading, hidden exactly when the role's list names it. Each status is stated in both directions. |
| SessionColumns.RoleWithoutRowSeesAll | ordini_servizi_ge.py:251-254 | A role without a permissions row, or with a blank list, sees every column. |
| SessionColumns.LegacyColumnsAsWritten | ordini_servizi.py:213-222 | The column names, or 500 for an empty table, because the 404 raised in the try is caught and re-raised as 500. |
| SessionColumns.LegacyColumnsEmptyTableIs500 | ordini_servizi.py:218-222 | For an empty table the code as written answers 500, not the 404 it raises. |
| SessionColumns.LegacyColumns | ordini_servizi.py:213-222 | The corrected endpoint: the names, or 404 for an empty table. |
| Materials.YearFilters | ordini_materiale_articoli.py:37-38 | No year filter for a missing, empty or `all` year. Otherwise one filter on the parsed year, and none if `int()` fails. |
| Materials.CodiceFilters | ordini_materiale_articoli.py:39-40 | One filter exactly when `codice` is non-empty. |
| Materials.CodicenetFilters | ordini_materiale_articoli.py:41-42 | One filter exactly when `codicenet` is non-empty. |
| Materials.WordFilters | ordini_materiale_articoli.py:44-46 | One `ILIKE %word%` filter per word, in order. |
| Materials.PerformSearchQuery | ordini_materiale_articoli.py:28-47 | The query method builds exactly `SearchFilters`, with no order, and fails exactly when the year does not parse. |
| Materials.AddWordFilters | ordini_materiale_articoli.py:44-46 | The word loop appends `WordFilters` of the words. |
| Materials.FilterCount | ordini_materiale_articoli.py:37-46 | The number of filters is year + codice + codicenet + the number of words. |
| Materials.BadYearFails | ordini_materiale_articoli.py:38 | A year that is neither `all` nor a number makes the search fail. |
| Materials.FiveFilterExample | ordini_materiale_articoli.py:37-46 | A full request gives the year, codice, codicenet and one filter per description word, in that order. |
| Materials.NoFiltersNoConditions | ordini_materiale_articoli.py:54-59 | A request with no filter fields builds no conditions. |
| Materials.BlankDescriptionCountsAsFilter | ordini_materiale_articoli.py:54-59 | A blank description counts as a filter for the early return, yet builds no condition. |
| Materials.SortColumn | ordini_materiale_articoli.py:81-91 | Only indices 2 to 10 are sortable. |
| Materials.ApplyOrder | ordini_materiale_articoli.py:93-100 | The order loop appends `OrderKeys` of the rules. It fails exactly when some `int()` fails. |
| Materials.OrderFailureSticks | ordini_materiale_articoli.py:95-96 | An `int()` failure on an early rule fails the whole request. |
| Materials.OrderKeysRule | ordini_materiale_articoli.py:95-100 | One sort key per known rule, in order, ascending exactly for `asc`. |
| Materials.KnownRules | ordini_materiale_articoli.py:98 | The rules whose index is in the column map. |
| Materials.OrEmpty | ordini_materiale_articoli.py:116-118 | `x or ''`. |
| Materials.MapArticle | ordini_materiale_articoli.py:114-118 | Id and the three text fields, with `None` as `''`. |
| Materials.GetData | ordini_materiale_articoli.py:49-141 | The reply echoes `draw` (0 by default) and the article total. Without filters and order: no rows. Otherwise the paged search with the built filters and order (`start` 0, `length` 10 by default), answered with the count and the mapped page. A 500 exactly when the article count raises, a year or order index fails `int()`, or the paged search raises. |
| Materials.EmptyOrderUsesDefault | ordini_materiale_articoli.py:101-109 | No order gives the five stock columns, each descending. |
| Materials.PageRoute | ordini_materiale_articoli.py:227-240 | Redirect to `/login` exactly when the cookie lacks a truthy `login`. Otherwise the template with that user. |
| Text.Strip | ordini_servizi_ge.py:40 | No leading or trailing whitespace. |
| Text.StripRemovesOnlyEdges | ordini_servizi_ge.py:40 | The result is a slice of the input with only whitespace cut from either end. |
| Text.StripIdempotent | ordini_servizi_ge.py:478 | Stripping twice is stripping once. |
| Text.Upper | ordini_servizi_ge.py:43 | Same length, each letter upper-cased. |
| Text.Words | ordini_materiale_articoli.py:44 | `split()` pieces are non-empty and have no space. |
| Text.WordsKeepAllText | ordini_materiale_articoli.py:44 | The words, concatenated, are the non-space text. |
| Text.SplitJoinRoundTrip | ordini_servizi_ge.py:254 | `','.join(s.split(','))` is `s`. |
| Text.PyTitleKeepsLetters | ordini_servizi_ge.py:260 | `title()` changes only letter case. |
| Text.PyTitleIdempotent | ordini_servizi_ge.py:260 | `title()` twice is `title()` once. |
| Text.JsCapitalizeWordsSpec | static/js/ordini_servizi_ge.js:34 | The `\b\w` capitalisation upper-cases exactly the word starts and is idempotent. |
| Text.ParseIntText | ordini_materiale_articoli.py:38 | `int(str(n)) == n`. |
| Text.PyInt | ordini_servizi_ge.py:130-133 | `int()` of an integer is itself, and of `None` raises. |
| JsArray.Dedup | static/js/ordini_servizi_ge.js:160 | `Array.from(new Set(xs))`: no repeats, the same members, no longer. |
| JsArray.DedupOfNoRepeats | static/js/ordini_servizi_ge.js:160 | A list without repeats is unchanged. |
| JsArray.DedupIdempotent | static/js/ordini_servizi.js:105 | Deduplicating twice is deduplicating once. |
| JsArray.DedupKeepsFirstOrder | static/js/ordini_servizi.js:105 | First-insertion order: the set of a prefix is a prefix of the set. |
| GeGridClient.MapColumns | static/js/ordini_servizi_ge.js:32-57 | One column per name or descriptor, in order, with the field and its title. All are visible, sortable as strings and have no header filter. Editable, with class `editable`, exactly when the field is not `id` ignoring case. |
| GeGridClient.FetchColumns | static/js/ordini_servizi_ge.js:27-58 | A non-OK reply throws "Errore nel recupero colonne". Otherwise the mapped columns. |
| GeGridClient.JsTitleRule | static/js/ordini_servizi_ge.js:34 | A name's title has the same length, no underscore, the same letters ignoring case, and capitalised word starts. |
| GeGridClient.NameTitlesMatchServerHeadings | static/js/ordini_servizi_ge.js:34 | The browser's title and the server's `title()` heading agree ignoring case (`ordini_servizi_ge.py:260`). |
| GeGridClient.ServerHidingIgnored | static/js/ordini_servizi_ge.js:44-57 | Descriptors from the role-aware endpoint (`ordini_servizi_ge.py:259-262`) become columns that are all visible, whatever the role hides. |
| GeGridClient.SelectRows | static/js/ordini_servizi_ge.js:69 | `data.data` of an envelope, even when empty. Otherwise the reply itself. |
| GeGridClient.FetchData | static/js/ordini_servizi_ge.js:61-73 | A non-OK reply throws "Errore nel caricamento dati". Otherwise `SelectRows`. Nothing in the script calls it; the grid's rows come through `AjaxRows`. |
| GeGridClient.AjaxRows | static/js/ordini_servizi_ge.js:267-270 | `response.data` of an envelope. Otherwise no rows. |
| GeGridClient.RowSelectionsCompared | static/js/ordini_servizi_ge.js:69 | The two row selections agree on envelopes. On a bare array the grid's `ajaxResponse` (lines 267-270) shows nothing, while `fetchData` returns the array. |
| GeGridClient.UpdateCell | static/js/ordini_servizi_ge.js:76-86 | True exactly for an OK reply with status `success`. A non-OK reply gives "Errore aggiornamento cella". Otherwise the reply's message, or "Errore update" when it has none. |
| GeGridClient.UpdateCellAgreesWithServer | static/js/ordini_servizi_ge.js:82-84 | Against the current update handler (`ordini_servizi_ge.py:291-381`), the browser succeeds exactly when the server commits. Every refusal reaches the user as the HTTP error. |
| GeGridClient.RtcPayload | static/js/ordini_servizi_ge.js:149-153 | The RTC request has the month, the search text, no column searches and no `column`. |
| GeGridClient.GeGridPage.SetEditMode | static/js/ordini_servizi_ge.js:109-114 | Once the table is built, the toggle sets edit mode. |
| GeGridClient.GeGridPage.OnCellEdit | static/js/ordini_servizi_ge.js:118-129 | In view mode nothing is sent. In edit mode it sends the row's `ID`, the field and the new value. On failure it restores the old value and alerts the error. |
| GeGridClient.GeGridPage.BeginRtcRefresh | static/js/ordini_servizi_ge.js:142-158 | The synchronous part: the select is reset and disabled, and the values are requested only when a month is chosen. |
| GeGridClient.GeGridPage.ReceiveRtcReply | static/js/ordini_servizi_ge.js:159-170 | The reply's de-duplicated values are appended to what the select lists now. It is enabled when there was at least one. A failed request changes nothing. |
| GeGridClient.GeGridPage.RefreshRtcFilter | static/js/ordini_servizi_ge.js:142-171 | Corrected: one refresh at a time. The options are the de-duplicated reply, with no repeats, enabled exactly when non-empty. Without a month the select stays reset. |
| GeGridClient.GeGridPage.OverlappingRtcRefreshes | static/js/ordini_servizi_ge.js:182 | As written, two refreshes can both start before either reply arrives. The options are then the first reply's values followed by the second's. |
| GeGridClient.GeGridPage.LoadOrUpdateTable | static/js/ordini_servizi_ge.js:173-183 | Nothing without a month. The first call builds the table with the action column, or alerts when the columns fail. Later calls reload the data. The RTC select is then refreshed. |
| GeGridClient.GeGridPage.OnDataLoaded | static/js/ordini_servizi_ge.js:323-325 | Loaded rows are `ajaxResponse`'s, then the RTC select is refreshed with the current parameters. |
| GeGridClient.GeGridPage.OnSearchKeyUp | static/js/ordini_servizi_ge.js:197-201 | Only Enter or an emptied box reloads. |
| GeGridClient.EmptyColumnsNoSearches | ordini_servizi.py:441-445 | An empty `columns` list gives the older handler no column searches. |
| GeGridClient.RefreshWithOlderServer | static/js/ordini_servizi_ge.js:142-171 | Served by the older POST handler (`ordini_servizi.py:417-477`), the select lists the distinct RTC values and is enabled exactly when there are some. |
| GeGridClient.OverlapListsTwice | static/js/ordini_servizi_ge.js:323-325 | Two overlapping refreshes each answered `["ROSSI"]` list `ROSSI` twice. |
| GeGridClient.RefreshWithCurrentServer | static/js/ordini_servizi_ge.js:142-171 | The current POST handler (`ordini_servizi_ge.py:501-503`) answers 400, so the select stays empty and disabled. |
| ServiziClient.GetActiveFilters | static/js/ordini_servizi.js:24-40 | The loop builds `ActiveFilters`. |
| ServiziClient.FiltersAfterRule | static/js/ordini_servizi.js:24-40 | One entry per key. `global_search` appears exactly when the global search is non-empty. Each column appears exactly when its search is non-empty. Nothing else appears. |
| ServiziClient.FiltersAfterEntries | static/js/ordini_servizi.js:24-40 | The global search is stored as typed. Each searched column is stored as `{value, regex}`, with `regex` set exactly when the value is anchored by `^` and `$`. |
| ServiziClient.ActiveFiltersRule | static/js/ordini_servizi.js:24-40 | No table gives no filters. Otherwise the rule above over all columns. |
| ServiziClient.VisibleColumns | static/js/ordini_servizi.js:54-60 | Exactly the data names of visible columns. |
| ServiziClient.WithoutGlobal | static/js/ordini_servizi.js:71-76 | Exactly the entries other than `global_search`. |
| ServiziClient.HandleExport | static/js/ordini_servizi.js:42-83 | No table gives "Tabella non inizializzata" and no month gives "Seleziona un mese prima di esportare". Otherwise the export query. |
| ServiziClient.GlobalOfUnique | static/js/ordini_servizi.js:67-69 | A non-empty global search is read back from the filters. |
| ServiziClient.GlobalOfAbsent | static/js/ordini_servizi.js:67 | No `global_search` key, no parameter. |
| ServiziClient.ColumnFiltersMembers | static/js/ordini_servizi.js:71-76 | The column filters are exactly the searched columns' entries. |
| ServiziClient.ExportGlobalRule | static/js/ordini_servizi.js:66-69 | `global_search` is sent exactly when the table's search is non-empty, with that text. |
| ServiziClient.ExportColumnFiltersRule | static/js/ordini_servizi.js:71-79 | `column_filters` is sent exactly when some column is searched. |
| ServiziClient.ExportQueryRule | static/js/ordini_servizi.js:62-79 | Month, visible columns, then `global_search` if searched, then `column_filters` if any column is searched. |
| ServiziClient.OneEntryPerKey | static/js/ordini_servizi.js:36 | A filters object holds one value per key. |
| ServiziClient.ServerFilters | static/js/ordini_servizi.js:78 | The JSON filter object, as the server reads it, keeps keys and order. |
| ServiziClient.ExportedFilterReachesServer | static/js/ordini_servizi.js:71-79 | A searched column reaches the export's WHERE builder (`ordini_servizi_ge.py:199-214`). Anchored text is an exact match, and anything else a `LIKE`. |
| ServiziClient.ServiziPage.AddOptions | static/js/ordini_servizi.js:109 | Options are appended in order. |
| ServiziClient.ServiziPage.AggiornaFiltroRtcAsWritten | static/js/ordini_servizi.js:85-117 | As written, the select is cleared and disabled first. When the values equal the last ones, it returns with the select empty. |
| ServiziClient.ServiziPage.AggiornaFiltroRtc | static/js/ordini_servizi.js:85-117 | Corrected: the comparison comes before the reset. With a month and a reply, the options are the de-duplicated values, enabled exactly when non-empty. Unchanged values keep the selection. |
| ServiziClient.ServiziPage.Reset | static/js/ordini_servizi.js:90-91 | An empty, disabled select. |
| ServiziClient.ServiziPage.OnGenericSearchKeyUp | static/js/ordini_servizi.js:132-139 | Only Enter or an emptied box, with the table ready, redraws. The RTC select is then refreshed by `aggiornaFiltroRTC` as written: it is always reset to its placeholder, and it is listed again only when the reply differs from the last one. |
| ServiziClient.DedupEmpty | static/js/ordini_servizi.js:105-108 | The de-duplicated list is empty exactly when the reply is. |
| ServiziClient.SecondRefreshEmptiesSelect | static/js/ordini_servizi.js:85-117 | As written, a second refresh with the same reply leaves the select empty and disabled. |
| ServiziClient.SecondRefreshKeepsSelect | static/js/ordini_servizi.js:85-117 | Corrected, the same two refreshes leave the value listed and enabled. |
| Shell.BestAfter | static/js/main.js:39-45 | The chosen link is among those scanned. |
| Shell.BestAfterRule | static/js/main.js:34-45 | The chosen link is a non-empty prefix of the path, the longest one, and the first among equals. There is none exactly when no non-empty `href` is a prefix. |
| Shell.BestMatchRule | static/js/main.js:34-45 | The same over all menu links. |
| Shell.Menu.UpdateActiveMenu | static/js/main.js:34-55 | Exactly the best link is active. At most one is active, and none exactly when no link matches. |
| Shell.PersistedRoundTrip | static/js/main.js:7-25 | A stored state reads back as itself on a window wider than 992 and as expanded otherwise. |
| Shell.Sidebar.ApplySidebarState | static/js/main.js:7-13 | Collapsed exactly when `true` is stored and the window is wider than 992. |
| Shell.Sidebar.Resize | static/js/main.js:16 | A resize re-applies the stored state to the new width. |
| Shell.Sidebar.PinToggle | static/js/main.js:19-27 | The state flips and its text is stored. |
| Shell.ToggleThenResize | static/js/main.js:7-27 | A toggle survives a resize on a wide window. A narrow window expands the sidebar. |
| Shell.ChatBox.LoadMessages | static/js/main.js:252-264 | The box re-renders and remembers the data exactly when it exists and the data changed. Otherwise nothing changes. The group box (lines 306-316) is the same class. |
| Shell.LoadTwice | static/js/main.js:176-188 | The same data twice renders at most once. |
| Shell.PublicPost | static/js/main.js:266-279 | Nothing is sent for a blank message. Otherwise the trimmed text, without a group. |
| Shell.GroupPost | static/js/main.js:318-331 | Nothing is sent for a blank message or while the group id is `null`. Otherwise the trimmed text with that id. |
| Shell.SentMessagesTrimmed | static/js/main.js:193-198 | A sent message is never blank and is already trimmed. |
| Shell.ChatForm.Submit | static/js/main.js:318-331 | The group form, and the public form with the single listener evidently intended: a guarded submit changes nothing. Otherwise the body is posted once, and the input is cleared exactly when the fetch resolves. |
| Shell.ChatForm.SubmitPublicAsWritten | static/js/main.js:190-212 | As written, the public form has two submit listeners (this one and lines 266-279). A message that passes the guard is posted twice, and the input is cleared when either fetch resolves. |
| Shell.PublicSubmitPostsTwice | static/js/main.js:266-279 | One public submit of `ciao` posts it twice as written, and once as intended. |

## Left out

- I/O, timestamps and the response plumbing: `traceback` printing, `datetime.utcnow()` in the log entry, the Jinja templates, and the xlsx and CSV writers of the export routes. The routes' bodies beyond the status choice are out of scope.
- Floating point: the materials rows' stock quantities and the discounted `Importo` with `round(..., 2)`.
- Database matching: which rows a WHERE clause selects, and the type coercion MySQL applies to `pk`. The model carries the clauses and parameters the statements bind and takes the answers as inputs.
- The updated-row count is taken as the number of matched rows. SQLAlchemy's MySQL dialects report found rows, so a write of an unchanged value still counts as one.
- UniqueValues.LegacyUniqueValuesGet: the `isoformat` branch for date values is not modelled, because values reach the model as JSON scalars.
- UniqueValues.LegacyUniqueValuesPost: a body that arrives as a JSON string and is parsed again is not modelled. The model takes the decoded body.
- The materials export route and the other page routes. They reuse `_perform_search_query` and the cookie check modelled by `Materials.PageRoute`. `static/js/materiali.js` is not part of this model.
- Materials.GetData: `start` and `length` are taken as integers when present, not arbitrary JSON.
- Whitespace inside the distinct-values SQL text. The statement is a datatype, and its rendering is stated only for its tail.
- `static/js/ordini_servizi.js` never assigns `table`. The model takes the table as an input (`None` when absent), so every branch stays reachable.
- `static/js/ordini_servizi.js`: JavaScript's ordering of integer-like object keys before string keys is not modelled. Column data names are taken to be non-numeric.
- Tabulator and DataTables internals (rendering, header filters, `setOptions`, row deletion from the action column), `populateMonthFilter`, the export buttons, `loadPage` and tab loading, online users, and reply bodies that are not lists of strings.
- Text.Strip: only space, tab, line feed, vertical tab, form feed and carriage return are stripped. Python's `strip` also removes `\x1c`-`\x1f` and the Unicode spaces. JavaScript's `trim` removes the Unicode spaces but not `\x1c`-`\x1f`.
- Text.Words: whitespace is the same six characters. Python's `split()` also splits on `\x1c`-`\x1f`, U+0085, U+00A0 and the other Unicode spaces.
- Text.PyInt: through `Text.ParseInt`, only ASCII decimal digits are read. Python's `int()` also accepts underscores between digits (`"1_000"`) and non-ASCII digits, which give `None` here. So a year `"2_024"` fails `Materials.YearFilters` where Python parses it.
- SessionColumns.Heading: through `Text.PyTitle`, only ASCII letters count as cased. Python's `"élite".title()` is `"Élite"`, while the model gives `"éLite"`.
- Request shapes: `GridData.GridRequest`, `WhereClause.SearchObj`, `UniqueValues.UniquePost` and the JSON scalars cannot hold a non-string `month_filter`, `rtc_filter` or search value, a `null` month, or a `search` that is not an object. In the source each of these raises inside the handler's `try` and gives its error reply or a 500. The model has no input for such requests.
- Materials.SearchFields holds only text or a missing value. A numeric `year` reaches `.lower()` (`ordini_materiale_articoli.py:37`, `:58`) and gives a 500 in the source, which the model cannot express.
- GridData.FilterText cannot hold a `column_filters` that is valid JSON but not an object. `.items()` then raises (`ordini_servizi_ge.py:203`) and the export answers 500; the distinct-values handlers, which share the type, raise too.
- WhereClause.SearchObj: every search object counts as truthy, so an empty object `{}`, which Python treats as false, cannot be told from one with keys. In the source `{}` as a column-filter value (`ordini_servizi_ge.py:204`) or as `global_search` (`ordini_servizi.py:372`) is skipped. The model keeps such a column filter, and answers `{}` as `global_search` with the 500 of `UniqueValues.LegacyGetGlobal`.
- GeGridClient.GeGridPage.LoadOrUpdateTable: its RTC refresh is taken to finish before any other starts. The source does not await it (`static/js/ordini_servizi_ge.js:182`). The overlap is modelled apart, by `GeGridPage.OverlappingRtcRefreshes` (see Findings).
- GeGridClient.GeGridPage.OnDataLoaded: the same for the refresh of the `dataLoaded` event (`static/js/ordini_servizi_ge.js:323-325`).
- Text.Upper: only ASCII letters are mapped, and Python's full Unicode case mapping is not modelled.
- Shell.ChatForm.Submit: the message reload that a resolved POST triggers is `Shell.ChatBox.LoadMessages`, kept as a separate step that Submit does not call, because the reply's content is not modelled.
- Shell.ChatBox.LoadMessages: equality of `JSON.stringify` output is modelled as equality of the message lists, because the server emits each message's keys in one fixed order.

## Findings

| source | as written | input that shows it | evidently intended | confidence | as-written member | corrected member |
|---|---|---|---|---|---|---|
| ordini_servizi.py:213-222 | The `HTTPException(404)` raised for a table without columns is inside the `try` and is caught by `except Exception`, so the reply is a 500. | a table whose column list is empty | 404 "Nessuna colonna trovata nella tabella" | not executed | SessionColumns.LegacyColumnsAsWritten | SessionColumns.LegacyColumns |
| ordini_servizi.py:317-351 | The `HTTPException(404)` raised for an export with no rows is inside the `try`, and `except Exception` turns it into a 500. | an export whose filters match no row | 404 "Nessun dato trovato per l'esportazione con i filtri applicati." | not executed | GridData.ExportStatusAsWritten | GridData.ExportStatus |
| ordini_servizi_ge.py:390-429 | The no-rows reply `JSONResponse(status_code=204)` omits the `content` argument that Starlette's `JSONResponse` requires. The `TypeError` ends in the handler's `except Exception` as a 500. This relies on the library's signature. | an export whose filters match no row | 204 No Content, which the comment calls not an error | not executed | GridData.ExportStatusAsWritten | GridData.ExportStatus |
| static/js/main.js:190-212 | `#chat-form` gets two `submit` listeners, one from `initChat` (registered at lines 210-212) and one at the top level (lines 266-279). Both read the input before either reply clears it, so one submit posts the message twice and reloads the messages twice. | one submit of `ciao` in the public chat | one post per submit | not executed | Shell.ChatForm.SubmitPublicAsWritten | Shell.ChatForm.Submit |
| static/js/ordini_servizi_ge.js:173-183 | Neither RTC refresh is awaited. The one from the `dataLoaded` event (lines 323-325) and the one after the table load can both reset the select before either reply arrives. Each reply is then appended, so the values are listed twice (the older server answers a list). | a month change whose two refreshes both receive `["ROSSI"]` after both resets | each value listed once | not executed | GeGridClient.GeGridPage.OverlappingRtcRefreshes | GeGridClient.GeGridPage.RefreshRtcFilter |
| static/js/ordini_servizi.js:85-117 | The RTC select is cleared and disabled before the "same values as last time" early return, so a refresh whose values did not change leaves only the placeholder, disabled. The select's own `change` handler runs this refresh, so picking an RTC empties the list. | two refreshes with month `GENNAIO` whose replies are both `["ROSSI"]` | compare first, and keep the listed values when unchanged | not executed | ServiziClient.ServiziPage.AggiornaFiltroRtcAsWritten | ServiziClient.ServiziPage.AggiornaFiltroRtc |
