/**
 * `FilterManager.build_where_clause` of the service-order grids: turns the
 * month partition, the global search string and the per-column searches into
 * a list of SQL conditions and the named parameters they refer to. The same
 * code appears in ordini_servizi_ge.py and in ordini_servizi.py (which only
 * adds debug prints), so one model serves both.
 *
 * SQL text is kept abstract: a `Clause` names the condition and `ClauseSql`
 * gives the exact fragment the handler writes.
 */
module WhereClause {
  import opened Base
  import opened Text

  /** One value of `column_searches`: DataTables' `{value, regex}` object, or a bare value. */
  datatype SearchObj =
    | SearchDict(value: Option<string>, regex: bool)
    | Bare(text: string)

  /** The conditions `build_where_clause` can produce. */
  datatype Clause =
    | MonthEq                               // UPPER(TRIM(`MesePresentazione`)) = :month_filter
    | AnyColumnLike(columns: seq<string>)   // (UPPER(TRIM(CAST(`c` AS CHAR))) LIKE :search_value OR ...)
    | ColumnEq(column: string)              // UPPER(TRIM(CAST(`c` AS CHAR))) = :col_filter_c
    | ColumnLike(column: string)            // UPPER(TRIM(CAST(`c` AS CHAR))) LIKE :col_filter_c

  const MonthParam: string := "month_filter"
  const SearchParam: string := "search_value"
  const ColumnParamPrefix: string := "col_filter_"
  /** The month value that means "every month". */
  const AllMonths: string := "TUTTO"

  function ColumnParam(column: string): string
  {
    ColumnParamPrefix + column
  }

  // ---------------------------------------------------------------------
  // SQL text of the conditions
  // ---------------------------------------------------------------------

  function JoinSql(sep: string, parts: seq<string>): string
  {
    if parts == [] then ""
    else if |parts| == 1 then parts[0]
    else parts[0] + sep + JoinSql(sep, parts[1..])
  }

  function CastUpperTrim(column: string): string
  {
    "UPPER(TRIM(CAST(`" + column + "` AS CHAR)))"
  }

  function ClauseSql(c: Clause): string
  {
    match c
    case MonthEq => "UPPER(TRIM(`MesePresentazione`)) = :" + MonthParam
    case AnyColumnLike(columns) =>
      "(" + JoinSql(" OR ", seq(|columns|, i requires 0 <= i < |columns| =>
                               CastUpperTrim(columns[i]) + " LIKE :" + SearchParam)) + ")"
    case ColumnEq(column) => CastUpperTrim(column) + " = :" + ColumnParam(column)
    case ColumnLike(column) => CastUpperTrim(column) + " LIKE :" + ColumnParam(column)
  }

  /** `" WHERE " + " AND ".join(where_clauses) if where_clauses else ""` */
  function WhereSql(clauses: seq<Clause>): string
  {
    if clauses == [] then ""
    else " WHERE " + JoinSql(" AND ", seq(|clauses|, i requires 0 <= i < |clauses| => ClauseSql(clauses[i])))
  }

  /** The WHERE text is empty exactly when no condition was produced. */
  lemma WhereSqlEmptyIff(clauses: seq<Clause>)
    ensures WhereSql(clauses) == "" <==> clauses == []
  {
    if clauses != [] {
      assert WhereSql(clauses)[0] == ' ';
    }
  }

  // ---------------------------------------------------------------------
  // Specification of the conditions and parameters
  // ---------------------------------------------------------------------

  /** `month_filter and month_filter.strip().upper() != 'TUTTO'` */
  predicate MonthActive(month: string)
  {
    month != "" && Upper(Strip(month)) != AllMonths
  }

  /** Python truthiness of the optional global search string. */
  predicate SearchActive(search: Option<string>)
  {
    search.Some? && search.value != ""
  }

  /** `val` as the handler reads it out of a search object (`None` reads as empty). */
  function SearchText(obj: SearchObj): string
  {
    match obj
    case SearchDict(v, _) => v.GetOr("")
    case Bare(t) => t
  }

  /** `is_regex and val.startswith('^') and val.endswith('$')` */
  predicate IsExactPattern(obj: SearchObj)
  {
    obj.SearchDict? && obj.regex && StartsWith(SearchText(obj), "^") && EndsWith(SearchText(obj), "$")
  }

  /** `val[1:-1]` of an exact pattern `^x$`: the `x`. */
  function ExactValue(val: string): (x: string)
    requires StartsWith(val, "^") && EndsWith(val, "$")
    ensures |x| == |val| - 2 && val == "^" + x + "$"
  {
    assert val[0] == '^' && val[|val| - 1] == '$';
    val[1..|val| - 1]
  }

  /**
   * The condition and parameter value one entry of `column_searches` adds:
   * none for a column the table does not have or an empty value, an equality
   * for an exact regex pattern, a LIKE on the upper-cased value otherwise.
   */
  function ColumnFilter(columnNames: seq<string>, column: string, obj: SearchObj): Option<(Clause, string)>
  {
    var val := SearchText(obj);
    if column !in columnNames || val == "" then None
    else if IsExactPattern(obj) then Some((ColumnEq(column), Upper(ExactValue(val))))
    else Some((ColumnLike(column), "%" + Upper(val) + "%"))
  }

  function ColumnClauses(columnNames: seq<string>, searches: seq<(string, SearchObj)>): (cs: seq<Clause>)
    ensures forall c | c in cs :: c.ColumnEq? || c.ColumnLike?
  {
    if searches == [] then []
    else
      var last := searches[|searches| - 1];
      ColumnClauses(columnNames, searches[..|searches| - 1]) +
      match ColumnFilter(columnNames, last.0, last.1)
      case None => []
      case Some(f) => [f.0]
  }

  function ColumnParams(columnNames: seq<string>, searches: seq<(string, SearchObj)>): map<string, string>
  {
    if searches == [] then map[]
    else
      var last := searches[|searches| - 1];
      var ps := ColumnParams(columnNames, searches[..|searches| - 1]);
      match ColumnFilter(columnNames, last.0, last.1)
      case None => ps
      case Some(f) => ps[ColumnParam(last.0) := f.1]
  }

  function MonthClauses(month: string): seq<Clause>
  {
    if MonthActive(month) then [MonthEq] else []
  }

  function SearchClauses(columnNames: seq<string>, search: Option<string>): seq<Clause>
  {
    if SearchActive(search) then [AnyColumnLike(columnNames)] else []
  }

  /** The conditions, in the order the handler appends them. */
  function WhereClauses(columnNames: seq<string>, month: string, search: Option<string>,
                        searches: seq<(string, SearchObj)>): seq<Clause>
  {
    MonthClauses(month) + SearchClauses(columnNames, search) + ColumnClauses(columnNames, searches)
  }

  function MonthParams(month: string): map<string, string>
  {
    if MonthActive(month) then map[MonthParam := Upper(Strip(month))] else map[]
  }

  function SearchParams(search: Option<string>): map<string, string>
  {
    if SearchActive(search) then map[SearchParam := "%" + Upper(search.value) + "%"] else map[]
  }

  /** The parameter map `query_params`. */
  function WhereParams(month: string, search: Option<string>, columnNames: seq<string>,
                       searches: seq<(string, SearchObj)>): map<string, string>
  {
    MonthParams(month) + SearchParams(search) + ColumnParams(columnNames, searches)
  }

  lemma UpdateIsUnion<K, V>(m: map<K, V>, k: K, v: V)
    ensures m[k := v] == m + map[k := v]
  {
  }

  /** How the column conditions and parameters grow by one entry. */
  lemma ColumnStep(columnNames: seq<string>, searches: seq<(string, SearchObj)>, i: nat)
    requires i < |searches|
    ensures var f := ColumnFilter(columnNames, searches[i].0, searches[i].1);
            && ColumnClauses(columnNames, searches[..i + 1]) ==
                 ColumnClauses(columnNames, searches[..i]) + (if f.Some? then [f.value.0] else [])
            && ColumnParams(columnNames, searches[..i + 1]) ==
                 (if f.Some? then ColumnParams(columnNames, searches[..i])[ColumnParam(searches[i].0) := f.value.1]
                  else ColumnParams(columnNames, searches[..i]))
  {
    assert searches[..i + 1][..i] == searches[..i];
  }

  // ---------------------------------------------------------------------
  // The handler
  // ---------------------------------------------------------------------

  method BuildWhereClause(columnNames: seq<string>, month: string, search: Option<string>,
                          searches: seq<(string, SearchObj)>)
    returns (whereSql: string, clauses: seq<Clause>, params: map<string, string>)
    ensures clauses == WhereClauses(columnNames, month, search, searches)
    ensures params == WhereParams(month, search, columnNames, searches)
    ensures whereSql == WhereSql(clauses)
  {
    clauses, params := MonthCondition(month);
    clauses, params := AddSearchCondition(columnNames, search, clauses, params);
    var columnClauses, columnParams := ColumnSearchClauses(columnNames, searches);
    WhereParamsSplit(month, search, columnNames, searches, params, columnParams);
    clauses := clauses + columnClauses;
    params := params + columnParams;
    whereSql := if clauses == [] then "" else WhereSql(clauses);
  }

  lemma WhereParamsSplit(month: string, search: Option<string>, columnNames: seq<string>,
                         searches: seq<(string, SearchObj)>, prefix: map<string, string>, columns: map<string, string>)
    requires prefix == MonthParams(month) + SearchParams(search)
    requires columns == ColumnParams(columnNames, searches)
    ensures prefix + columns == WhereParams(month, search, columnNames, searches)
  {
  }

  /** The month condition `build_where_clause` starts with. */
  method MonthCondition(month: string) returns (clauses: seq<Clause>, params: map<string, string>)
    ensures clauses == MonthClauses(month)
    ensures params == MonthParams(month)
  {
    clauses := [];
    params := map[];
    var monthValue := Upper(Strip(month));
    if month != "" && monthValue != AllMonths {
      clauses := clauses + [MonthEq];
      params := params[MonthParam := monthValue];
    }
  }

  /** The global-search condition `build_where_clause` appends after the month one. */
  method AddSearchCondition(columnNames: seq<string>, search: Option<string>,
                            clauses0: seq<Clause>, params0: map<string, string>)
    returns (clauses: seq<Clause>, params: map<string, string>)
    ensures clauses == clauses0 + SearchClauses(columnNames, search)
    ensures params == params0 + SearchParams(search)
  {
    clauses, params := clauses0, params0;
    if search.Some? && search.value != "" {
      var pattern := "%" + Upper(search.value) + "%";
      clauses := clauses + [AnyColumnLike(columnNames)];
      UpdateIsUnion(params, SearchParam, pattern);
      params := params[SearchParam := pattern];
    } else {
      assert params0 + map[] == params0;
    }
  }

  /** The loop of `build_where_clause` over `column_searches`. */
  method ColumnSearchClauses(columnNames: seq<string>, searches: seq<(string, SearchObj)>)
    returns (clauses: seq<Clause>, params: map<string, string>)
    ensures clauses == ColumnClauses(columnNames, searches)
    ensures params == ColumnParams(columnNames, searches)
  {
    clauses := [];
    params := map[];
    var i := 0;
    while i < |searches|
      invariant 0 <= i <= |searches|
      invariant clauses == ColumnClauses(columnNames, searches[..i])
      invariant params == ColumnParams(columnNames, searches[..i])
    {
      var (column, obj) := searches[i];
      ColumnStep(columnNames, searches, i);
      if column in columnNames {
        var val := match obj case SearchDict(v, _) => v.GetOr("") case Bare(t) => t;
        var isRegex := obj.SearchDict? && obj.regex;
        if val != "" {
          var name := ColumnParamPrefix + column;
          if isRegex && StartsWith(val, "^") && EndsWith(val, "$") {
            clauses := clauses + [ColumnEq(column)];
            params := params[name := Upper(val[1..|val| - 1])];
          } else {
            clauses := clauses + [ColumnLike(column)];
            params := params[name := "%" + Upper(val) + "%"];
          }
        }
      }
      i := i + 1;
    }
    assert searches[..i] == searches;
  }

  // ---------------------------------------------------------------------
  // What the conditions and parameters say
  // ---------------------------------------------------------------------

  lemma ColumnParamDistinct(a: string, b: string)
    ensures ColumnParam(a) != MonthParam && ColumnParam(a) != SearchParam
    ensures ColumnParam(a) == ColumnParam(b) ==> a == b
  {
    assert ColumnParam(a)[0] == 'c';
    if ColumnParam(a) == ColumnParam(b) {
      assert a == ColumnParam(a)[|ColumnParamPrefix|..];
      assert b == ColumnParam(b)[|ColumnParamPrefix|..];
    }
  }

  /** Every column parameter is named after the column of some entry. */
  lemma {:induction false} ColumnParamsKeys(columnNames: seq<string>, searches: seq<(string, SearchObj)>)
    ensures forall k | k in ColumnParams(columnNames, searches) ::
              exists i | 0 <= i < |searches| :: k == ColumnParam(searches[i].0)
  {
    if searches != [] {
      var n := |searches|;
      var init := searches[..n - 1];
      ColumnParamsKeys(columnNames, init);
      forall k | k in ColumnParams(columnNames, searches)
        ensures exists i | 0 <= i < n :: k == ColumnParam(searches[i].0)
      {
        if k in ColumnParams(columnNames, init) {
          var i :| 0 <= i < |init| && k == ColumnParam(init[i].0);
          assert searches[i] == init[i];
        } else {
          assert k == ColumnParam(searches[n - 1].0);
        }
      }
    }
  }

  lemma NoColumnParamIsMonthOrSearch(columnNames: seq<string>, searches: seq<(string, SearchObj)>)
    ensures MonthParam !in ColumnParams(columnNames, searches)
    ensures SearchParam !in ColumnParams(columnNames, searches)
  {
    ColumnParamsKeys(columnNames, searches);
    forall i | 0 <= i < |searches|
      ensures ColumnParam(searches[i].0) != MonthParam && ColumnParam(searches[i].0) != SearchParam
    {
      ColumnParamDistinct(searches[i].0, searches[i].0);
    }
  }

  /**
   * The month condition and the `month_filter` parameter are added exactly
   * when the month is non-empty and is not `TUTTO` once stripped and
   * upper-cased; the parameter is that stripped, upper-cased month.
   */
  lemma MonthFilterRule(columnNames: seq<string>, month: string, search: Option<string>,
                        searches: seq<(string, SearchObj)>)
    ensures MonthEq in WhereClauses(columnNames, month, search, searches) <==> MonthActive(month)
    ensures MonthParam in WhereParams(month, search, columnNames, searches) <==> MonthActive(month)
    ensures MonthActive(month) ==>
              WhereParams(month, search, columnNames, searches)[MonthParam] == Upper(Strip(month))
  {
    NoColumnParamIsMonthOrSearch(columnNames, searches);
    assert MonthEq !in SearchClauses(columnNames, search);
    assert MonthEq !in ColumnClauses(columnNames, searches);
  }

  /**
   * A non-empty global search binds `search_value` to `%SEARCH%`; an empty
   * or missing one binds nothing.
   */
  lemma GlobalSearchParam(columnNames: seq<string>, month: string, search: Option<string>,
                          searches: seq<(string, SearchObj)>)
    ensures SearchParam in WhereParams(month, search, columnNames, searches) <==> SearchActive(search)
    ensures SearchActive(search) ==>
              WhereParams(month, search, columnNames, searches)[SearchParam] == "%" + Upper(search.value) + "%"
  {
    var mp := MonthParams(month);
    var sp := SearchParams(search);
    var cp := ColumnParams(columnNames, searches);
    assert WhereParams(month, search, columnNames, searches) == mp + sp + cp;
    NoColumnParamIsMonthOrSearch(columnNames, searches);
    assert MonthParam != SearchParam by { assert MonthParam[0] != SearchParam[0]; }
    assert SearchParam !in mp;
  }

  /**
   * A non-empty global search adds exactly one OR-group over every column;
   * an empty or missing one adds none.
   */
  lemma GlobalSearchRule(columnNames: seq<string>, month: string, search: Option<string>,
                         searches: seq<(string, SearchObj)>)
    ensures var cs := WhereClauses(columnNames, month, search, searches);
            && (forall c | c in cs && c.AnyColumnLike? :: c == AnyColumnLike(columnNames))
            && multiset(cs)[AnyColumnLike(columnNames)] == (if SearchActive(search) then 1 else 0)
  {
    var head := MonthClauses(month);
    var mid := SearchClauses(columnNames, search);
    var tail := ColumnClauses(columnNames, searches);
    var cs := WhereClauses(columnNames, month, search, searches);
    var any := AnyColumnLike(columnNames);
    assert cs == head + mid + tail;
    MonthClausesAreMonth(month);
    assert any !in head && any !in tail;
    CountInMiddle(head, mid, tail, any);
    assert multiset(mid)[any] == (if SearchActive(search) then 1 else 0);
    forall c | c in cs && c.AnyColumnLike? ensures c == any {
      assert c !in head && c !in tail;
    }
  }

  lemma MonthClausesAreMonth(month: string)
    ensures forall c | c in MonthClauses(month) :: c == MonthEq
  {
  }

  lemma CountInMiddle<T>(head: seq<T>, mid: seq<T>, tail: seq<T>, x: T)
    requires x !in head && x !in tail
    ensures multiset(head + mid + tail)[x] == multiset(mid)[x]
    ensures x in head + mid + tail <==> x in mid
  {
    assert multiset(head + mid + tail) == multiset(head) + multiset(mid) + multiset(tail);
  }

  /** The parameter of the last entry is not among those of the earlier entries. */
  lemma LastParamIsFresh(columnNames: seq<string>, searches: seq<(string, SearchObj)>)
    requires UniqueKeys(searches) && searches != []
    ensures ColumnParam(searches[|searches| - 1].0) !in ColumnParams(columnNames, searches[..|searches| - 1])
  {
    var n := |searches|;
    var init := searches[..n - 1];
    ColumnParamsKeys(columnNames, init);
    forall i | 0 <= i < |init| ensures ColumnParam(searches[n - 1].0) != ColumnParam(init[i].0) {
      assert init[i] == searches[i];
      ColumnParamDistinct(searches[n - 1].0, init[i].0);
    }
  }

  lemma {:induction false} ColumnParamsAt(columnNames: seq<string>, searches: seq<(string, SearchObj)>, k: nat)
    requires UniqueKeys(searches) && k < |searches|
    ensures var f := ColumnFilter(columnNames, searches[k].0, searches[k].1);
            var ps := ColumnParams(columnNames, searches);
            && (ColumnParam(searches[k].0) in ps <==> f.Some?)
            && (f.Some? ==> ps[ColumnParam(searches[k].0)] == f.value.1)
  {
    var n := |searches|;
    var init := searches[..n - 1];
    var last := searches[n - 1];
    assert UniqueKeys(init);
    if k == n - 1 {
      LastParamIsFresh(columnNames, searches);
    } else {
      ColumnParamsAt(columnNames, init, k);
      ColumnParamDistinct(last.0, searches[k].0);
      assert init[k] == searches[k];
    }
  }

  lemma {:induction false} ColumnClausesMention(columnNames: seq<string>, searches: seq<(string, SearchObj)>, column: string)
    requires UniqueKeys(searches)
    ensures (ColumnEq(column) in ColumnClauses(columnNames, searches) || ColumnLike(column) in ColumnClauses(columnNames, searches))
            ==> exists k | 0 <= k < |searches| :: searches[k].0 == column
                  && ColumnFilter(columnNames, column, searches[k].1).Some?
                  && ColumnFilter(columnNames, column, searches[k].1).value.0 in ColumnClauses(columnNames, searches)
    ensures forall k | 0 <= k < |searches| && searches[k].0 == column ::
              match ColumnFilter(columnNames, column, searches[k].1)
              case None => ColumnEq(column) !in ColumnClauses(columnNames, searches)
                           && ColumnLike(column) !in ColumnClauses(columnNames, searches)
              case Some(f) => f.0 in ColumnClauses(columnNames, searches)
  {
    if searches != [] {
      var n := |searches|;
      var init := searches[..n - 1];
      var last := searches[n - 1];
      assert UniqueKeys(init);
      ColumnClausesMention(columnNames, init, column);
      var prev := ColumnClauses(columnNames, init);
      var cs := ColumnClauses(columnNames, searches);
      var f := ColumnFilter(columnNames, last.0, last.1);
      assert cs == prev + (if f.Some? then [f.value.0] else []);
      assert f.Some? ==> f.value.0 == ColumnEq(last.0) || f.value.0 == ColumnLike(last.0);
      var mentioned := ColumnEq(column) in prev || ColumnLike(column) in prev;
      if mentioned {
        var k :| 0 <= k < n - 1 && init[k].0 == column
                 && ColumnFilter(columnNames, column, init[k].1).Some?
                 && ColumnFilter(columnNames, column, init[k].1).value.0 in prev;
        assert searches[k] == init[k];
        assert last.0 != column;
      } else if ColumnEq(column) in cs || ColumnLike(column) in cs {
        assert f.Some? && last.0 == column;
      }
      forall k | 0 <= k < n - 1 ensures init[k] == searches[k] && init[k].0 != last.0 { }
    }
  }

  /**
   * One entry of `column_searches`: its `col_filter_<column>` parameter is
   * present exactly when the column exists and the value is non-empty. An
   * exact pattern `^x$` flagged as a regex binds `X` (upper-cased); any
   * other value binds `%VALUE%`.
   */
  lemma ColumnFilterRule(columnNames: seq<string>, month: string, search: Option<string>,
                         searches: seq<(string, SearchObj)>, k: nat)
    requires UniqueKeys(searches) && k < |searches|
    ensures var (column, obj) := searches[k];
            var val := SearchText(obj);
            var ps := WhereParams(month, search, columnNames, searches);
            && (ColumnParam(column) in ps <==> column in columnNames && val != "")
            && (column in columnNames && val != "" && IsExactPattern(obj) ==>
                  ps[ColumnParam(column)] == Upper(ExactValue(val)))
            && (column in columnNames && val != "" && !IsExactPattern(obj) ==>
                  ps[ColumnParam(column)] == "%" + Upper(val) + "%")
  {
    var column := searches[k].0;
    ColumnParamsAt(columnNames, searches, k);
    ColumnParamDistinct(column, column);
    var cp := ColumnParams(columnNames, searches);
    var ps := WhereParams(month, search, columnNames, searches);
    assert ps == MonthParams(month) + SearchParams(search) + cp;
    assert ColumnParam(column) !in MonthParams(month) + SearchParams(search);
  }

  /**
   * The condition of the same entry: a skipped entry leaves no condition on
   * its column, an exact pattern adds the equality and any other value the
   * LIKE.
   */
  lemma ColumnFilterClause(columnNames: seq<string>, month: string, search: Option<string>,
                           searches: seq<(string, SearchObj)>, k: nat)
    requires UniqueKeys(searches) && k < |searches|
    ensures var (column, obj) := searches[k];
            var val := SearchText(obj);
            var cs := WhereClauses(columnNames, month, search, searches);
            && (column !in columnNames || val == "" ==>
                  ColumnEq(column) !in cs && ColumnLike(column) !in cs)
            && (column in columnNames && val != "" && IsExactPattern(obj) ==> ColumnEq(column) in cs)
            && (column in columnNames && val != "" && !IsExactPattern(obj) ==> ColumnLike(column) in cs)
  {
    var column := searches[k].0;
    ColumnClausesMention(columnNames, searches, column);
    var head := MonthClauses(month) + SearchClauses(columnNames, search);
    var tail := ColumnClauses(columnNames, searches);
    assert WhereClauses(columnNames, month, search, searches) == head + tail;
    assert ColumnEq(column) !in head && ColumnLike(column) !in head;
  }

  lemma {:induction false} ColumnCountsMatch(columnNames: seq<string>, searches: seq<(string, SearchObj)>)
    requires UniqueKeys(searches)
    ensures |ColumnParams(columnNames, searches).Keys| == |ColumnClauses(columnNames, searches)|
    ensures forall k | k in ColumnParams(columnNames, searches) ::
              exists i | 0 <= i < |searches| :: k == ColumnParam(searches[i].0)
  {
    if searches != [] {
      var n := |searches|;
      var init := searches[..n - 1];
      var last := searches[n - 1];
      assert UniqueKeys(init);
      ColumnCountsMatch(columnNames, init);
      ColumnParamsKeys(columnNames, searches);
      LastParamIsFresh(columnNames, searches);
    }
  }

  /** Every condition has its own parameter: there are as many parameters as conditions. */
  lemma ClauseCountMatchesParams(columnNames: seq<string>, month: string, search: Option<string>,
                                 searches: seq<(string, SearchObj)>)
    requires UniqueKeys(searches)
    ensures |WhereParams(month, search, columnNames, searches).Keys|
            == |WhereClauses(columnNames, month, search, searches)|
  {
    ColumnCountsMatch(columnNames, searches);
    NoColumnParamIsMonthOrSearch(columnNames, searches);
    GlobalCounts(columnNames, month, search);
    var gp := MonthParams(month) + SearchParams(search);
    var cp := ColumnParams(columnNames, searches);
    assert gp.Keys !! cp.Keys;
    assert (gp + cp).Keys == gp.Keys + cp.Keys;
  }

  /** The month and global-search conditions each come with their own parameter. */
  lemma GlobalCounts(columnNames: seq<string>, month: string, search: Option<string>)
    ensures var gp := MonthParams(month) + SearchParams(search);
            && gp.Keys <= {MonthParam, SearchParam}
            && |gp.Keys| == |MonthClauses(month) + SearchClauses(columnNames, search)|
  {
    var mp := MonthParams(month);
    var sp := SearchParams(search);
    MonthCount(month);
    SearchCount(columnNames, search);
    assert mp.Keys !! sp.Keys by { assert MonthParam[0] != SearchParam[0]; }
    assert (mp + sp).Keys == mp.Keys + sp.Keys;
  }

  lemma MonthCount(month: string)
    ensures MonthParams(month).Keys <= {MonthParam}
    ensures |MonthParams(month).Keys| == |MonthClauses(month)|
  {
    if MonthActive(month) {
      assert MonthParams(month).Keys == {MonthParam};
    }
  }

  lemma SearchCount(columnNames: seq<string>, search: Option<string>)
    ensures SearchParams(search).Keys <= {SearchParam}
    ensures |SearchParams(search).Keys| == |SearchClauses(columnNames, search)|
  {
    if SearchActive(search) {
      assert SearchParams(search).Keys == {SearchParam};
    }
  }
}
