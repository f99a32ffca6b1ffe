/**
 * `QueryBuilder` of the service-order grids (identical in ordini_servizi_ge.py
 * and ordini_servizi.py). Each builder formats one SQL statement around the
 * WHERE text produced by `build_where_clause`. A `Query` records what the
 * statement asks for; `Render` gives its SQL text.
 */
module QueryBuilder {
  import opened Text

  /** The table every grid endpoint reads and writes. */
  const TableName: string := "carrefour_contabilizzazione_originale"
  /** The distinct-values query never returns more than this many rows. */
  const UniqueValuesCap: nat := 200
  /** The suffix that makes the data query read one page only. */
  const PagingSql: string := " LIMIT :limit OFFSET :offset"
  /** The value of `limit` that asks for every row. */
  const NoLimit: int := -1

  datatype Query =
    | Count(table: string, whereSql: string)
    | Data(table: string, whereSql: string, orderColumn: string, orderDir: string, paged: bool)
    | Export(table: string, whereSql: string)
    | UniqueValues(table: string, column: string, whereSql: string, cap: nat)

  /** `SELECT * FROM `table``, the start of the data and export queries. */
  function BaseSql(table: string): string
  {
    "SELECT * FROM `" + table + "`"
  }

  function UniqueValueExpr(column: string): string
  {
    "CASE WHEN `" + column + "` IS NULL THEN NULL WHEN `" + column + "` = '' THEN NULL "
    + "ELSE UPPER(TRIM(CAST(`" + column + "` AS CHAR))) END"
  }

  /** The SQL text of a query (the distinct-values query with its layout whitespace collapsed). */
  function Render(q: Query): string
  {
    match q
    case Count(t, w) => "SELECT COUNT(*) FROM `" + t + "`" + w
    case Data(t, w, c, d, paged) =>
      BaseSql(t) + w + (" ORDER BY `" + c + "` " + d + (if paged then PagingSql else ""))
    case Export(t, w) => BaseSql(t) + w
    case UniqueValues(t, c, w, cap) =>
      "SELECT DISTINCT " + UniqueValueExpr(c) + " as value FROM `" + t + "` " + w
      + " HAVING value IS NOT NULL ORDER BY value LIMIT " + NatText(cap)
  }

  /** `build_count_query`: counts the rows the WHERE text selects. */
  function BuildCountQuery(table: string, whereSql: string): (q: Query)
    ensures Render(q) == "SELECT COUNT(*) FROM `" + table + "`" + whereSql
    ensures EndsWith(Render(q), whereSql)
  {
    Count(table, whereSql)
  }

  /** `build_export_query`: every row the WHERE text selects, unordered and unpaged. */
  function BuildExportQuery(table: string, whereSql: string): (q: Query)
    ensures Render(q) == BaseSql(table) + whereSql
  {
    Export(table, whereSql)
  }

  /**
   * `build_data_query`: the export query's rows, ordered by one column, and
   * limited to one page unless `limit` is -1.
   */
  function BuildDataQuery(table: string, whereSql: string, orderColumn: string, orderDir: string,
                          limit: int, offset: int): (q: Query)
    ensures q.Data? && (q.paged <==> limit != NoLimit)
    ensures Render(q) == Render(BuildExportQuery(table, whereSql))
                         + (" ORDER BY `" + orderColumn + "` " + orderDir + (if limit == NoLimit then "" else PagingSql))
    ensures limit != NoLimit ==> EndsWith(Render(q), PagingSql)
  {
    Data(table, whereSql, orderColumn, orderDir, limit != NoLimit)
  }

  /** `build_unique_values_query`: at most 200 distinct non-empty values of one column. */
  function BuildUniqueValuesQuery(table: string, column: string, whereSql: string): (q: Query)
    ensures q.UniqueValues? && q.cap == UniqueValuesCap && q.column == column && q.whereSql == whereSql
    ensures EndsWith(Render(q), " LIMIT 200")
  {
    assert NatText(200) == "200" by {
      assert NatText(200) == NatText(20) + [DigitChar(0)];
      assert NatText(20) == NatText(2) + [DigitChar(0)];
    }
    UniqueValues(table, column, whereSql, UniqueValuesCap)
  }

  /**
   * The count query and the data query of one request filter on the same
   * WHERE text: the count is the number of rows the pages are cut from.
   */
  lemma CountAndDataShareFilter(table: string, whereSql: string, orderColumn: string, orderDir: string,
                                limit: int, offset: int)
    ensures var count := Render(BuildCountQuery(table, whereSql));
            var data := Render(BuildDataQuery(table, whereSql, orderColumn, orderDir, limit, offset));
            && count[|"SELECT COUNT(*) FROM `" + table + "`"|..] == whereSql
            && data[|BaseSql(table)|..|BaseSql(table)| + |whereSql|] == whereSql
  {
    var rest := " ORDER BY `" + orderColumn + "` " + orderDir + (if limit == NoLimit then "" else PagingSql);
    DropPrefix("SELECT COUNT(*) FROM `" + table + "`", whereSql);
    MiddleSlice(BaseSql(table), whereSql, rest);
  }

  lemma DropPrefix(a: string, b: string)
    ensures (a + b)[|a|..] == b
  {
  }

  lemma MiddleSlice(a: string, b: string, c: string)
    ensures (a + b + c)[|a|..|a| + |b|] == b
  {
    assert (a + b + c)[|a|..|a| + |b|] == (a + b)[|a|..];
  }
}
