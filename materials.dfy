/**
 * The article search of the materials pages (ordini_materiale_articoli.py):
 * the filters `_perform_search_query` adds to the article query, the
 * `has_filters` short-circuit and the sort keys of `get_data`, paging,
 * the row mapping, and the session check of the page routes.
 *
 * The article query is kept abstract: a `SearchQuery` lists the filters and
 * sort keys in the order the handler adds them; the database's answer to it
 * (the number of matching rows and the requested page) is an input.
 */
module Materials {
  import opened Base
  import opened Text

  /** The conditions `_perform_search_query` can add. */
  datatype Filter =
    | YearEq(year: int)            // extract('year', DataAcquisto) == year
    | CodiceLike(pattern: string)  // KACODRIC ILIKE pattern
    | CodicenetLike(pattern: string)  // ARCODART ILIKE pattern
    | DescrLike(pattern: string)   // ARDESART ILIKE pattern

  datatype Direction = Asc | Desc

  datatype SortKey = SortKey(column: string, dir: Direction)

  /** The article query under construction. */
  datatype SearchQuery = SearchQuery(filters: seq<Filter>, order: seq<SortKey>)

  /** The search fields of the request body. */
  datatype SearchFields = SearchFields(
    codice: Option<string>,
    codicenet: Option<string>,
    descrizione: Option<string>,
    year: Option<string>)

  /** One entry of the request's `order` list: its `column` and `dir` entries when present. */
  datatype OrderRule = OrderRule(column: Option<Json>, dir: Option<Json>)

  /** `ILIKE '%text%'`. */
  function Contains(text: string): string
  {
    "%" + text + "%"
  }

  // ---------------------------------------------------------------------
  // Filters
  // ---------------------------------------------------------------------

  /** The year filter applies: a non-empty year other than `all` in any case. */
  predicate YearActive(year: Option<string>)
  {
    year.Some? && year.value != "" && Lower(year.value) != "all"
  }

  /** The year filter, or `None` when `int(year)` raises. */
  function YearFilters(year: Option<string>): (r: Option<seq<Filter>>)
    ensures !YearActive(year) ==> r == Some([])
    ensures YearActive(year) ==> (r.Some? <==> ParseInt(year.value).Some?)
    ensures r.Some? && YearActive(year) ==> r.value == [YearEq(ParseInt(year.value).value)]
  {
    if !YearActive(year) then Some([])
    else match ParseInt(year.value)
      case None => None
      case Some(y) => Some([YearEq(y)])
  }

  /** The filter a non-empty `codice` adds. */
  function CodiceFilters(codice: Option<string>): (r: seq<Filter>)
    ensures |r| == if HasValue(codice) then 1 else 0
  {
    if HasValue(codice) then [CodiceLike(Contains(codice.value))] else []
  }

  /** The filter a non-empty `codicenet` adds. */
  function CodicenetFilters(codicenet: Option<string>): (r: seq<Filter>)
    ensures |r| == if HasValue(codicenet) then 1 else 0
  {
    if HasValue(codicenet) then [CodicenetLike(Contains(codicenet.value))] else []
  }

  /** The words of a non-empty description. */
  function DescrWords(descrizione: Option<string>): seq<string>
  {
    if HasValue(descrizione) then Words(descrizione.value) else []
  }

  /** The filters the fields call for, in the order they are added; `None` when `int(year)` raises. */
  function SearchFilters(f: SearchFields): (r: Option<seq<Filter>>)
  {
    var yearPart := YearFilters(f.year);
    if yearPart.None? then None
    else
      Some(yearPart.value
           + CodiceFilters(f.codice)
           + CodicenetFilters(f.codicenet)
           + WordFilters(DescrWords(f.descrizione)))
  }

  predicate HasValue(v: Option<string>)
  {
    v.Some? && v.value != ""
  }

  /** One description filter per word. */
  function WordFilters(words: seq<string>): (r: seq<Filter>)
    ensures |r| == |words|
    ensures forall k | 0 <= k < |words| :: r[k] == DescrLike(Contains(words[k]))
  {
    seq(|words|, k requires 0 <= k < |words| => DescrLike(Contains(words[k])))
  }

  /**
   * `_perform_search_query`: starts from the unfiltered article query and
   * adds each filter in turn, one per word of the description.
   */
  method PerformSearchQuery(f: SearchFields) returns (q: Option<SearchQuery>)
    ensures q.Some? <==> SearchFilters(f).Some?
    ensures q.Some? ==> q.value == SearchQuery(SearchFilters(f).value, [])
  {
    var query := SearchQuery([], []);
    if YearActive(f.year) {
      var y := ParseInt(f.year.value);
      if y.None? {
        return None;
      }
      query := query.(filters := query.filters + [YearEq(y.value)]);
    }
    assert query.filters == YearFilters(f.year).value;
    if HasValue(f.codice) {
      query := query.(filters := query.filters + [CodiceLike(Contains(f.codice.value))]);
    }
    if HasValue(f.codicenet) {
      query := query.(filters := query.filters + [CodicenetLike(Contains(f.codicenet.value))]);
    }
    var before := query.filters;
    assert before == YearFilters(f.year).value + CodiceFilters(f.codice)
                     + CodicenetFilters(f.codicenet);
    var filters := AddWordFilters(query.filters, DescrWords(f.descrizione));
    query := query.(filters := filters);
    q := Some(query);
  }

  /** The loop over the description's words: one filter per word, in order. */
  method AddWordFilters(filters: seq<Filter>, words: seq<string>) returns (r: seq<Filter>)
    ensures r == filters + WordFilters(words)
  {
    r := filters;
    var i := 0;
    while i < |words|
      invariant 0 <= i <= |words|
      invariant r == filters + WordFilters(words[..i])
    {
      assert WordFilters(words[..i + 1]) == WordFilters(words[..i]) + [DescrLike(Contains(words[i]))];
      r := r + [DescrLike(Contains(words[i]))];
      i := i + 1;
    }
    assert words[..i] == words;
  }

  /**
   * How many filters a search adds: one for an active year, one for each
   * non-empty code, one per word of the description.
   */
  lemma FilterCount(f: SearchFields)
    requires SearchFilters(f).Some?
    ensures |SearchFilters(f).value| ==
              (if YearActive(f.year) then 1 else 0)
              + (if HasValue(f.codice) then 1 else 0) + (if HasValue(f.codicenet) then 1 else 0)
              + |DescrWords(f.descrizione)|
  {
  }

  /** A year that `int()` rejects makes the search fail instead of being ignored. */
  lemma BadYearFails(f: SearchFields)
    requires YearActive(f.year) && ParseInt(f.year.value).None?
    ensures SearchFilters(f).None?
  {
  }

  /**
   * Two codes, a two-word description and a year written as a number make
   * five filters: the year, the two codes, then one per word.
   */
  lemma FiveFilterExample(codice: string, codicenet: string, w1: string, w2: string, year: int)
    requires codice != "" && codicenet != ""
    requires w1 != "" && NoSpace(w1) && w2 != "" && NoSpace(w2)
    ensures var f := SearchFields(Some(codice), Some(codicenet), Some(w1 + " " + w2), Some(IntText(year)));
            SearchFilters(f).Some? &&
            SearchFilters(f).value == [YearEq(year), CodiceLike(Contains(codice)), CodicenetLike(Contains(codicenet)),
                                       DescrLike(Contains(w1)), DescrLike(Contains(w2))]
  {
    var f := SearchFields(Some(codice), Some(codicenet), Some(w1 + " " + w2), Some(IntText(year)));
    YearOfNumber(year);
    TwoWordFilters(w1, w2);
    var y, c, n, d1, d2 := YearEq(year), CodiceLike(Contains(codice)), CodicenetLike(Contains(codicenet)),
                           DescrLike(Contains(w1)), DescrLike(Contains(w2));
    assert CodiceFilters(f.codice) == [c];
    assert CodicenetFilters(f.codicenet) == [n];
    FiveInARow(y, c, n, d1, d2);
  }

  /** A year written as a number adds the year filter on that number. */
  lemma YearOfNumber(year: int)
    ensures YearFilters(Some(IntText(year))) == Some([YearEq(year)])
  {
    NumberIsNotAll(year);
    ParseIntText(year);
  }

  /** A two-word description adds one filter per word. */
  lemma TwoWordFilters(w1: string, w2: string)
    requires w1 != "" && NoSpace(w1) && w2 != "" && NoSpace(w2)
    ensures WordFilters(DescrWords(Some(w1 + " " + w2))) == [DescrLike(Contains(w1)), DescrLike(Contains(w2))]
  {
    var d := w1 + " " + w2;
    assert HasValue(Some(d));
    TwoWords(w1, w2);
    assert DescrWords(Some(d)) == [w1, w2];
    var r := WordFilters([w1, w2]);
    assert r[0] == DescrLike(Contains(w1)) && r[1] == DescrLike(Contains(w2));
  }

  lemma FiveInARow(y: Filter, c: Filter, n: Filter, d1: Filter, d2: Filter)
    ensures [y] + [c] + [n] + [d1, d2] == [y, c, n, d1, d2]
  {
  }

  /** A number's text is never `all`, whatever its case. */
  lemma NumberIsNotAll(n: int)
    ensures IntText(n) != "" && Lower(IntText(n)) != "all"
  {
    var s := IntText(n);
    var d := NatText(if n < 0 then -n else n);
    assert s[|s| - 1] == d[|d| - 1];
    assert IsDigit(s[|s| - 1]);
    assert Lower(s)[|s| - 1] == s[|s| - 1];
  }

  lemma TwoWords(w1: string, w2: string)
    requires w1 != "" && NoSpace(w1) && w2 != "" && NoSpace(w2)
    ensures Words(w1 + " " + w2) == [w1, w2]
  {
    var tail := " " + w2;
    assert w1 + " " + w2 == w1 + tail;
    assert tail == [' '] + w2;
    WordsCons(w1, tail);
    WordsSkipSpace(' ', w2);
    OneWord(w2);
  }

  lemma OneWord(w: string)
    requires w != "" && NoSpace(w)
    ensures Words(w) == [w]
  {
    WordsCons(w, "");
    assert w + "" == w;
    assert Words("") == [];
  }

  // ---------------------------------------------------------------------
  // The early return
  // ---------------------------------------------------------------------

  /** `has_filters`: any search field is truthy, the year only when it is not `all`. */
  predicate HasFilters(f: SearchFields)
  {
    HasValue(f.codice) || HasValue(f.codicenet) || HasValue(f.descrizione) || YearActive(f.year)
  }

  /** Without filters the search adds nothing to the article query. */
  lemma NoFiltersNoConditions(f: SearchFields)
    requires !HasFilters(f)
    ensures SearchFilters(f).Some? && SearchFilters(f).value == []
  {
    assert YearFilters(f.year) == Some([]);
    assert CodiceFilters(f.codice) == [] && CodicenetFilters(f.codicenet) == [];
    assert DescrWords(f.descrizione) == [];
    assert WordFilters(DescrWords(f.descrizione)) == [];
    var none: seq<Filter> := [];
    assert SearchFilters(f) == Some(none + none + none + none);
  }

  /**
   * The short-circuit looks at truthiness, not at words: a description of
   * blanks counts as a filter yet adds no condition.
   */
  lemma BlankDescriptionCountsAsFilter()
    ensures var f := SearchFields(None, None, Some(" "), None);
            HasFilters(f) && SearchFilters(f).Some? && SearchFilters(f).value == []
  {
    var f := SearchFields(None, None, Some(" "), None);
    WordsSkipSpace(' ', "");
    assert [' '] + "" == " ";
    assert Words("") == [];
    assert WordFilters(DescrWords(f.descrizione)) == [];
  }

  // ---------------------------------------------------------------------
  // Sorting
  // ---------------------------------------------------------------------

  /** The sortable columns by DataTables column index (`column_map`). */
  function SortColumn(index: int): (c: Option<string>)
    ensures c.Some? <==> 2 <= index <= 10
  {
    if index == 2 then Some("KACODRIC")
    else if index == 3 then Some("ARCODART")
    else if index == 4 then Some("ARDESART")
    else if index == 5 then Some("GiacenzaTorino")
    else if index == 6 then Some("GiacenzaMilano")
    else if index == 7 then Some("GiacenzaGenova")
    else if index == 8 then Some("GiacenzaBologna")
    else if index == 9 then Some("GiacenzaRoma")
    else if index == 10 then Some("Importo")
    else None
  }

  /** The five stock columns, all descending: the sort of a request without `order`. */
  const DefaultOrder: seq<SortKey> := [
    SortKey("GiacenzaTorino", Desc), SortKey("GiacenzaMilano", Desc), SortKey("GiacenzaGenova", Desc),
    SortKey("GiacenzaBologna", Desc), SortKey("GiacenzaRoma", Desc)
  ]

  /** `int(rule.get("column", -1))`; `None` when `int()` raises. */
  function RuleIndex(rule: OrderRule): Option<int>
  {
    PyInt(rule.column.GetOr(JInt(-1)))
  }

  /** `"asc"` sorts ascending; any other direction, a missing one excepted, sorts descending. */
  function RuleDirection(rule: OrderRule): Direction
  {
    if rule.dir.GetOr(JText("asc")) == JText("asc") then Asc else Desc
  }

  /** The sort keys of the first rules: unknown indices skipped, the others in order; `None` when an index raises. */
  function OrderKeys(rules: seq<OrderRule>): Option<seq<SortKey>>
  {
    if rules == [] then Some([])
    else
      var prev := OrderKeys(rules[..|rules| - 1]);
      var rule := rules[|rules| - 1];
      if prev.None? then None
      else match RuleIndex(rule)
        case None => None
        case Some(k) =>
          match SortColumn(k)
          case None => prev
          case Some(c) => Some(prev.value + [SortKey(c, RuleDirection(rule))])
  }

  /** The order loop of `get_data`. */
  method ApplyOrder(query: SearchQuery, rules: seq<OrderRule>) returns (q: Option<SearchQuery>)
    ensures q.Some? <==> OrderKeys(rules).Some?
    ensures q.Some? ==> q.value == query.(order := query.order + OrderKeys(rules).value)
  {
    var current := query;
    var i := 0;
    while i < |rules|
      invariant 0 <= i <= |rules|
      invariant OrderKeys(rules[..i]).Some?
      invariant current == query.(order := query.order + OrderKeys(rules[..i]).value)
    {
      assert rules[..i + 1][..i] == rules[..i];
      var rule := rules[i];
      var index := PyInt(if rule.column.Some? then rule.column.value else JInt(-1));
      if index.None? {
        assert OrderKeys(rules[..i + 1]).None?;
        OrderFailureSticks(rules, i + 1);
        return None;
      }
      var column := SortColumn(index.value);
      if column.Some? {
        var dir := if (if rule.dir.Some? then rule.dir.value else JText("asc")) == JText("asc") then Asc else Desc;
        current := current.(order := current.order + [SortKey(column.value, dir)]);
      }
      i := i + 1;
    }
    assert rules[..i] == rules;
    q := Some(current);
  }

  /** Once an index raises, the whole order list fails. */
  lemma {:induction false} OrderFailureSticks(rules: seq<OrderRule>, n: nat)
    requires n <= |rules| && OrderKeys(rules[..n]).None?
    ensures OrderKeys(rules).None?
  {
    if n < |rules| {
      var init := rules[..|rules| - 1];
      assert init[..n] == rules[..n];
      OrderFailureSticks(init, n);
    } else {
      assert rules[..n] == rules;
    }
  }

  /**
   * Every sort key comes from a rule with a known column index, and there
   * is one key for each such rule.
   */
  lemma {:induction false} OrderKeysRule(rules: seq<OrderRule>)
    requires OrderKeys(rules).Some?
    ensures |OrderKeys(rules).value| == |KnownRules(rules)|
    ensures forall k | 0 <= k < |OrderKeys(rules).value| ::
              var r := KnownRules(rules)[k];
              OrderKeys(rules).value[k] == SortKey(SortColumn(RuleIndex(r).value).value, RuleDirection(r))
  {
    if rules != [] {
      var init := rules[..|rules| - 1];
      OrderKeysRule(init);
    }
  }

  /** The rules whose index is a sortable column, in request order. */
  function KnownRules(rules: seq<OrderRule>): (r: seq<OrderRule>)
    ensures forall x | x in r :: RuleIndex(x).Some? && SortColumn(RuleIndex(x).value).Some?
  {
    if rules == [] then []
    else
      var rule := rules[|rules| - 1];
      KnownRules(rules[..|rules| - 1])
      + if RuleIndex(rule).Some? && SortColumn(RuleIndex(rule).value).Some? then [rule] else []
  }

  // ---------------------------------------------------------------------
  // get_data
  // ---------------------------------------------------------------------

  /** The request body of `/api/materiali/search`. */
  datatype SearchBody = SearchBody(
    draw: Option<Json>,
    start: Option<int>,
    length: Option<int>,
    fields: SearchFields,
    order: Option<seq<OrderRule>>)

  /** A database article, with the fields the reply shows as text. */
  datatype Article = Article(guid: string, codice: Option<string>, codicenet: Option<string>, descrizione: Option<string>)

  /** One reply row: `None` and empty text both become `''`. */
  datatype ArticleRow = ArticleRow(id: string, codice: string, codicenet: string, descrizione: string)

  /** What the database answers to the paged search: the number of matching articles and the page. */
  datatype SearchAnswer = SearchAnswer(count: int, page: seq<Article>)

  /** The statement `get_data` runs: the search query, cut at `offset` for at most `limit` rows. */
  datatype PagedSearch = PagedSearch(query: SearchQuery, offset: int, limit: int)

  datatype SearchReply = SearchReply(draw: Json, recordsTotal: int, recordsFiltered: int, data: seq<ArticleRow>)

  /** `x or ''` for a text column. */
  function OrEmpty(v: Option<string>): (s: string)
    ensures v.Some? ==> s == v.value
    ensures v.None? ==> s == ""
  {
    if v.Some? then v.value else ""
  }

  function MapArticle(a: Article): (r: ArticleRow)
    ensures r.id == a.guid && r.codice == OrEmpty(a.codice)
    ensures r.codicenet == OrEmpty(a.codicenet) && r.descrizione == OrEmpty(a.descrizione)
  {
    ArticleRow(a.guid, OrEmpty(a.codice), OrEmpty(a.codicenet), OrEmpty(a.descrizione))
  }

  /** The request reaches the database search: it has filters or an `order` list. */
  predicate Searches(body: SearchBody)
  {
    HasFilters(body.fields) || (body.order.Some? && body.order.value != [])
  }

  /** The sort of a search: the request's rules, or the default sort when there are none. */
  function SearchOrder(body: SearchBody): Option<seq<SortKey>>
  {
    if body.order.Some? && body.order.value != [] then OrderKeys(body.order.value) else Some(DefaultOrder)
  }

  /**
   * `get_data`: without filters and without an `order` list, an empty reply
   * carrying the full article count; otherwise the filtered, sorted page.
   * `totalArticles` is `None` when the article count raises (it runs
   * before the early return), `answer` is `None` when the paged search
   * raises. `None` is the HTTP 500 of any raise: those two, and a year or
   * an order index that `int()` rejects.
   */
  method GetData(body: SearchBody, totalArticles: Option<int>, answer: Option<SearchAnswer>)
    returns (reply: Option<SearchReply>, stmt: Option<PagedSearch>)
    ensures reply.Some? ==> reply.value.draw == body.draw.GetOr(JInt(0)) && totalArticles.Some?
                            && reply.value.recordsTotal == totalArticles.value
    ensures totalArticles.None? ==> reply.None? && stmt.None?
    ensures !Searches(body) ==> stmt.None? && (reply.Some? <==> totalArticles.Some?)
    ensures !Searches(body) && reply.Some? ==> reply.value.recordsFiltered == 0 && reply.value.data == []
    ensures Searches(body) ==>
              (stmt.Some? <==> totalArticles.Some? && SearchFilters(body.fields).Some? && SearchOrder(body).Some?)
    ensures stmt.Some? ==>
              stmt.value == PagedSearch(SearchQuery(SearchFilters(body.fields).value, SearchOrder(body).value),
                                        body.start.GetOr(0), body.length.GetOr(10))
    ensures Searches(body) ==> (reply.Some? <==> stmt.Some? && answer.Some?)
    ensures Searches(body) && reply.Some? ==>
              && reply.value.recordsFiltered == answer.value.count
              && |reply.value.data| == |answer.value.page|
              && forall k | 0 <= k < |answer.value.page| :: reply.value.data[k] == MapArticle(answer.value.page[k])
  {
    var draw := if body.draw.Some? then body.draw.value else JInt(0);
    if totalArticles.None? {
      return None, None;
    }
    if !Searches(body) {
      return Some(SearchReply(draw, totalArticles.value, 0, [])), None;
    }
    var query := PerformSearchQuery(body.fields);
    if query.None? {
      return None, None;
    }
    var sorted: Option<SearchQuery>;
    if body.order.Some? && body.order.value != [] {
      sorted := ApplyOrder(query.value, body.order.value);
      if sorted.None? {
        return None, None;
      }
    } else {
      sorted := Some(query.value.(order := DefaultOrder));
    }
    stmt := Some(PagedSearch(sorted.value, if body.start.Some? then body.start.value else 0,
                             if body.length.Some? then body.length.value else 10));
    if answer.None? {
      return None, stmt;
    }
    var data := seq(|answer.value.page|, k requires 0 <= k < |answer.value.page| => MapArticle(answer.value.page[k]));
    reply := Some(SearchReply(draw, totalArticles.value, answer.value.count, data));
  }

  /** An empty `order` list, like a missing one, sorts by the five stock columns descending. */
  lemma EmptyOrderUsesDefault(body: SearchBody)
    requires body.order == Some([]) || body.order.None?
    ensures SearchOrder(body) == Some(DefaultOrder)
    ensures forall k | 0 <= k < |DefaultOrder| :: DefaultOrder[k].dir == Desc
  {
  }

  // ---------------------------------------------------------------------
  // Page routes
  // ---------------------------------------------------------------------

  /** The `session` cookie of a page request. */
  datatype LoginCookie =
    | NoCookie               // absent or empty
    | Unreadable             // not JSON, or not an object
    | Parsed(login: Json)    // the `login` entry (JNull when absent)

  datatype PageResponse = Redirect(location: string) | Page(template: string, username: Json)

  const LoginPath: string := "/login"

  /** The session check every materials page route runs before rendering its template. */
  function PageRoute(cookie: LoginCookie, template: string): (r: PageResponse)
    ensures r.Redirect? <==> !(cookie.Parsed? && Truthy(cookie.login))
    ensures r.Redirect? ==> r.location == LoginPath
    ensures r.Page? ==> r.template == template && cookie.Parsed? && r.username == cookie.login
  {
    if cookie.Parsed? && Truthy(cookie.login) then Page(template, cookie.login)
    else Redirect(LoginPath)
  }
}
