/**
 * The query helpers of the search utilities: the term, price and category
 * filters, the sort clause, pagination, and the query they are assembled
 * into. Request parameters are strings, `None` when absent; `parseFloat` of
 * the price bounds is left to the database layer, so the bounds stay text.
 */
module SearchHelpers {
  import opened Wrappers
  import opened Text

  /** JavaScript truthiness of a request string: present and non-empty. */
  predicate Given(s: Option<string>) {
    s.Some? && s.value != ""
  }

  /** One `{[field]: {[Op.iLike]: pattern}}` alternative. */
  datatype FieldMatch = FieldMatch(field: string, pattern: string)

  /**
   * `createSearchCondition(term, fields)`: nothing for an absent or empty
   * term, otherwise one `%term%` alternative per field, in field order.
   */
  function SearchCondition(term: Option<string>, fields: seq<string>): (r: Option<seq<FieldMatch>>)
    ensures r.None? <==> !Given(term)
    ensures r.Some? ==>
      && |r.value| == |fields|
      && forall i :: 0 <= i < |fields| ==> r.value[i] == FieldMatch(fields[i], "%" + term.value + "%")
  {
    if !Given(term) then None
    else Some(seq(|fields|, i requires 0 <= i < |fields| => FieldMatch(fields[i], "%" + term.value + "%")))
  }

  /** The `price` filter: each bound present exactly when its parameter is given. */
  datatype PriceBounds = PriceBounds(gte: Option<string>, lte: Option<string>)

  /** `createPriceFilter(min, max)`: nothing when neither bound is given. */
  function PriceFilter(min: Option<string>, max: Option<string>): (r: Option<PriceBounds>)
    ensures r.None? <==> !Given(min) && !Given(max)
    ensures r.Some? ==> (r.value.gte.Some? <==> Given(min)) && (r.value.lte.Some? <==> Given(max))
    ensures r.Some? && Given(min) ==> r.value.gte == min
    ensures r.Some? && Given(max) ==> r.value.lte == max
  {
    var gte := if Given(min) then min else None;
    var lte := if Given(max) then max else None;
    if gte.None? && lte.None? then None else Some(PriceBounds(gte, lte))
  }

  /** The `category` parameter: absent, one value, or a repeated parameter's list. */
  datatype CategoryArg = NoCategory | One(name: string) | Many(names: seq<string>)

  /**
   * `createCategoryFilter(categories)`: nothing for an absent, empty-string or
   * empty-list argument; one value is wrapped, a list passes through.
   */
  function CategoryFilter(arg: CategoryArg): (r: Option<seq<string>>)
    ensures r.None? <==> arg == NoCategory || arg == One("") || arg == Many([])
    ensures arg.One? && r.Some? ==> r.value == [arg.name]
    ensures arg.Many? && r.Some? ==> r.value == arg.names
  {
    match arg
    case NoCategory => None
    case One(name) => if name == "" then None else Some([name])
    case Many(names) => if names == [] then None else Some(names)
  }

  const SortFields: seq<string> := ["name", "price", "createdAt", "rating"]

  datatype SortClause = SortClause(field: string, direction: string)

  /**
   * `getSortOptions(sortBy, sortOrder)`: an unknown field becomes `createdAt`;
   * the direction defaults to `ASC`, is upper-cased, and an unknown one
   * becomes `DESC`.
   */
  function SortOptions(sortBy: Option<string>, sortOrder: Option<string>): (r: SortClause)
    ensures r.field in SortFields
    ensures r.direction == "ASC" || r.direction == "DESC"
    ensures sortBy.Some? && sortBy.value in SortFields ==> r.field == sortBy.value
    ensures !(sortBy.Some? && sortBy.value in SortFields) ==> r.field == "createdAt"
    ensures sortOrder.None? ==> r.direction == "ASC"
    ensures sortOrder.Some? && AsciiUpper(sortOrder.value) in ["ASC", "DESC"] ==>
      r.direction == AsciiUpper(sortOrder.value)
    ensures sortOrder.Some? && AsciiUpper(sortOrder.value) !in ["ASC", "DESC"] ==> r.direction == "DESC"
  {
    var field := if sortBy.Some? && sortBy.value in SortFields then sortBy.value else "createdAt";
    var order := sortOrder.GetOr("ASC");
    var order := if AsciiUpper(order) in ["ASC", "DESC"] then order else "DESC";
    assert AsciiUpper("ASC") == "ASC" && AsciiUpper("DESC") == "DESC";
    SortClause(field, AsciiUpper(order))
  }

  /** A direction is kept whatever its letter case: `desc`, `Desc` and `DESC` all sort descending. */
  lemma SortDirectionCaseInsensitive(sortBy: Option<string>)
    ensures SortOptions(sortBy, Some("desc")).direction == "DESC"
    ensures SortOptions(sortBy, Some("Desc")).direction == "DESC"
    ensures SortOptions(sortBy, Some("asc")).direction == "ASC"
    ensures SortOptions(sortBy, Some("ascending")).direction == "DESC"
  {
    UpperDirections();
  }

  lemma UpperDirections()
    ensures AsciiUpper("desc") == "DESC" && AsciiUpper("Desc") == "DESC"
    ensures AsciiUpper("asc") == "ASC" && AsciiUpper("ascending") == "ASCENDING"
  {
    assert AsciiUpper("desc") == "DESC";
    assert AsciiUpper("Desc") == "DESC";
    assert AsciiUpper("asc") == "ASC";
    assert AsciiUpper("ascending") == "ASCENDING";
  }

  datatype Page = Page(limit: int, offset: int, page: int)

  /** `parseInt(s) || fallback`: a value that does not parse, or parses to 0, falls back. */
  function NumberOr(s: Option<string>, fallback: int): (n: int)
    requires fallback != 0
    ensures n != 0
    ensures s.None? ==> n == fallback
    ensures s.Some? ==> n == (match ParseIntAnyRadix(s.value) case Some(v) => if v == 0 then fallback else v case None => fallback)
  {
    if s.None? then fallback
    else match ParseIntAnyRadix(s.value)
      case None => fallback
      case Some(v) => if v == 0 then fallback else v
  }

  /** `getPagination(page, limit)`: defaults 1 and 10; the offset skips the earlier pages. */
  function Pagination(page: Option<string>, limit: Option<string>): (r: Page)
    ensures r.page != 0 && r.limit != 0
    ensures r.offset == (r.page - 1) * r.limit
    ensures r.page >= 1 && r.limit >= 1 ==> r.offset >= 0
  {
    var p := NumberOr(page, 1);
    var l := NumberOr(limit, 10);
    OffsetStep(p, l);
    Page(l, (p - 1) * l, p)
  }

  /** Page `p + 1` starts `l` rows after page `p`, and no page from 1 on starts before row 0. */
  lemma OffsetStep(p: int, l: int)
    ensures p * l == (p - 1) * l + l
    ensures p >= 1 && l >= 1 ==> (p - 1) * l >= 0
  {
  }

  /** Absent, unparsable or zero parameters give the first page of ten. */
  lemma PaginationDefaults(page: Option<string>, limit: Option<string>)
    requires page.None? || ParseIntAnyRadix(page.value).None? || ParseIntAnyRadix(page.value) == Some(0)
    requires limit.None? || ParseIntAnyRadix(limit.value).None? || ParseIntAnyRadix(limit.value) == Some(0)
    ensures Pagination(page, limit) == Page(10, 0, 1)
  {
  }

  /**
   * Page and limit written as decimal numbers other than 0 are read back as
   * they were written.
   */
  lemma PaginationReadsNumbers(p: int, l: int)
    requires p != 0 && l != 0
    ensures Pagination(Some(IntToString(p)), Some(IntToString(l))) == Page(l, (p - 1) * l, p)
  {
    NumberOrReadsNumber(p, 1);
    NumberOrReadsNumber(l, 10);
  }

  /** A parameter holding a decimal number other than 0 is read as that number. */
  lemma NumberOrReadsNumber(n: int, fallback: int)
    requires n != 0 && fallback != 0
    ensures NumberOr(Some(IntToString(n)), fallback) == n
  {
    ParseIntAnyRadixOfIntToString(n);
  }

  /** The query parameters `buildSearchQuery` destructures. */
  datatype SearchParams = SearchParams(
    search: Option<string>, category: CategoryArg, minPrice: Option<string>, maxPrice: Option<string>,
    sortBy: Option<string>, sortOrder: Option<string>, page: Option<string>, limit: Option<string>)

  /**
   * The merged `where` object. Its three parts sit under different keys
   * (`Op.or`, `category`, `price`), so the spread loses none of them.
   */
  datatype Where = Where(anyOf: Option<seq<FieldMatch>>, category: Option<seq<string>>, price: Option<PriceBounds>)

  datatype Query = Query(where: Where, order: seq<SortClause>, limit: int, offset: int, page: int)

  const SearchedFields: seq<string> := ["name", "description"]

  /** `buildSearchQuery(params)` */
  function BuildSearchQuery(p: SearchParams): (q: Query)
    ensures q.where.anyOf == SearchCondition(p.search, SearchedFields)
    ensures q.where.category == CategoryFilter(p.category)
    ensures q.where.price == PriceFilter(p.minPrice, p.maxPrice)
    ensures q.order == [SortOptions(p.sortBy, p.sortOrder)]
    ensures Page(q.limit, q.offset, q.page) == Pagination(p.page, p.limit)
  {
    var pg := Pagination(p.page, p.limit);
    Query(Where(SearchCondition(p.search, SearchedFields), CategoryFilter(p.category), PriceFilter(p.minPrice, p.maxPrice)),
          [SortOptions(p.sortBy, p.sortOrder)], pg.limit, pg.offset, pg.page)
  }

  /**
   * A query built from parameters that are all absent filters nothing and
   * returns the first ten rows, oldest first.
   */
  lemma EmptyParamsQuery()
    ensures BuildSearchQuery(SearchParams(None, NoCategory, None, None, None, None, None, None)) ==
      Query(Where(None, None, None), [SortClause("createdAt", "ASC")], 10, 0, 1)
  {
  }

  /** A given search term matches either the name or the description. */
  lemma TermSearchesNameAndDescription(term: string)
    requires term != ""
    ensures SearchCondition(Some(term), SearchedFields) ==
      Some([FieldMatch("name", "%" + term + "%"), FieldMatch("description", "%" + term + "%")])
  {
    var r := SearchCondition(Some(term), SearchedFields).value;
    assert r[0] == FieldMatch("name", "%" + term + "%");
    assert r[1] == FieldMatch("description", "%" + term + "%");
    assert r == [FieldMatch("name", "%" + term + "%"), FieldMatch("description", "%" + term + "%")];
  }
}
