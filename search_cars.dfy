/** php-backend/search-cars.php: the query and its parameters built one filter
    at a time, the rows the database returns for it, and their formatting. */
module SearchCars {
  import opened Wrappers
  import opened Text
  import opened Request
  import opened Store
  import opened Cars

  // ---------------------------------------------------------------------------
  // Filters and the SQL they contribute
  // ---------------------------------------------------------------------------

  /** A bound parameter of the prepared statement. */
  datatype Param = TextParam(s: string) | IntParam(n: int)

  /** One condition of the WHERE clause, with the value it binds. */
  datatype Filter =
    | MakeOrModel(pattern: string)
    | LocationLike(pattern: string)
    | PriceAtMost(max: int)
    | YearAtLeast(min: int)

  const SelectAll := "SELECT * FROM car_listings WHERE 1=1"
  const OrderNewestFirst := " ORDER BY id DESC"

  /** The placeholder of a bound value. */
  const Mark := "?"

  const MakeOrModelSql := " AND (make LIKE " + Mark + " OR model LIKE " + Mark + ")"
  const LocationSql := " AND location LIKE " + Mark
  const PriceSql := " AND price <= " + Mark
  const YearSql := " AND year >= " + Mark

  function FilterSql(f: Filter): string {
    match f
    case MakeOrModel(_) => MakeOrModelSql
    case LocationLike(_) => LocationSql
    case PriceAtMost(_) => PriceSql
    case YearAtLeast(_) => YearSql
  }

  /** The values a filter binds, one per placeholder it writes. */
  function FilterParams(f: Filter): seq<Param> {
    match f
    case MakeOrModel(p) => [TextParam(p), TextParam(p)]
    case LocationLike(p) => [TextParam(p)]
    case PriceAtMost(n) => [IntParam(n)]
    case YearAtLeast(n) => [IntParam(n)]
  }

  /** The query text up to ORDER BY once the filters fs have been appended. */
  function QueryText(fs: seq<Filter>): string {
    if fs == [] then SelectAll else QueryText(fs[..|fs| - 1]) + FilterSql(fs[|fs| - 1])
  }

  function Params(fs: seq<Filter>): seq<Param> {
    if fs == [] then [] else Params(fs[..|fs| - 1]) + FilterParams(fs[|fs| - 1])
  }

  // ---------------------------------------------------------------------------
  // Placeholders and parameters stay in lockstep
  // ---------------------------------------------------------------------------

  function CountChar(s: string, c: char): nat {
    if s == [] then 0 else (if s[0] == c then 1 else 0) + CountChar(s[1..], c)
  }

  lemma {:induction false} CountCharAppend(a: string, b: string, c: char)
    ensures CountChar(a + b, c) == CountChar(a, c) + CountChar(b, c)
  {
    if a == [] {
      assert a + b == b;
    } else {
      assert (a + b)[1..] == a[1..] + b;
      CountCharAppend(a[1..], b, c);
    }
  }

  lemma {:induction false} CountCharAbsent(s: string, c: char)
    requires c !in s
    ensures CountChar(s, c) == 0
  {
    if s != [] {
      assert s[0] in s;
      assert forall x :: x in s[1..] ==> x in s;
      CountCharAbsent(s[1..], c);
    }
  }

  /** text + '?': one more placeholder. */
  lemma CountMark(text: string)
    ensures CountChar(text + Mark, '?') == CountChar(text, '?') + 1
  {
    CountCharAppend(text, Mark, '?');
    assert Mark[1..] == [];
  }

  /** A fragment with one placeholder at its end. */
  lemma OneMark(t: string)
    requires '?' !in t
    ensures CountChar(t + Mark, '?') == 1
  {
    CountCharAbsent(t, '?');
    CountMark(t);
  }

  /** A fragment with two placeholders, each after text without one. */
  lemma TwoMarks(t: string, u: string, v: string)
    requires '?' !in t && '?' !in u && '?' !in v
    ensures CountChar(t + Mark + u + Mark + v, '?') == 2
  {
    OneMark(t);
    CountCharAppend(t + Mark, u, '?');
    CountCharAbsent(u, '?');
    CountMark(t + Mark + u);
    CountCharAppend(t + Mark + u + Mark, v, '?');
    CountCharAbsent(v, '?');
  }

  /** Each filter writes as many '?' as it binds values. */
  lemma FilterPlaceholders(f: Filter)
    ensures CountChar(FilterSql(f), '?') == |FilterParams(f)|
  {
    match f
    case MakeOrModel(_) => TwoMarks(" AND (make LIKE ", " OR model LIKE ", ")");
    case LocationLike(_) => OneMark(" AND location LIKE ");
    case PriceAtMost(_) => OneMark(" AND price <= ");
    case YearAtLeast(_) => OneMark(" AND year >= ");
  }

  /** Appending a filter appends its text and its values. */
  lemma AppendFilter(fs: seq<Filter>, f: Filter)
    ensures QueryText(fs + [f]) == QueryText(fs) + FilterSql(f)
    ensures Params(fs + [f]) == Params(fs) + FilterParams(f)
  {
    assert (fs + [f])[..|fs|] == fs;
  }

  /** After any sequence of filters the query holds one '?' per parameter. */
  lemma {:induction false} PlaceholdersMatchParams(fs: seq<Filter>)
    ensures CountChar(QueryText(fs), '?') == |Params(fs)|
  {
    if fs == [] {
      CountCharAbsent(SelectAll, '?');
    } else {
      var init, f := fs[..|fs| - 1], fs[|fs| - 1];
      PlaceholdersMatchParams(init);
      CountCharAppend(QueryText(init), FilterSql(f), '?');
      FilterPlaceholders(f);
    }
  }

  // ---------------------------------------------------------------------------
  // Which filters a request asks for
  // ---------------------------------------------------------------------------

  /** `!empty($f)` and `strlen(trim($f)) > 0`: the trimmed term, if any. */
  function SearchTerm(f: Field): (t: Option<string>)
    ensures t.Some? ==> t.value == PhpTrim(AsText(f)) && t.value != []
  {
    var term := PhpTrim(AsText(f));
    if !IsEmpty(f) && Utf8Length(term) > 0 then Some(term) else None
  }

  /** `!empty($f) && is_numeric($f)` and `(int)$f > 0`. */
  predicate MaxPriceApplies(f: Field) {
    !IsEmpty(f) && IsNumeric(f) && NumValue(f) > 0
  }

  /** `!empty($f) && is_numeric($f)` and `1900 <= (int)$f <= date('Y') + 1`. */
  predicate MinYearApplies(f: Field, currentYear: int) {
    !IsEmpty(f) && IsNumeric(f) && 1900 <= NumValue(f) <= currentYear + 1
  }

  function ModelFilter(input: Body): seq<Filter> {
    match SearchTerm(Get(input, "model"))
    case Some(t) => [MakeOrModel("%" + t + "%")]
    case None => []
  }

  function LocationFilter(input: Body): seq<Filter> {
    match SearchTerm(Get(input, "location"))
    case Some(t) => [LocationLike("%" + t + "%")]
    case None => []
  }

  function MaxPriceFilter(input: Body): seq<Filter> {
    var f := Get(input, "maxPrice");
    if MaxPriceApplies(f) then [PriceAtMost(NumValue(f))] else []
  }

  function MinYearFilter(input: Body, currentYear: int): seq<Filter> {
    var f := Get(input, "minYear");
    if MinYearApplies(f, currentYear) then [YearAtLeast(NumValue(f))] else []
  }

  /** The filters of a request, in the order they are appended. */
  function Filters(input: Body, currentYear: int): seq<Filter> {
    ModelFilter(input) + LocationFilter(input) + MaxPriceFilter(input) + MinYearFilter(input, currentYear)
  }

  /** The position of a filter's kind in the fixed order. */
  function Rank(f: Filter): nat {
    match f
    case MakeOrModel(_) => 0
    case LocationLike(_) => 1
    case PriceAtMost(_) => 2
    case YearAtLeast(_) => 3
  }

  /** The kinds of fs, in order. */
  function Kinds(fs: seq<Filter>): (ks: seq<nat>)
    ensures |ks| == |fs|
  {
    seq(|fs|, i requires 0 <= i < |fs| => Rank(fs[i]))
  }

  lemma KindsAppend(a: seq<Filter>, b: seq<Filter>)
    ensures Kinds(a + b) == Kinds(a) + Kinds(b)
  {
  }

  /** Each step contributes one filter of its own kind exactly when its field
      asks for it, and nothing otherwise. */
  lemma StepKinds(input: Body, currentYear: int)
    ensures Kinds(ModelFilter(input)) == (if SearchTerm(Get(input, "model")).Some? then [0] else [])
    ensures Kinds(LocationFilter(input)) == (if SearchTerm(Get(input, "location")).Some? then [1] else [])
    ensures Kinds(MaxPriceFilter(input)) == (if MaxPriceApplies(Get(input, "maxPrice")) then [2] else [])
    ensures Kinds(MinYearFilter(input, currentYear)) ==
              (if MinYearApplies(Get(input, "minYear"), currentYear) then [3] else [])
  {
  }

  /** The filters come in the order model, location, maxPrice, minYear
      (kinds 0 to 3), one for each field that asks for one and none for the
      others. */
  lemma FiltersMeaning(input: Body, currentYear: int)
    ensures Kinds(Filters(input, currentYear)) ==
              (if SearchTerm(Get(input, "model")).Some? then [0] else [])
              + (if SearchTerm(Get(input, "location")).Some? then [1] else [])
              + (if MaxPriceApplies(Get(input, "maxPrice")) then [2] else [])
              + (if MinYearApplies(Get(input, "minYear"), currentYear) then [3] else [])
  {
    var m, l, p, y := ModelFilter(input), LocationFilter(input), MaxPriceFilter(input), MinYearFilter(input, currentYear);
    StepKinds(input, currentYear);
    KindsAppend(m, l);
    KindsAppend(m + l, p);
    KindsAppend(m + l + p, y);
  }

  /** A term of blanks only adds no filter. */
  lemma BlankTermDropped(s: string)
    requires forall i :: 0 <= i < |s| ==> IsPhpSpace(s[i])
    ensures SearchTerm(Str(s)) == None
  {
    TrimSpec(s, IsPhpSpace);
  }

  /** A maximum price that is not a positive integer is dropped silently. */
  lemma NonPositiveMaxPriceDropped(input: Body)
    requires IsNumeric(Get(input, "maxPrice")) && NumValue(Get(input, "maxPrice")) <= 0
    ensures MaxPriceFilter(input) == []
  {
  }

  // ---------------------------------------------------------------------------
  // The builder
  // ---------------------------------------------------------------------------

  /** Appends to the query text and the parameter list in turn, one optional
      filter at a time, and closes with ORDER BY. */
  method BuildSearchQuery(input: Body, currentYear: int) returns (query: string, params: seq<Param>)
    ensures query == QueryText(Filters(input, currentYear)) + OrderNewestFirst
    ensures params == Params(Filters(input, currentYear))
    ensures CountChar(query, '?') == |params|
  {
    ghost var m, l, p := ModelFilter(input), LocationFilter(input), MaxPriceFilter(input);
    query := SelectAll;
    params := [];
    query, params := AppendModel(input, [], query, params);
    assert [] + m == m;
    query, params := AppendLocation(input, m, query, params);
    query, params := AppendMaxPrice(input, m + l, query, params);
    query, params := AppendMinYear(input, currentYear, m + l + p, query, params);
    query := query + OrderNewestFirst;
    QueryCount(Filters(input, currentYear));
  }

  /** The model step: `make LIKE ? OR model LIKE ?`, bound twice to the same
      pattern, when the trimmed term is not empty. */
  method AppendModel(input: Body, ghost fs: seq<Filter>, query: string, params: seq<Param>)
    returns (query': string, params': seq<Param>)
    requires query == QueryText(fs) && params == Params(fs)
    ensures query' == QueryText(fs + ModelFilter(input)) && params' == Params(fs + ModelFilter(input))
  {
    query', params' := query, params;
    var model := Get(input, "model");
    if !IsEmpty(model) {
      var searchTerm := PhpTrim(AsText(model));
      if Utf8Length(searchTerm) > 0 {
        var searchPattern := "%" + searchTerm + "%";
        AppendFilter(fs, MakeOrModel(searchPattern));
        query' := query' + MakeOrModelSql;
        params' := params' + [TextParam(searchPattern)];
        params' := params' + [TextParam(searchPattern)];
      }
    }
    assert ModelFilter(input) == [] ==> fs + ModelFilter(input) == fs;
  }

  /** The location step: `location LIKE ?` when the trimmed term is not empty. */
  method AppendLocation(input: Body, ghost fs: seq<Filter>, query: string, params: seq<Param>)
    returns (query': string, params': seq<Param>)
    requires query == QueryText(fs) && params == Params(fs)
    ensures query' == QueryText(fs + LocationFilter(input)) && params' == Params(fs + LocationFilter(input))
  {
    query', params' := query, params;
    var location := Get(input, "location");
    if !IsEmpty(location) {
      var term := PhpTrim(AsText(location));
      if Utf8Length(term) > 0 {
        AppendFilter(fs, LocationLike("%" + term + "%"));
        query' := query' + LocationSql;
        params' := params' + [TextParam("%" + term + "%")];
      }
    }
    assert LocationFilter(input) == [] ==> fs + LocationFilter(input) == fs;
  }

  /** The maxPrice step: `price <= ?` for a positive integer. */
  method AppendMaxPrice(input: Body, ghost fs: seq<Filter>, query: string, params: seq<Param>)
    returns (query': string, params': seq<Param>)
    requires query == QueryText(fs) && params == Params(fs)
    ensures query' == QueryText(fs + MaxPriceFilter(input)) && params' == Params(fs + MaxPriceFilter(input))
  {
    query', params' := query, params;
    var maxPrice := Get(input, "maxPrice");
    if !IsEmpty(maxPrice) && IsNumeric(maxPrice) {
      var max := NumValue(maxPrice);
      if max > 0 {
        AppendFilter(fs, PriceAtMost(max));
        query' := query' + PriceSql;
        params' := params' + [IntParam(max)];
      }
    }
    assert MaxPriceFilter(input) == [] ==> fs + MaxPriceFilter(input) == fs;
  }

  /** The minYear step: `year >= ?` for a year in [1900, currentYear + 1]. */
  method AppendMinYear(input: Body, currentYear: int, ghost fs: seq<Filter>, query: string, params: seq<Param>)
    returns (query': string, params': seq<Param>)
    requires query == QueryText(fs) && params == Params(fs)
    ensures query' == QueryText(fs + MinYearFilter(input, currentYear))
    ensures params' == Params(fs + MinYearFilter(input, currentYear))
  {
    query', params' := query, params;
    var minYear := Get(input, "minYear");
    if !IsEmpty(minYear) && IsNumeric(minYear) {
      var min := NumValue(minYear);
      if min >= 1900 && min <= currentYear + 1 {
        AppendFilter(fs, YearAtLeast(min));
        query' := query' + YearSql;
        params' := params' + [IntParam(min)];
      }
    }
    assert MinYearFilter(input, currentYear) == [] ==> fs + MinYearFilter(input, currentYear) == fs;
  }

  /** The finished statement holds one '?' per parameter. */
  lemma QueryCount(fs: seq<Filter>)
    ensures CountChar(QueryText(fs) + OrderNewestFirst, '?') == |Params(fs)|
  {
    PlaceholdersMatchParams(fs);
    NoMarkAppended(QueryText(fs), OrderNewestFirst);
  }

  lemma NoMarkAppended(t: string, u: string)
    requires '?' !in u
    ensures CountChar(t + u, '?') == CountChar(t, '?')
  {
    CountCharAppend(t, u, '?');
    CountCharAbsent(u, '?');
  }

  // ---------------------------------------------------------------------------
  // What the database returns
  // ---------------------------------------------------------------------------

  /** A row satisfies a filter under MySQL's LIKE and integer comparison. */
  predicate Matches(row: ListingRow, f: Filter) {
    match f
    case MakeOrModel(p) => Like(row.make, p) || Like(row.model, p)
    case LocationLike(p) => Like(row.location, p)
    case PriceAtMost(n) => row.price <= n
    case YearAtLeast(n) => row.year >= n
  }

  predicate MatchesAll(row: ListingRow, fs: seq<Filter>) {
    forall i :: 0 <= i < |fs| ==> Matches(row, fs[i])
  }

  /** The WHERE clause applied to rows already in result order: the rows that
      satisfy every filter, in the order given. */
  function Select(rows: seq<ListingRow>, fs: seq<Filter>): (r: seq<ListingRow>)
    ensures forall i :: 0 <= i < |r| ==> r[i] in rows && MatchesAll(r[i], fs)
    ensures forall i :: 0 <= i < |rows| && MatchesAll(rows[i], fs) ==> rows[i] in r
    ensures IdsDescending(rows) ==> IdsDescending(r)
  {
    if rows == [] then []
    else
      var rest := Select(rows[1..], fs);
      assert forall i :: 0 <= i < |rest| ==> rest[i] in rows[1..];
      if MatchesAll(rows[0], fs) then [rows[0]] + rest else rest
  }

  /** The request: an empty array for a missing or undecodable body, or when
      the statement fails (`fault`); otherwise the matching listings, newest
      first, formatted as cars.php formats them. The SQL text and parameters
      are built as the endpoint builds them, but the rows are then selected
      from the same filter values, not by evaluating that text: the link
      between the two is that both come from `Filters` (see
      PlaceholdersMatchParams and the Matches predicate). */
  method SearchCars(table: ListingsTable, body: Option<Body>, currentYear: int, fault: bool)
    returns (cars: seq<Car>)
    requires table.Valid()
    ensures IsFalsyBody(body) || fault ==> cars == []
    ensures !IsFalsyBody(body) && !fault ==>
              cars == FormatRows(Select(OrderByIdDesc(table.rows), Filters(body.value, currentYear)))
  {
    if IsFalsyBody(body) {
      return [];
    }
    var query, params := BuildSearchQuery(body.value, currentYear);
    if fault {
      return [];
    }
    // The database evaluates the statement: the WHERE text was built from
    // these filters, and ORDER BY id DESC orders the table newest first.
    var rows := Select(OrderByIdDesc(table.rows), Filters(body.value, currentYear));
    cars := FormatRows(rows);
  }

  // ---------------------------------------------------------------------------
  // What the filters match
  // ---------------------------------------------------------------------------

  /** A request that asks for no filter returns every listing, exactly as
      cars.php does. */
  lemma NoFiltersListsAll(table: ListingsTable, input: Body, currentYear: int)
    requires table.Valid()
    requires Filters(input, currentYear) == []
    ensures FormatRows(Select(OrderByIdDesc(table.rows), [])) == ListCars(table, false)
  {
    SelectAllRows(OrderByIdDesc(table.rows));
  }

  /** An applied maximum price bounds the price of every car returned, and an
      applied minimum year bounds its year from below. The cars are those
      SearchCars returns for a request whose statement succeeds. */
  lemma SearchResultsWithinBounds(rows: seq<ListingRow>, input: Body, currentYear: int)
    requires IdsAscending(rows)
    ensures var cars := FormatRows(Select(OrderByIdDesc(rows), Filters(input, currentYear)));
      forall i :: 0 <= i < |cars| ==>
        && (MaxPriceApplies(Get(input, "maxPrice")) ==> cars[i].price <= NumValue(Get(input, "maxPrice")))
        && (MinYearApplies(Get(input, "minYear"), currentYear) ==> cars[i].year >= NumValue(Get(input, "minYear")))
  {
    var fs := Filters(input, currentYear);
    var r := Select(OrderByIdDesc(rows), fs);
    var before := ModelFilter(input) + LocationFilter(input);
    forall i | 0 <= i < |r|
      ensures MaxPriceApplies(Get(input, "maxPrice")) ==> r[i].price <= NumValue(Get(input, "maxPrice"))
      ensures MinYearApplies(Get(input, "minYear"), currentYear) ==> r[i].year >= NumValue(Get(input, "minYear"))
    {
      assert MatchesAll(r[i], fs);
      if MaxPriceApplies(Get(input, "maxPrice")) {
        assert fs[|before|] == PriceAtMost(NumValue(Get(input, "maxPrice")));
        assert Matches(r[i], fs[|before|]);
      }
      if MinYearApplies(Get(input, "minYear"), currentYear) {
        var k := |before + MaxPriceFilter(input)|;
        assert fs[k] == YearAtLeast(NumValue(Get(input, "minYear")));
        assert Matches(r[i], fs[k]);
      }
    }
  }

  lemma {:induction false} SelectAllRows(rows: seq<ListingRow>)
    ensures Select(rows, []) == rows
  {
    if rows != [] {
      SelectAllRows(rows[1..]);
    }
  }

  /** For a term free of '%', '_' and '\', the model filter matches the
      listings whose make or model contains the term. */
  lemma ModelFilterMatchesSubstring(row: ListingRow, term: string)
    requires NoLikeMeta(term)
    ensures Matches(row, MakeOrModel("%" + term + "%")) <==> Contains(row.make, term) || Contains(row.model, term)
  {
    LikeInfix(row.make, term);
    LikeInfix(row.model, term);
  }

  lemma LocationFilterMatchesSubstring(row: ListingRow, term: string)
    requires NoLikeMeta(term)
    ensures Matches(row, LocationLike("%" + term + "%")) <==> Contains(row.location, term)
  {
    LikeInfix(row.location, term);
  }

  /** The term is not escaped: a model term of '_' is a wildcard that matches
      every listing whose make or model is not empty. */
  lemma UnderscoreTermMatchesAny(row: ListingRow)
    ensures Matches(row, MakeOrModel("%_%")) <==> row.make != [] || row.model != []
  {
    LikeAnyCharacter(row.make);
    LikeAnyCharacter(row.model);
  }

  lemma LikeAnyCharacter(s: string)
    ensures Like(s, "%_%") <==> s != []
  {
    assert "%_%"[1..] == "_%";
    assert "_%"[1..] == "%";
    if s != [] {
      LikeTrailingPercent(s[1..]);
    }
  }
}
