/** project/src/pages/SearchPage.tsx: the filter the search page applies to
    the listings it was given, and the two handlers that change the filter
    fields. */
module SearchPage {
  import opened Wrappers
  import opened Text
  import opened Request
  import opened JsValues
  import Cars
  import SearchCars

  /** The `searchFilters` state: the four inputs as typed. */
  datatype SearchFilters = SearchFilters(model: string, location: string, maxPrice: string, minYear: string)

  /** The initial state and what clearFilters restores. */
  const NoFilters := SearchFilters("", "", "", "")

  /** The names the inputs carry. */
  const FilterNames: set<string> := {"model", "location", "maxPrice", "minYear"}

  /** The field a change event with this input name writes to. */
  function FilterOf(f: SearchFilters, name: string): Option<string> {
    if name == "model" then Some(f.model)
    else if name == "location" then Some(f.location)
    else if name == "maxPrice" then Some(f.maxPrice)
    else if name == "minYear" then Some(f.minYear)
    else None
  }

  // ---------------------------------------------------------------------------
  // filteredCars
  // ---------------------------------------------------------------------------

  /** `!term || text.toLowerCase().includes(term.toLowerCase())` */
  predicate MentionsIgnoringCase(text: string, term: string) {
    Contains(LowerAscii(text), LowerAscii(term))
  }

  /** The test the filter applies to one car: an empty field imposes nothing;
      the model term must occur in the model or the make, the location term
      in the location, ignoring case; the price may not exceed Number(maxPrice)
      and the year may not be below Number(minYear), which a NaN fails. */
  predicate Keeps(f: SearchFilters, car: Cars.Car) {
    && (f.model == "" || MentionsIgnoringCase(car.model, f.model) || MentionsIgnoringCase(car.make, f.model))
    && (f.location == "" || MentionsIgnoringCase(car.location, f.location))
    && (f.maxPrice == "" || (ToNumber(f.maxPrice).Finite? && car.price <= ToNumber(f.maxPrice).value))
    && (f.minYear == "" || (ToNumber(f.minYear).Finite? && car.year >= ToNumber(f.minYear).value))
  }

  /** r is s with some entries deleted, the rest in their order. */
  predicate SubList<T(==)>(r: seq<T>, s: seq<T>) {
    r == [] || (s != [] && ((r[0] == s[0] && SubList(r[1..], s[1..])) || SubList(r, s[1..])))
  }

  /** carListings.filter(...): the cars the filter keeps, in the order given. */
  function FilteredCars(cars: seq<Cars.Car>, f: SearchFilters): (r: seq<Cars.Car>)
    ensures SubList(r, cars)
    ensures forall i :: 0 <= i < |r| ==> Keeps(f, r[i])
    ensures forall i :: 0 <= i < |cars| && Keeps(f, cars[i]) ==> cars[i] in r
    ensures forall c :: multiset(r)[c] == (if Keeps(f, c) then multiset(cars)[c] else 0)
  {
    if cars == [] then []
    else
      assert cars == [cars[0]] + cars[1..];
      var rest := FilteredCars(cars[1..], f);
      if Keeps(f, cars[0]) then [cars[0]] + rest else rest
  }

  /** With every field empty, every listing is shown. */
  lemma {:induction false} NoFiltersShowAll(cars: seq<Cars.Car>)
    ensures FilteredCars(cars, NoFilters) == cars
  {
    if cars != [] {
      NoFiltersShowAll(cars[1..]);
    }
  }

  /** Letter case does not matter in the text filters: a term and its
      lower-cased form keep the same cars. */
  lemma CaseDoesNotMatter(f: SearchFilters, car: Cars.Car)
    ensures Keeps(f.(model := LowerAscii(f.model), location := LowerAscii(f.location)), car) <==> Keeps(f, car)
  {
    LowerAsciiIdempotent(f.model);
    LowerAsciiIdempotent(f.location);
    assert LowerAscii(f.model) == "" <==> f.model == "";
    assert LowerAscii(f.location) == "" <==> f.location == "";
  }

  /** A maximum price or minimum year typed as an integer bounds every car
      shown. */
  lemma ShownCarsWithinBounds(cars: seq<Cars.Car>, f: SearchFilters, maxPrice: int, minYear: int)
    requires f.maxPrice == DecimalString(maxPrice) && f.minYear == DecimalString(minYear)
    ensures forall car :: car in FilteredCars(cars, f) ==> car.price <= maxPrice && car.year >= minYear
  {
    ToNumberDecimal(maxPrice);
    ToNumberDecimal(minYear);
    NatToDecimalValue(0);
    forall car | car in FilteredCars(cars, f) ensures car.price <= maxPrice && car.year >= minYear {
      assert DecimalString(maxPrice) != "" && DecimalString(minYear) != "";
    }
  }

  /** Text that is not a number makes the price filter drop every car. The
      input is `type="number"`, so the browser hands over either "" or a
      number's text. In this model NaN therefore arises only from decimal or
      exponent texts, which Number() really reads as numbers. */
  lemma NonNumericPriceShowsNothing(cars: seq<Cars.Car>, f: SearchFilters)
    requires ToNumber(f.maxPrice).NaN?
    ensures FilteredCars(cars, f) == []
  {
  }

  /** A price bound below every listed price shows nothing. */
  lemma PriceBoundExcludesAll(cars: seq<Cars.Car>, f: SearchFilters, n: int)
    requires f.maxPrice != "" && ToNumber(f.maxPrice) == Finite(n)
    requires forall i :: 0 <= i < |cars| ==> cars[i].price > n
    ensures FilteredCars(cars, f) == []
  {
  }

  /** A year bound above every listed year shows nothing. */
  lemma YearBoundExcludesAll(cars: seq<Cars.Car>, f: SearchFilters, n: int)
    requires f.minYear != "" && ToNumber(f.minYear) == Finite(n)
    requires forall i :: 0 <= i < |cars| ==> cars[i].year < n
    ensures FilteredCars(cars, f) == []
  {
  }

  // ---------------------------------------------------------------------------
  // Where the page and search-cars.php disagree
  // ---------------------------------------------------------------------------

  /** A maximum price of "0" is dropped by the server, which then lists every
      car, while the page applies it and, among listings with positive prices,
      shows none. */
  lemma ZeroMaxPriceDisagrees(cars: seq<Cars.Car>, input: Body)
    requires Get(input, "maxPrice") == Str("0")
    requires forall i :: 0 <= i < |cars| ==> cars[i].price > 0
    ensures SearchCars.MaxPriceFilter(input) == []
    ensures FilteredCars(cars, NoFilters.(maxPrice := "0")) == []
  {
    ToNumberDecimal(0);
    assert DecimalString(0) == "0";
    PriceBoundExcludesAll(cars, NoFilters.(maxPrice := "0"), 0);
  }

  /** A minimum year past next year is dropped by the server, while the page
      applies it and, among listings with valid years, shows none. */
  lemma FutureMinYearDisagrees(cars: seq<Cars.Car>, input: Body, currentYear: int, minYear: int)
    requires minYear > currentYear + 1
    requires Get(input, "minYear") == Num(minYear)
    requires forall i :: 0 <= i < |cars| ==> cars[i].year <= currentYear + 1
    ensures SearchCars.MinYearFilter(input, currentYear) == []
    ensures FilteredCars(cars, NoFilters.(minYear := DecimalString(minYear))) == []
  {
    ToNumberDecimal(minYear);
    YearBoundExcludesAll(cars, NoFilters.(minYear := DecimalString(minYear)), minYear);
  }

  // ---------------------------------------------------------------------------
  // The component's state
  // ---------------------------------------------------------------------------

  /** The filters with one input's new text; an unknown name adds a key the
      filter never reads, so the four fields stay. */
  function WithFilter(f: SearchFilters, name: string, value: string): (r: SearchFilters)
    ensures name in FilterNames ==> FilterOf(r, name) == Some(value)
    ensures forall k :: k != name ==> FilterOf(r, k) == FilterOf(f, k)
    ensures name !in FilterNames ==> r == f
  {
    if name == "model" then f.(model := value)
    else if name == "location" then f.(location := value)
    else if name == "maxPrice" then f.(maxPrice := value)
    else if name == "minYear" then f.(minYear := value)
    else f
  }

  class Page {
    var searchFilters: SearchFilters

    constructor ()
      ensures searchFilters == NoFilters
    {
      searchFilters := NoFilters;
    }

    /** The listings on screen. */
    function Shown(carListings: seq<Cars.Car>): (r: seq<Cars.Car>)
      reads this
      ensures SubList(r, carListings)
    {
      FilteredCars(carListings, searchFilters)
    }

    /** handleFilterChange: the input named `name` now holds `value`. */
    method HandleFilterChange(name: string, value: string)
      modifies this
      ensures searchFilters == WithFilter(old(searchFilters), name, value)
    {
      searchFilters := WithFilter(searchFilters, name, value);
    }

    /** clearFilters: every input empty again, so every listing shows. */
    method ClearFilters()
      modifies this
      ensures searchFilters == NoFilters
      ensures forall cars :: Shown(cars) == cars
    {
      searchFilters := NoFilters;
      forall cars: seq<Cars.Car> ensures Shown(cars) == cars {
        NoFiltersShowAll(cars);
      }
    }
  }
}
