/** php-backend/add-car.php: the bearer-token check, the listing validator and
    the handler that inserts a validated listing into `car_listings`. */
module AddCar {
  import opened Wrappers
  import opened Text
  import opened Request
  import opened ErrorList
  import Auth
  import Store

  // ---------------------------------------------------------------------------
  // validateAuth
  // ---------------------------------------------------------------------------

  /** validateAuth: a header is required, and the token it carries once every
      'Bearer ' is removed must not be PHP-empty ("" or "0"). */
  function ValidateAuth(authorization: Option<string>): (ok: bool)
    ensures ok <==> authorization.Some? && !IsFalsyString(Auth.BearerToken(authorization.value))
  {
    match authorization
    case None => false
    case Some(h) =>
      var token := Auth.BearerToken(h);
      !(token == "" || token == "0")
  }

  /** 'Bearer ' alone and 'Bearer 0' are refused; any other token is enough. */
  lemma ValidateAuthExamples()
    ensures !ValidateAuth(None)
    ensures !ValidateAuth(Some("Bearer "))
    ensures !ValidateAuth(Some("Bearer 0"))
    ensures ValidateAuth(Some("Bearer x"))
  {
    Auth.BareBearerRefused();
    Auth.BearerPrefixRemoved("0");
    Auth.BearerPrefixRemoved("x");
  }

  // ---------------------------------------------------------------------------
  // validateCarData
  // ---------------------------------------------------------------------------

  const MakeMessage := "Make is required and must be at least 2 characters"
  const ModelMessage := "Model is required"
  const YearMessage := "Valid year is required"
  const MileageMessage := "Valid mileage is required"
  const LocationMessage := "Location is required and must be at least 3 characters"
  const PriceMessage := "Valid price is required"
  const SellerMessage := "Seller information is required"

  /** The messages in the order the fields are checked. */
  const CarMessages: seq<string> :=
    [MakeMessage, ModelMessage, YearMessage, MileageMessage, LocationMessage, PriceMessage, SellerMessage]

  /** strlen(trim($field)) */
  function TrimmedBytes(f: Field): nat {
    Utf8Length(PhpTrim(AsText(f)))
  }

  /** `!(empty($f) || strlen(trim($f)) < min)`: the text-field rule. */
  predicate TextFieldOk(f: Field, min: nat) {
    !IsEmpty(f) && TrimmedBytes(f) >= min
  }

  /** `!(!isset($f) || !is_numeric($f) || $f < lo || $f > hi)`. */
  predicate NumberInRange(f: Field, lo: int, hi: int) {
    IsSet(f) && IsNumeric(f) && lo <= NumValue(f) <= hi
  }

  /** `!(!isset($f) || !is_numeric($f) || $f < lo)`. */
  predicate NumberAtLeast(f: Field, lo: int) {
    IsSet(f) && IsNumeric(f) && NumValue(f) >= lo
  }

  /** The verdict of each check, in the order of CarMessages. */
  function CarChecks(data: Body, currentYear: int): (ok: seq<bool>)
    ensures |ok| == |CarMessages|
  {
    [ TextFieldOk(Get(data, "make"), 2),
      TextFieldOk(Get(data, "model"), 1),
      NumberInRange(Get(data, "year"), 1900, currentYear + 1),
      NumberAtLeast(Get(data, "mileage"), 0),
      TextFieldOk(Get(data, "location"), 3),
      NumberAtLeast(Get(data, "price"), 1),
      TextFieldOk(Get(data, "seller"), 2) ]
  }

  /** A valid listing as the rules read once PHP's empty() is unfolded:
      trimmed make of at least 2 bytes, trimmed model of at least 1 whose text
      is not "0", year in [1900, currentYear + 1], mileage at least 0, trimmed
      location of at least 3 bytes, price above 0, trimmed seller of at least
      2 bytes. */
  predicate CarDataValid(data: Body, currentYear: int) {
    var year, mileage, price := Get(data, "year"), Get(data, "mileage"), Get(data, "price");
    && TrimmedBytes(Get(data, "make")) >= 2
    && TrimmedBytes(Get(data, "model")) >= 1 && AsText(Get(data, "model")) != "0"
    && IsNumeric(year) && 1900 <= NumValue(year) <= currentYear + 1
    && IsNumeric(mileage) && NumValue(mileage) >= 0
    && TrimmedBytes(Get(data, "location")) >= 3
    && IsNumeric(price) && NumValue(price) > 0
    && TrimmedBytes(Get(data, "seller")) >= 2
  }

  /** For a minimum of two bytes or more the empty() guard is redundant: an
      empty() value converts to "" or "0" and trims to at most one byte. */
  lemma EmptyGuardRedundant(f: Field, min: nat)
    requires min >= 2
    ensures TextFieldOk(f, min) <==> TrimmedBytes(f) >= min
  {
    if IsEmpty(f) {
      assert AsText(f) == "" || AsText(f) == "0";
      assert PhpTrim("0") == "0";
    }
  }

  /** For the model, which needs one byte, the guard matters exactly for a
      value whose text is "0": it is one byte long and still refused. */
  lemma ModelGuard(f: Field)
    ensures TextFieldOk(f, 1) <==> TrimmedBytes(f) >= 1 && AsText(f) != "0"
  {
    if IsEmpty(f) {
      assert AsText(f) == "" || AsText(f) == "0";
    }
  }

  /** Every check passes exactly when the listing is valid. */
  lemma CarChecksMeanValid(data: Body, currentYear: int)
    ensures false !in CarChecks(data, currentYear) <==> CarDataValid(data, currentYear)
  {
    EmptyGuardRedundant(Get(data, "make"), 2);
    ModelGuard(Get(data, "model"));
    EmptyGuardRedundant(Get(data, "location"), 3);
    EmptyGuardRedundant(Get(data, "seller"), 2);
    var ok := CarChecks(data, currentYear);
    assert ok == [ok[0], ok[1], ok[2], ok[3], ok[4], ok[5], ok[6]];
  }

  /** A model of "0" is one byte long once trimmed and still refused. */
  lemma ModelZeroRefused(data: Body, currentYear: int)
    requires Get(data, "model") == Str("0")
    ensures TrimmedBytes(Get(data, "model")) == 1
    ensures !CarDataValid(data, currentYear)
  {
    assert PhpTrim("0") == "0";
  }

  /** The error list of a listing is empty exactly when it is valid, names
      exactly the failed checks, and keeps the field order. */
  lemma CarErrorsMeaning(data: Body, currentYear: int)
    ensures Failing(CarMessages, CarChecks(data, currentYear)) == [] <==> CarDataValid(data, currentYear)
    ensures forall k :: 0 <= k < |CarMessages| ==>
              (CarMessages[k] in Failing(CarMessages, CarChecks(data, currentYear)) <==> !CarChecks(data, currentYear)[k])
    ensures IsSubsequence(Failing(CarMessages, CarChecks(data, currentYear)), CarMessages)
  {
    var c, ok := CarMessages, CarChecks(data, currentYear);
    FailingEmpty(c, ok);
    FailingMembers(c, ok);
    FailingOrdered(c, ok);
    CarChecksMeanValid(data, currentYear);
  }

  /** validateCarData: appends one message per failed check, in field order. */
  method ValidateCarData(data: Body, currentYear: int) returns (errors: seq<string>)
    ensures errors == Failing(CarMessages, CarChecks(data, currentYear))
  {
    ghost var c, ok := CarMessages, CarChecks(data, currentYear);
    var make, model := Get(data, "make"), Get(data, "model");
    var year, mileage := Get(data, "year"), Get(data, "mileage");
    var location, price, seller := Get(data, "location"), Get(data, "price"), Get(data, "seller");

    // Each step appends its message when its check fails; after step k the
    // list is that of the first k checks.
    errors := [];
    errors := errors + (if !TextFieldOk(make, 2) then [MakeMessage] else []);
    assert errors == FailingPrefix(c, ok, 1);
    errors := errors + (if !TextFieldOk(model, 1) then [ModelMessage] else []);
    assert errors == FailingPrefix(c, ok, 2);
    errors := errors + (if !NumberInRange(year, 1900, currentYear + 1) then [YearMessage] else []);
    assert errors == FailingPrefix(c, ok, 3);
    errors := errors + (if !NumberAtLeast(mileage, 0) then [MileageMessage] else []);
    assert errors == FailingPrefix(c, ok, 4);
    errors := errors + (if !TextFieldOk(location, 3) then [LocationMessage] else []);
    assert errors == FailingPrefix(c, ok, 5);
    errors := errors + (if !NumberAtLeast(price, 1) then [PriceMessage] else []);
    assert errors == FailingPrefix(c, ok, 6);
    errors := errors + (if !TextFieldOk(seller, 2) then [SellerMessage] else []);
    assert errors == FailingPrefix(c, ok, 7);
  }

  // ---------------------------------------------------------------------------
  // The endpoint
  // ---------------------------------------------------------------------------

  /** The listing echoed back on success. */
  datatype NewCar = NewCar(
    id: string, make: string, model: string, year: int, mileage: int,
    location: string, price: int, seller: string)

  datatype Response = Rejected(message: string) | Created(car: NewCar)

  const InvalidInput := "Invalid input"
  const AddFailed := "Failed to add car listing. Please try again."

  /** The add-car request: authentication first, then the body, then the
      validator; a valid listing is stored with trimmed text and integer
      numbers. `storeFails` stands for a PDOException raised by the insert. */
  method HandleAddCar(table: Store.ListingsTable, authorization: Option<string>,
                      body: Option<Body>, currentYear: int, storeFails: bool)
    returns (response: Response)
    requires table.Valid()
    modifies table
    ensures table.Valid()
    ensures !ValidateAuth(authorization) ==> response == Rejected(Auth.AuthRequired)
    ensures ValidateAuth(authorization) && IsFalsyBody(body) ==> response == Rejected(InvalidInput)
    ensures ValidateAuth(authorization) && !IsFalsyBody(body) && !CarDataValid(body.value, currentYear) ==>
              response == Rejected(Join(Failing(CarMessages, CarChecks(body.value, currentYear)), ", "))
    ensures response.Created? <==>
              ValidateAuth(authorization) && !IsFalsyBody(body)
              && CarDataValid(body.value, currentYear) && !storeFails
    ensures ValidateAuth(authorization) && !IsFalsyBody(body) && CarDataValid(body.value, currentYear) && storeFails ==>
              response == Rejected(AddFailed)
    ensures response.Rejected? ==> table.rows == old(table.rows) && table.nextId == old(table.nextId)
    ensures response.Created? ==>
              var d := body.value;
              var row := Store.ListingRow(
                old(table.nextId), PhpTrim(AsText(Get(d, "make"))), PhpTrim(AsText(Get(d, "model"))),
                NumValue(Get(d, "year")), NumValue(Get(d, "mileage")), PhpTrim(AsText(Get(d, "location"))),
                NumValue(Get(d, "price")), PhpTrim(AsText(Get(d, "seller"))));
              && table.rows == old(table.rows) + [row]
              && table.nextId == old(table.nextId) + 1
              && response.car == NewCar(DecimalString(row.id), row.make, row.model, row.year,
                                        row.mileage, row.location, row.price, row.seller)
  {
    if !ValidateAuth(authorization) {
      return Rejected(Auth.AuthRequired);
    }
    if IsFalsyBody(body) {
      return Rejected(InvalidInput);
    }
    var input := body.value;
    var errors := ValidateCarData(input, currentYear);
    CarErrorsMeaning(input, currentYear);
    if errors != [] {
      return Rejected(Join(errors, ", "));
    }

    var make := PhpTrim(AsText(Get(input, "make")));
    var model := PhpTrim(AsText(Get(input, "model")));
    var year := NumValue(Get(input, "year"));
    var mileage := NumValue(Get(input, "mileage"));
    var location := PhpTrim(AsText(Get(input, "location")));
    var price := NumValue(Get(input, "price"));
    var seller := PhpTrim(AsText(Get(input, "seller")));

    if storeFails {
      return Rejected(AddFailed);
    }
    var carId := table.Insert(make, model, year, mileage, location, price, seller);
    response := Created(NewCar(DecimalString(carId), make, model, year, mileage, location, price, seller));
  }
}
