/** project/src/pages/Dashboard.tsx: the add-a-car form, with its validator,
    its change handler and its submit handler. */
module Dashboard {
  import opened Wrappers
  import opened Text
  import opened Request
  import opened JsValues
  import AddCar

  /** The `carData` state: year, mileage and price hold numbers. */
  datatype CarData = CarData(
    make: string, model: string, year: Number, mileage: Number, location: string, price: Number)

  /** The form's initial state and what a successful submit restores. */
  function EmptyForm(currentYear: int): CarData {
    CarData("", "", Finite(currentYear), Finite(0), "", Finite(0))
  }

  /** The inputs of the form. */
  datatype CarField = Make | Model | Year | Mileage | Location | Price

  /** The `name` attribute of each input. */
  function FieldName(f: CarField): string {
    match f
    case Make => "make"
    case Model => "model"
    case Year => "year"
    case Mileage => "mileage"
    case Location => "location"
    case Price => "price"
  }

  /** The input a change event's `name` designates, if any. */
  function FieldNamed(name: string): (f: Option<CarField>)
    ensures f.Some? ==> FieldName(f.value) == name
    ensures forall g :: FieldName(g) == name ==> f == Some(g)
  {
    if name == "make" then Some(Make)
    else if name == "model" then Some(Model)
    else if name == "year" then Some(Year)
    else if name == "mileage" then Some(Mileage)
    else if name == "location" then Some(Location)
    else if name == "price" then Some(Price)
    else None
  }

  /** Year, mileage and price hold numbers; the others hold text. */
  predicate IsNumberField(f: CarField) {
    f.Year? || f.Mileage? || f.Price?
  }

  /** What one field holds. */
  datatype Entry = TextEntry(text: string) | NumberEntry(number: Number)

  function FieldOf(d: CarData, f: CarField): Entry {
    match f
    case Make => TextEntry(d.make)
    case Model => TextEntry(d.model)
    case Year => NumberEntry(d.year)
    case Mileage => NumberEntry(d.mileage)
    case Location => TextEntry(d.location)
    case Price => NumberEntry(d.price)
  }

  /** The `errors` object: for each input, its entry if it has one. */
  datatype Errors = Errors(
    make: Option<string>, model: Option<string>, year: Option<string>,
    mileage: Option<string>, location: Option<string>, price: Option<string>)

  const NoErrors := Errors(None, None, None, None, None, None)

  function ErrorOf(e: Errors, f: CarField): Option<string> {
    match f
    case Make => e.make
    case Model => e.model
    case Year => e.year
    case Mileage => e.mileage
    case Location => e.location
    case Price => e.price
  }

  /** The object with the entry of f replaced and every other entry kept. */
  function WithError(e: Errors, f: CarField, message: Option<string>): (r: Errors)
    ensures ErrorOf(r, f) == message
    ensures forall g :: g != f ==> ErrorOf(r, g) == ErrorOf(e, g)
  {
    match f
    case Make => e.(make := message)
    case Model => e.(model := message)
    case Year => e.(year := message)
    case Mileage => e.(mileage := message)
    case Location => e.(location := message)
    case Price => e.(price := message)
  }

  /** One for an entry that is there. */
  function Present(m: Option<string>): nat {
    if m.Some? then 1 else 0
  }

  /** Object.keys(errors).length */
  function KeyCount(e: Errors): (n: nat)
    ensures n == 0 <==> e == NoErrors
  {
    Present(e.make) + Present(e.model) + Present(e.year) + Present(e.mileage) + Present(e.location)
    + Present(e.price)
  }

  // ---------------------------------------------------------------------------
  // validateForm
  // ---------------------------------------------------------------------------

  const MakeRequired := "Make is required"
  const ModelRequired := "Model is required"
  const YearInvalid := "Please enter a valid year"
  const MileageNegative := "Mileage cannot be negative"
  const LocationRequired := "Location is required"
  const PriceNotPositive := "Price must be greater than 0"

  /** The message validateForm records for a field whose check fails. A
      comparison with NaN is false, so a NaN number fails no check. */
  function FieldError(d: CarData, f: CarField, currentYear: int): Option<string> {
    match f
    case Make => if JsTrim(d.make) == "" then Some(MakeRequired) else None
    case Model => if JsTrim(d.model) == "" then Some(ModelRequired) else None
    case Year =>
      if d.year.Finite? && (d.year.value < 1900 || d.year.value > currentYear + 1) then Some(YearInvalid) else None
    case Mileage => if d.mileage.Finite? && d.mileage.value < 0 then Some(MileageNegative) else None
    case Location => if JsTrim(d.location) == "" then Some(LocationRequired) else None
    case Price => if d.price.Finite? && d.price.value <= 0 then Some(PriceNotPositive) else None
  }

  /** The errors object validateForm builds: an entry for each failing
      field, holding that field's message, and none for the others. */
  function FormErrors(d: CarData, currentYear: int): (e: Errors)
    ensures forall f :: ErrorOf(e, f) == FieldError(d, f, currentYear)
  {
    Errors(FieldError(d, Make, currentYear), FieldError(d, Model, currentYear), FieldError(d, Year, currentYear),
           FieldError(d, Mileage, currentYear), FieldError(d, Location, currentYear), FieldError(d, Price, currentYear))
  }

  /** A form the page accepts: trimmed make, model and location not empty, a
      year from 1900 to next year, mileage not negative and a positive price
      (a NaN passes every number check). */
  predicate FormValid(d: CarData, currentYear: int) {
    && JsTrim(d.make) != "" && JsTrim(d.model) != "" && JsTrim(d.location) != ""
    && (d.year.Finite? ==> 1900 <= d.year.value <= currentYear + 1)
    && (d.mileage.Finite? ==> d.mileage.value >= 0)
    && (d.price.Finite? ==> d.price.value > 0)
  }

  /** validateForm answers true exactly for a valid form. */
  lemma FormErrorsMeaning(d: CarData, currentYear: int)
    ensures KeyCount(FormErrors(d, currentYear)) == 0 <==> FormValid(d, currentYear)
  {
    var e := FormErrors(d, currentYear);
    if !FormValid(d, currentYear) {
      if JsTrim(d.make) == "" { assert ErrorOf(e, Make).Some?; }
      else if JsTrim(d.model) == "" { assert ErrorOf(e, Model).Some?; }
      else if JsTrim(d.location) == "" { assert ErrorOf(e, Location).Some?; }
      else if !(d.year.Finite? ==> 1900 <= d.year.value <= currentYear + 1) { assert ErrorOf(e, Year).Some?; }
      else if !(d.mileage.Finite? ==> d.mileage.value >= 0) { assert ErrorOf(e, Mileage).Some?; }
      else { assert ErrorOf(e, Price).Some?; }
    }
  }

  /** The body of validateForm up to setErrors: one check per field, each
      recording its message under the field's key of the new errors object. */
  method CollectErrors(d: CarData, currentYear: int) returns (newErrors: Errors)
    ensures newErrors == FormErrors(d, currentYear)
  {
    assert FormErrors(d, currentYear) ==
      Errors(FieldError(d, Make, currentYear), FieldError(d, Model, currentYear), FieldError(d, Year, currentYear),
             FieldError(d, Mileage, currentYear), FieldError(d, Location, currentYear), FieldError(d, Price, currentYear));
    var make, model, year, mileage, location, price := None, None, None, None, None, None;
    if JsTrim(d.make) == "" { make := Some(MakeRequired); }
    if JsTrim(d.model) == "" { model := Some(ModelRequired); }
    if d.year.Finite? && (d.year.value < 1900 || d.year.value > currentYear + 1) { year := Some(YearInvalid); }
    if d.mileage.Finite? && d.mileage.value < 0 { mileage := Some(MileageNegative); }
    if JsTrim(d.location) == "" { location := Some(LocationRequired); }
    if d.price.Finite? && d.price.value <= 0 { price := Some(PriceNotPositive); }
    newErrors := Errors(make, model, year, mileage, location, price);
  }

  // ---------------------------------------------------------------------------
  // handleInputChange
  // ---------------------------------------------------------------------------

  /** The form after an input named `name` changed to `value`: Number(value)
      for year, mileage and price, the text itself for the others, and no
      other field touched; a name that is no input's changes nothing the form
      reads. */
  function WithInput(d: CarData, name: string, value: string): (r: CarData)
    ensures FieldNamed(name).None? ==> r == d
    ensures forall f :: FieldNamed(name) == Some(f) ==>
              FieldOf(r, f) == if IsNumberField(f) then NumberEntry(ToNumber(value)) else TextEntry(value)
    ensures forall g :: FieldNamed(name) != Some(g) ==> FieldOf(r, g) == FieldOf(d, g)
  {
    match FieldNamed(name)
    case None => d
    case Some(Make) => d.(make := value)
    case Some(Model) => d.(model := value)
    case Some(Location) => d.(location := value)
    case Some(Year) => d.(year := ToNumber(value))
    case Some(Mileage) => d.(mileage := ToNumber(value))
    case Some(Price) => d.(price := ToNumber(value))
  }

  /** Emptying the year or the price input gives 0, which then fails its
      check. */
  lemma ClearedNumbersFail(d: CarData, currentYear: int)
    requires currentYear >= 1899
    ensures var r := WithInput(WithInput(d, "year", ""), "price", "");
            FieldError(r, Year, currentYear).Some? && FieldError(r, Price, currentYear).Some?
  {
    assert JsTrim("") == "";
  }

  // ---------------------------------------------------------------------------
  // Where the page and add-car.php disagree
  // ---------------------------------------------------------------------------

  /** The body the page's listing reaches add-car.php as, with the seller the
      app adds; JSON has no NaN and sends null in its place. */
  function Payload(d: CarData, seller: string): (body: Body)
    ensures body.Keys == {"make", "model", "year", "mileage", "location", "price", "seller"}
    ensures Get(body, "make") == Str(d.make) && Get(body, "model") == Str(d.model)
    ensures Get(body, "location") == Str(d.location) && Get(body, "seller") == Str(seller)
    ensures d.year.Finite? ==> Get(body, "year") == Num(d.year.value)
    ensures d.mileage.Finite? ==> Get(body, "mileage") == Num(d.mileage.value)
    ensures d.price.Finite? ==> Get(body, "price") == Num(d.price.value)
    ensures d.year.NaN? ==> Get(body, "year") == Absent
    ensures d.mileage.NaN? ==> Get(body, "mileage") == Absent
    ensures d.price.NaN? ==> Get(body, "price") == Absent
  {
    map["make" := Str(d.make), "model" := Str(d.model), "year" := NumberField(d.year),
        "mileage" := NumberField(d.mileage), "location" := Str(d.location),
        "price" := NumberField(d.price), "seller" := Str(seller)]
  }

  function NumberField(n: Number): Field {
    if n.Finite? then Num(n.value) else Absent
  }

  /** A make the page passes can be too short for the server. */
  lemma ShortMakeRefusedByServer(d: CarData, seller: string, currentYear: int)
    requires Utf8Length(PhpTrim(d.make)) < 2
    ensures !AddCar.CarDataValid(Payload(d, seller), currentYear)
  {
    assert Get(Payload(d, seller), "make") == Str(d.make);
  }

  /** So can a location. */
  lemma ShortLocationRefusedByServer(d: CarData, seller: string, currentYear: int)
    requires Utf8Length(PhpTrim(d.location)) < 3
    ensures !AddCar.CarDataValid(Payload(d, seller), currentYear)
  {
    assert Get(Payload(d, seller), "location") == Str(d.location);
  }

  /** For example, the make "A" at location "NY": the page accepts it. */
  lemma ShortTextAcceptedByPage(currentYear: int)
    requires currentYear >= 1900
    ensures FormValid(CarData("A", "B", Finite(currentYear), Finite(0), "NY", Finite(1)), currentYear)
  {
    TrimNothing("A", IsJsSpace);
    TrimNothing("B", IsJsSpace);
    TrimNothing("NY", IsJsSpace);
  }

  // ---------------------------------------------------------------------------
  // The component's state
  // ---------------------------------------------------------------------------

  class Page {
    var showAddCarForm: bool
    var carData: CarData
    var errors: Errors

    constructor (currentYear: int)
      ensures !showAddCarForm && carData == EmptyForm(currentYear) && errors == NoErrors
    {
      showAddCarForm, carData, errors := false, EmptyForm(currentYear), NoErrors;
    }

    /** handleInputChange: the field takes the new value, and its message,
        if it shows one, is blanked. */
    method HandleInputChange(name: string, value: string)
      modifies this
      ensures carData == WithInput(old(carData), name, value)
      ensures FieldNamed(name).Some? ==>
                var f := FieldNamed(name).value;
                errors == WithError(old(errors), f, ClearedMessage(ErrorOf(old(errors), f)))
      ensures FieldNamed(name).None? ==> errors == old(errors)
      ensures showAddCarForm == old(showAddCarForm)
    {
      carData := WithInput(carData, name, value);
      var field := FieldNamed(name);
      if field.Some? {
        var shown := ErrorOf(errors, field.value);
        if shown.Some? && shown.value != "" {
          errors := WithError(errors, field.value, Some(""));
        }
      }
    }

    /** validateForm: the errors object is replaced by that of the current
        form, and the answer is whether it has no entry. */
    method ValidateForm(currentYear: int) returns (valid: bool)
      modifies this
      ensures errors == FormErrors(carData, currentYear)
      ensures valid <==> FormValid(carData, currentYear)
      ensures carData == old(carData) && showAddCarForm == old(showAddCarForm)
    {
      var d := carData;
      var newErrors := CollectErrors(d, currentYear);
      errors := newErrors;
      FormErrorsMeaning(d, currentYear);
      valid := KeyCount(newErrors) == 0;
    }

    /** handleSubmit: a valid form is handed to onAddCar, reset and hidden;
        an invalid one only gets its errors. */
    method HandleSubmit(currentYear: int) returns (added: Option<CarData>)
      modifies this
      ensures errors == FormErrors(old(carData), currentYear)
      ensures FormValid(old(carData), currentYear) ==>
                added == Some(old(carData)) && carData == EmptyForm(currentYear) && !showAddCarForm
      ensures !FormValid(old(carData), currentYear) ==>
                added == None && carData == old(carData) && showAddCarForm == old(showAddCarForm)
    {
      var valid := ValidateForm(currentYear);
      if valid {
        added := Some(carData);
        carData := EmptyForm(currentYear);
        showAddCarForm := false;
      } else {
        added := None;
      }
    }
  }
}
