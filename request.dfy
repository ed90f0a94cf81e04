/** How the PHP endpoints see a decoded JSON request body: each key holds a
    string, an integer, or nothing (missing or null), and the rules test it
    with PHP's empty(), isset(), is_numeric() and string conversion. */
module Request {
  import opened Wrappers
  import opened Text

  /** One field of a decoded body. Absent stands for a missing key and for
      JSON null alike: isset() is false and empty() is true for both. */
  datatype Field = Absent | Str(s: string) | Num(n: int)

  /** json_decode(..., true) of an object. */
  type Body = map<string, Field>

  /** $input[key], reading a missing key as null. */
  function Get(body: Body, key: string): (f: Field)
    ensures key !in body ==> f == Absent
    ensures key in body ==> f == body[key]
  {
    if key in body then body[key] else Absent
  }

  /** PHP isset(). */
  predicate IsSet(f: Field) {
    !f.Absent?
  }

  /** PHP empty(): true for null, "", "0" and 0. */
  predicate IsEmpty(f: Field) {
    match f
    case Absent => true
    case Str(s) => s == "" || s == "0"
    case Num(n) => n == 0
  }

  /** PHP is_numeric(), for integers and integer strings (an optional sign and
      at least one digit). */
  predicate IsNumeric(f: Field) {
    match f
    case Absent => false
    case Str(s) => IsIntegerString(s)
    case Num(_) => true
  }

  /** The number a numeric field stands for: what (int) gives and what a
      comparison with an integer uses. */
  function NumValue(f: Field): int
    requires IsNumeric(f)
  {
    match f
    case Str(s) => IntegerValue(s)
    case Num(n) => n
  }

  /** PHP's conversion to string, as trim() and strlen() perform it. */
  function AsText(f: Field): string {
    match f
    case Absent => ""
    case Str(s) => s
    case Num(n) => DecimalString(n)
  }

  /** empty() holds exactly when the field converts to "" or "0". */
  lemma EmptyFieldText(f: Field)
    ensures IsEmpty(f) <==> IsFalsyString(AsText(f))
  {
    if f.Num? && f.n != 0 {
      var n := f.n;
      if n > 0 {
        NatToDecimalValue(n);
      } else {
        assert DecimalString(n)[0] == '-';
      }
    }
  }

  /** `!$input` after json_decode: the body is missing, could not be decoded,
      or decoded to an empty array. */
  predicate IsFalsyBody(body: Option<Body>) {
    body.None? || body.value == map[]
  }

  /** A PHP string is falsy when it is "" or "0". */
  predicate IsFalsyString(s: string) {
    s == "" || s == "0"
  }
}
