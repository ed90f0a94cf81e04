/** What the client pages compute with beyond strings: JavaScript's Number()
    of a form field's text, and the rule both forms follow to clear a field's
    error message when the field is edited. */
module JsValues {
  import opened Wrappers
  import opened Text

  /** A JavaScript number as the pages meet it: an integer, or NaN. Every
      comparison with NaN is false. */
  datatype Number = Finite(value: int) | NaN

  /** Number(s): white space around the text is ignored, blank text is 0, an
      integer in decimal notation (with an optional sign) is its value, and
      any other text is NaN. */
  function ToNumber(s: string): (n: Number)
    ensures JsTrim(s) == "" ==> n == Finite(0)
    ensures n.Finite? && JsTrim(s) != "" ==> IsIntegerString(JsTrim(s)) && n.value == IntegerValue(JsTrim(s))
    ensures n.NaN? <==> JsTrim(s) != "" && !IsIntegerString(JsTrim(s))
  {
    var t := JsTrim(s);
    if t == "" then Finite(0)
    else if IsIntegerString(t) then Finite(IntegerValue(t))
    else NaN
  }

  /** An integer written in decimal, as String(n) writes it, reads back as the
      same number. */
  lemma ToNumberDecimal(n: int)
    ensures ToNumber(DecimalString(n)) == Finite(n)
  {
    var d := DecimalString(n);
    DecimalRoundTrip(n);
    assert forall i :: 0 <= i < |d| ==> d[i] == '-' || IsDigit(d[i]) by {
      if n < 0 {
        forall i | 1 <= i < |d| ensures IsDigit(d[i]) {
          assert d[i] == NatToDecimal(-n)[i - 1];
        }
      }
    }
    TrimNothing(d, IsJsSpace);
  }

  /** `if (errors[name]) setErrors(prev => ({ ...prev, [name]: '' }))` for
      one field: a message that shows is blanked, and a field without a
      message gets no entry. */
  function ClearedMessage(message: Option<string>): (r: Option<string>)
    ensures r.Some? <==> message.Some?
    ensures r.Some? ==> r.value == ""
  {
    if message.Some? && message.value != "" then Some("") else message
  }
}
