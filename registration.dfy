/** project/src/pages/Registration.tsx: the sign-up form, with its validator,
    its change handler and the body its submit handler sends. */
module Registration {
  import opened Wrappers
  import opened Text
  import opened Request
  import opened JsValues
  import Register

  /** The `formData` state: seven text inputs. */
  datatype FormData = FormData(
    name: string, address: string, phone: string, email: string,
    username: string, password: string, confirmPassword: string)

  /** The form's initial state. */
  const EmptyForm := FormData("", "", "", "", "", "", "")

  /** The inputs of the form. */
  datatype FormField = Name | Address | Phone | Email | Username | Password | ConfirmPassword

  /** The `name` attribute of each input. */
  function FieldName(f: FormField): string {
    match f
    case Name => "name"
    case Address => "address"
    case Phone => "phone"
    case Email => "email"
    case Username => "username"
    case Password => "password"
    case ConfirmPassword => "confirmPassword"
  }

  /** The input a change event's `name` designates, if any. */
  function FieldNamed(name: string): (f: Option<FormField>)
    ensures f.Some? ==> FieldName(f.value) == name
    ensures forall g :: FieldName(g) == name ==> f == Some(g)
  {
    if name == "name" then Some(Name)
    else if name == "address" then Some(Address)
    else if name == "phone" then Some(Phone)
    else if name == "email" then Some(Email)
    else if name == "username" then Some(Username)
    else if name == "password" then Some(Password)
    else if name == "confirmPassword" then Some(ConfirmPassword)
    else None
  }

  function FieldOf(d: FormData, f: FormField): string {
    match f
    case Name => d.name
    case Address => d.address
    case Phone => d.phone
    case Email => d.email
    case Username => d.username
    case Password => d.password
    case ConfirmPassword => d.confirmPassword
  }

  /** The `errors` object: for each input, its entry if it has one. */
  datatype Errors = Errors(
    name: Option<string>, address: Option<string>, phone: Option<string>, email: Option<string>,
    username: Option<string>, password: Option<string>, confirmPassword: Option<string>)

  const NoErrors := Errors(None, None, None, None, None, None, None)

  function ErrorOf(e: Errors, f: FormField): Option<string> {
    match f
    case Name => e.name
    case Address => e.address
    case Phone => e.phone
    case Email => e.email
    case Username => e.username
    case Password => e.password
    case ConfirmPassword => e.confirmPassword
  }

  /** The object with the entry of f replaced and every other entry kept. */
  function WithError(e: Errors, f: FormField, message: Option<string>): (r: Errors)
    ensures ErrorOf(r, f) == message
    ensures forall g :: g != f ==> ErrorOf(r, g) == ErrorOf(e, g)
  {
    match f
    case Name => e.(name := message)
    case Address => e.(address := message)
    case Phone => e.(phone := message)
    case Email => e.(email := message)
    case Username => e.(username := message)
    case Password => e.(password := message)
    case ConfirmPassword => e.(confirmPassword := message)
  }

  /** One for an entry that is there. */
  function Present(m: Option<string>): nat {
    if m.Some? then 1 else 0
  }

  /** Object.keys(errors).length */
  function KeyCount(e: Errors): (n: nat)
    ensures n == 0 <==> e == NoErrors
  {
    Present(e.name) + Present(e.address) + Present(e.phone) + Present(e.email)
    + Present(e.username) + Present(e.password) + Present(e.confirmPassword)
  }

  // ---------------------------------------------------------------------------
  // The phone rule
  // ---------------------------------------------------------------------------

  /** phone.replace(/\D/g, ''): the ASCII digits of s, in order. */
  function Digits(s: string): (r: string)
    ensures AllDigits(r) && |r| <= |s|
  {
    if s == [] then [] else (if IsDigit(s[0]) then [s[0]] else []) + Digits(s[1..])
  }

  /** Digits keeps every digit of s as often as s holds it, and nothing else;
      so TenDigits counts exactly the digits typed. */
  lemma {:induction false} DigitsKeepsEveryDigit(s: string)
    ensures forall c :: multiset(Digits(s))[c] == (if IsDigit(c) then multiset(s)[c] else 0)
  {
    if s != [] {
      DigitsKeepsEveryDigit(s[1..]);
      assert s == [s[0]] + s[1..];
    }
  }

  /** /^\(\d{3}\)\s\d{3}-\d{4}$/: "(ddd) ddd-dddd", with any one white-space
      character after the parenthesis. */
  predicate FormattedPhone(s: string) {
    && |s| == 14 && s[0] == '(' && AllDigits(s[1..4]) && s[4] == ')' && IsJsSpace(s[5])
    && AllDigits(s[6..9]) && s[9] == '-' && AllDigits(s[10..])
  }

  /** /^\d{10}$/ applied to the digits: exactly ten of them. */
  predicate TenDigits(s: string) {
    |Digits(s)| == 10
  }

  lemma {:induction false} DigitsAppend(a: string, b: string)
    ensures Digits(a + b) == Digits(a) + Digits(b)
  {
    if a != [] {
      assert (a + b)[0] == a[0] && (a + b)[1..] == a[1..] + b;
      DigitsAppend(a[1..], b);
    } else {
      assert a + b == b;
    }
  }

  lemma {:induction false} DigitsOfDigits(s: string)
    requires AllDigits(s)
    ensures Digits(s) == s
  {
    if s != [] {
      DigitsOfDigits(s[1..]);
    }
  }

  /** A phone written "(ddd) ddd-dddd" has ten digits, so the first pattern
      accepts nothing the digit count does not. */
  lemma FormattedPhoneHasTenDigits(s: string)
    requires FormattedPhone(s)
    ensures TenDigits(s)
  {
    assert s == s[..1] + s[1..4] + s[4..6] + s[6..9] + s[9..10] + s[10..];
    DigitsAppend(s[..1] + s[1..4] + s[4..6] + s[6..9] + s[9..10], s[10..]);
    DigitsAppend(s[..1] + s[1..4] + s[4..6] + s[6..9], s[9..10]);
    DigitsAppend(s[..1] + s[1..4] + s[4..6], s[6..9]);
    DigitsAppend(s[..1] + s[1..4], s[4..6]);
    DigitsAppend(s[..1], s[1..4]);
    DigitsOfDigits(s[1..4]);
    DigitsOfDigits(s[6..9]);
    DigitsOfDigits(s[10..]);
    assert Digits(s[..1]) == [] && Digits(s[9..10]) == [];
    assert Digits(s[4..6]) == [] by {
      assert s[4..6][1..] == [s[5]];
    }
  }

  // ---------------------------------------------------------------------------
  // The email rule
  // ---------------------------------------------------------------------------

  /** /\S+@\S+\.\S+/ matches at an '@' at `at` and a '.' at `dot`: a
      non-space before the '@', only non-spaces (at least one) between the two,
      and a non-space after the '.'. The pattern is not anchored, so the longest
      runs of the match need no more than these. */
  predicate EmailMatchAt(s: string, at: int, dot: int) {
    && 1 <= at && at + 1 < dot && dot + 1 < |s|
    && s[at] == '@' && s[dot] == '.'
    && !IsJsSpace(s[at - 1]) && !IsJsSpace(s[dot + 1])
    && forall k :: at < k < dot ==> !IsJsSpace(s[k])
  }

  predicate EmailShaped(s: string) {
    exists at, dot | 0 <= at < |s| && 0 <= dot < |s| :: EmailMatchAt(s, at, dot)
  }

  /** \S+: a run of one or more non-space characters. */
  predicate NonSpaceRun(t: string) {
    t != [] && forall i :: 0 <= i < |t| ==> !IsJsSpace(t[i])
  }

  /** Text of any kind may surround the address: x@y.z inside other text, with
      x, y and z free of white space, passes. */
  lemma EmailUnanchored(before: string, x: string, y: string, z: string, after: string)
    requires NonSpaceRun(x) && NonSpaceRun(y) && NonSpaceRun(z)
    ensures EmailShaped(before + x + "@" + y + "." + z + after)
  {
    var s := before + x + "@" + y + "." + z + after;
    var at := |before| + |x|;
    var dot := at + 1 + |y|;
    assert s[at - 1] == x[|x| - 1];
    assert s[dot + 1] == z[0];
    forall k | at < k < dot ensures !IsJsSpace(s[k]) {
      assert s[k] == y[k - at - 1];
    }
    assert EmailMatchAt(s, at, dot);
  }

  /** Conversely, a match splits the text into surrounding text and
      x + "@" + y + "." + z, with x and z one non-space each and y a run of
      non-spaces. */
  lemma EmailMatchSplits(s: string, at: int, dot: int)
    requires EmailMatchAt(s, at, dot)
    ensures s == s[..at - 1] + s[at - 1..at] + "@" + s[at + 1..dot] + "." + s[dot + 1..dot + 2] + s[dot + 2..]
    ensures NonSpaceRun(s[at - 1..at]) && NonSpaceRun(s[at + 1..dot]) && NonSpaceRun(s[dot + 1..dot + 2])
  {
    assert s == s[..at - 1] + s[at - 1..at] + s[at..at + 1] + s[at + 1..dot] + s[dot..dot + 1] + s[dot + 1..dot + 2] + s[dot + 2..];
    var y := s[at + 1..dot];
    forall k | 0 <= k < |y| ensures !IsJsSpace(y[k]) {
      assert y[k] == s[at + 1 + k];
    }
  }

  /** A text the pattern accepts is not blank. */
  lemma EmailShapedNotBlank(s: string)
    requires EmailShaped(s)
    ensures JsTrim(s) != ""
  {
    var at, dot :| EmailMatchAt(s, at, dot);
    TrimSpec(s, IsJsSpace);
  }

  // ---------------------------------------------------------------------------
  // validateForm
  // ---------------------------------------------------------------------------

  const NameRequired := "Name is required"
  const AddressRequired := "Address is required"
  const PhoneRequired := "Phone number is required"
  const PhoneInvalid := "Please enter a valid phone number"
  const EmailRequired := "Email is required"
  const EmailInvalid := "Please enter a valid email address"
  const UsernameRequired := "Username is required"
  const UsernameShort := "Username must be at least 3 characters"
  const PasswordRequired := "Password is required"
  const PasswordShort := "Password must be at least 6 characters"
  const PasswordsDiffer := "Passwords do not match"

  /** The message validateForm records for a field whose check fails: blank
      text is required, a phone needs the format or ten digits, an email the
      pattern, a username 3 and a password 6 code units before trimming, and
      the confirmation must equal the password. */
  function FieldError(d: FormData, f: FormField): Option<string> {
    match f
    case Name => if JsTrim(d.name) == "" then Some(NameRequired) else None
    case Address => if JsTrim(d.address) == "" then Some(AddressRequired) else None
    case Phone =>
      if JsTrim(d.phone) == "" then Some(PhoneRequired)
      else if !FormattedPhone(d.phone) && !TenDigits(d.phone) then Some(PhoneInvalid)
      else None
    case Email =>
      if JsTrim(d.email) == "" then Some(EmailRequired)
      else if !EmailShaped(d.email) then Some(EmailInvalid)
      else None
    case Username =>
      if JsTrim(d.username) == "" then Some(UsernameRequired)
      else if Utf16Length(d.username) < 3 then Some(UsernameShort)
      else None
    case Password =>
      if JsTrim(d.password) == "" then Some(PasswordRequired)
      else if Utf16Length(d.password) < 6 then Some(PasswordShort)
      else None
    case ConfirmPassword => if d.password != d.confirmPassword then Some(PasswordsDiffer) else None
  }

  /** The errors object validateForm builds: an entry for each failing
      field, holding that field's message, and none for the others. */
  function FormErrors(d: FormData): (e: Errors)
    ensures forall f :: ErrorOf(e, f) == FieldError(d, f)
  {
    Errors(FieldError(d, Name), FieldError(d, Address), FieldError(d, Phone), FieldError(d, Email),
           FieldError(d, Username), FieldError(d, Password), FieldError(d, ConfirmPassword))
  }

  /** A form the page accepts, with the phone rule reduced to its digit
      count. */
  predicate FormValid(d: FormData) {
    && JsTrim(d.name) != "" && JsTrim(d.address) != ""
    && TenDigits(d.phone)
    && EmailShaped(d.email)
    && JsTrim(d.username) != "" && Utf16Length(d.username) >= 3
    && JsTrim(d.password) != "" && Utf16Length(d.password) >= 6
    && d.confirmPassword == d.password
  }

  /** The phone is accepted exactly when it has ten digits; a phone with ten
      digits is never blank. */
  lemma PhoneRule(d: FormData)
    ensures FieldError(d, Phone).None? <==> TenDigits(d.phone)
  {
    var phone := d.phone;
    if FormattedPhone(phone) {
      FormattedPhoneHasTenDigits(phone);
    }
    if TenDigits(phone) {
      TenDigitsNotBlank(phone);
    }
  }

  lemma TenDigitsNotBlank(s: string)
    requires TenDigits(s)
    ensures JsTrim(s) != ""
  {
    TrimSpec(s, IsJsSpace);
    if JsTrim(s) == "" {
      NoDigitsInSpace(s);
    }
  }

  lemma {:induction false} NoDigitsInSpace(s: string)
    requires forall i :: 0 <= i < |s| ==> IsJsSpace(s[i])
    ensures Digits(s) == []
  {
    if s != [] {
      NoDigitsInSpace(s[1..]);
    }
  }

  /** A white-space password is reported as missing, not as short. */
  lemma BlankPasswordRequired(d: FormData)
    requires forall i :: 0 <= i < |d.password| ==> IsJsSpace(d.password[i])
    ensures FieldError(d, Password) == Some(PasswordRequired)
  {
    TrimSpec(d.password, IsJsSpace);
  }

  /** A mismatched confirmation is reported whatever the password's own
      verdict. */
  lemma MismatchAlwaysReported(d: FormData)
    requires d.confirmPassword != d.password
    ensures FieldError(d, ConfirmPassword) == Some(PasswordsDiffer)
    ensures !FormValid(d)
  {
  }

  /** validateForm answers true exactly for a valid form. */
  lemma FormErrorsMeaning(d: FormData)
    ensures KeyCount(FormErrors(d)) == 0 <==> FormValid(d)
  {
    PhoneRule(d);
    if EmailShaped(d.email) {
      EmailShapedNotBlank(d.email);
    }
    var e := FormErrors(d);
    assert e.phone == FieldError(d, Phone);
    assert e.email == FieldError(d, Email);
  }

  /** The body of validateForm up to setErrors: one check per field, each
      recording its message under the field's key of the new errors object. */
  method CollectErrors(d: FormData) returns (newErrors: Errors)
    ensures newErrors == FormErrors(d)
  {
    assert FormErrors(d) ==
      Errors(FieldError(d, Name), FieldError(d, Address), FieldError(d, Phone), FieldError(d, Email),
             FieldError(d, Username), FieldError(d, Password), FieldError(d, ConfirmPassword));
    var name, address, phone, email, username, password, confirmPassword := None, None, None, None, None, None, None;
    if JsTrim(d.name) == "" { name := Some(NameRequired); }
    if JsTrim(d.address) == "" { address := Some(AddressRequired); }
    if JsTrim(d.phone) == "" {
      phone := Some(PhoneRequired);
    } else if !FormattedPhone(d.phone) && !TenDigits(d.phone) {
      phone := Some(PhoneInvalid);
    }
    if JsTrim(d.email) == "" {
      email := Some(EmailRequired);
    } else if !EmailShaped(d.email) {
      email := Some(EmailInvalid);
    }
    if JsTrim(d.username) == "" {
      username := Some(UsernameRequired);
    } else if Utf16Length(d.username) < 3 {
      username := Some(UsernameShort);
    }
    if JsTrim(d.password) == "" {
      password := Some(PasswordRequired);
    } else if Utf16Length(d.password) < 6 {
      password := Some(PasswordShort);
    }
    if d.password != d.confirmPassword {
      confirmPassword := Some(PasswordsDiffer);
    }
    newErrors := Errors(name, address, phone, email, username, password, confirmPassword);
  }

  // ---------------------------------------------------------------------------
  // handleInputChange and the submitted body
  // ---------------------------------------------------------------------------

  /** The form after the input named `name` changed to `value`, no other field
      touched; a name that is no input's changes nothing the form reads. */
  function WithInput(d: FormData, name: string, value: string): (r: FormData)
    ensures FieldNamed(name).None? ==> r == d
    ensures forall f :: FieldNamed(name) == Some(f) ==> FieldOf(r, f) == value
    ensures forall g :: FieldNamed(name) != Some(g) ==> FieldOf(r, g) == FieldOf(d, g)
  {
    match FieldNamed(name)
    case None => d
    case Some(Name) => d.(name := value)
    case Some(Address) => d.(address := value)
    case Some(Phone) => d.(phone := value)
    case Some(Email) => d.(email := value)
    case Some(Username) => d.(username := value)
    case Some(Password) => d.(password := value)
    case Some(ConfirmPassword) => d.(confirmPassword := value)
  }

  /** The body onRegister posts to register.php: every field but the
      confirmation. */
  function Payload(d: FormData): (body: Body)
    ensures body.Keys == {"name", "address", "phone", "email", "username", "password"}
    ensures forall f :: f != ConfirmPassword ==> Get(body, FieldName(f)) == Str(FieldOf(d, f))
  {
    map["name" := Str(d.name), "address" := Str(d.address), "phone" := Str(d.phone),
        "email" := Str(d.email), "username" := Str(d.username), "password" := Str(d.password)]
  }

  // ---------------------------------------------------------------------------
  // Where the page and register.php disagree
  // ---------------------------------------------------------------------------

  /** JavaScript's length never exceeds PHP's byte count. */
  lemma {:induction false} Utf16WithinUtf8(s: string)
    ensures Utf16Length(s) <= Utf8Length(s)
  {
    if s != [] {
      Utf16WithinUtf8(s[1..]);
    }
  }

  /** A username and password long enough for the page are long enough for
      the server. */
  lemma PageLengthsSuffice(d: FormData)
    requires FieldError(d, Username).None? && FieldError(d, Password).None?
    ensures Utf8Length(AsText(Get(Payload(d), "username"))) >= 3
    ensures Utf8Length(AsText(Get(Payload(d), "password"))) >= 6
  {
    Utf16WithinUtf8(d.username);
    Utf16WithinUtf8(d.password);
    assert Get(Payload(d), "username") == Str(d.username);
    assert Get(Payload(d), "password") == Str(d.password);
  }

  /** A one-letter name passes the page and fails the server. */
  lemma ShortNameRefusedByServer(d: FormData, validEmail: string -> bool)
    requires Utf8Length(d.name) < 2
    ensures !Register.RegDataValid(Payload(d), validEmail)
  {
    assert Get(Payload(d), "name") == Str(d.name);
  }

  /** The server takes a registration without address or phone, which the
      page refuses. */
  lemma MissingContactAcceptedByServer(d: FormData, validEmail: string -> bool)
    requires d.address == "" && d.phone == ""
    ensures Register.RegDataValid(Payload(d), validEmail) <==>
              Register.RegDataValid(Payload(d.(address := "x", phone := "5551234567")), validEmail)
    ensures !FormValid(d)
  {
    var p := Payload(d);
    var q := Payload(d.(address := "x", phone := "5551234567"));
    assert Get(p, "name") == Get(q, "name") && Get(p, "username") == Get(q, "username");
    assert Get(p, "email") == Get(q, "email") && Get(p, "password") == Get(q, "password");
    assert JsTrim("") == "";
  }

  // ---------------------------------------------------------------------------
  // The component's state
  // ---------------------------------------------------------------------------

  class Page {
    var formData: FormData
    var errors: Errors

    constructor ()
      ensures formData == EmptyForm && errors == NoErrors
    {
      formData, errors := EmptyForm, NoErrors;
    }

    /** handleInputChange: the field takes the new value, and its message,
        if it shows one, is blanked. */
    method HandleInputChange(name: string, value: string)
      modifies this
      ensures formData == WithInput(old(formData), name, value)
      ensures FieldNamed(name).Some? ==>
                var f := FieldNamed(name).value;
                errors == WithError(old(errors), f, ClearedMessage(ErrorOf(old(errors), f)))
      ensures FieldNamed(name).None? ==> errors == old(errors)
    {
      formData := WithInput(formData, name, value);
      var field := FieldNamed(name);
      if field.Some? {
        var shown := ErrorOf(errors, field.value);
        if shown.Some? && shown.value != "" {
          errors := WithError(errors, field.value, Some(""));
        }
      }
    }

    /** validateForm: the errors object is replaced by that of the current
        form, and the answer is whether it has no entry. */
    method ValidateForm() returns (valid: bool)
      modifies this
      ensures errors == FormErrors(formData)
      ensures valid <==> FormValid(formData)
      ensures formData == old(formData)
    {
      var d := formData;
      var newErrors := CollectErrors(d);
      errors := newErrors;
      FormErrorsMeaning(d);
      valid := KeyCount(newErrors) == 0;
    }

    /** handleSubmit: a valid form is handed to onRegister as its body; an
        invalid one only gets its errors. The form keeps its contents. */
    method HandleSubmit() returns (sent: Option<Body>)
      modifies this
      ensures errors == FormErrors(old(formData)) && formData == old(formData)
      ensures sent.Some? <==> FormValid(formData)
      ensures sent.Some? ==> sent.value == Payload(formData)
    {
      var valid := ValidateForm();
      if valid {
        sent := Some(Payload(formData));
      } else {
        sent := None;
      }
    }
  }
}
