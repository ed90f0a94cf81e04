/** php-backend/register.php: the registration validator, the duplicate check
    and the insert into `users`, and the message built from a datastore error. */
module Register {
  import opened Wrappers
  import opened Text
  import opened Request
  import opened ErrorList
  import Store

  // ---------------------------------------------------------------------------
  // validateInput
  // ---------------------------------------------------------------------------

  const NameMessage := "Name must be at least 2 characters long"
  const UsernameMessage := "Username must be at least 3 characters long"
  const EmailMessage := "Valid email is required"
  const PasswordMessage := "Password must be at least 6 characters long"

  /** The messages in the order the fields are checked. */
  const RegMessages: seq<string> := [NameMessage, UsernameMessage, EmailMessage, PasswordMessage]

  /** `!(empty($f) || strlen($f) < min)`: the length is taken before trimming. */
  predicate LengthOk(f: Field, min: nat) {
    !IsEmpty(f) && Utf8Length(AsText(f)) >= min
  }

  /** `!(empty($f) || !filter_var($f, FILTER_VALIDATE_EMAIL))`; the address
      syntax test is the parameter `validEmail`. */
  predicate EmailOk(f: Field, validEmail: string -> bool) {
    !IsEmpty(f) && validEmail(AsText(f))
  }

  /** The verdict of each check, in the order of RegMessages. */
  function RegChecks(data: Body, validEmail: string -> bool): (ok: seq<bool>)
    ensures |ok| == |RegMessages|
  {
    [ LengthOk(Get(data, "name"), 2),
      LengthOk(Get(data, "username"), 3),
      EmailOk(Get(data, "email"), validEmail),
      LengthOk(Get(data, "password"), 6) ]
  }

  /** A valid registration with PHP's empty() unfolded: a name of at least 2
      bytes, a username of at least 3 and a password of at least 6, all counted
      before trimming, and an email that is not "" or "0" and passes the
      address test. */
  predicate RegDataValid(data: Body, validEmail: string -> bool) {
    var email := AsText(Get(data, "email"));
    && Utf8Length(AsText(Get(data, "name"))) >= 2
    && Utf8Length(AsText(Get(data, "username"))) >= 3
    && !IsFalsyString(email) && validEmail(email)
    && Utf8Length(AsText(Get(data, "password"))) >= 6
  }

  /** With a minimum of two bytes or more the empty() guard adds nothing:
      an empty() value converts to "" or "0", at most one byte. */
  lemma LengthGuardRedundant(f: Field, min: nat)
    requires min >= 2
    ensures LengthOk(f, min) <==> Utf8Length(AsText(f)) >= min
  {
    EmptyFieldText(f);
  }

  /** Every check passes exactly when the registration is valid. */
  lemma RegChecksMeanValid(data: Body, validEmail: string -> bool)
    ensures false !in RegChecks(data, validEmail) <==> RegDataValid(data, validEmail)
  {
    LengthGuardRedundant(Get(data, "name"), 2);
    LengthGuardRedundant(Get(data, "username"), 3);
    LengthGuardRedundant(Get(data, "password"), 6);
    EmptyFieldText(Get(data, "email"));
    var ok := RegChecks(data, validEmail);
    assert ok == [ok[0], ok[1], ok[2], ok[3]];
  }

  /** The error list is empty exactly when the registration is valid, names
      exactly the failed checks, and keeps the field order. */
  lemma RegErrorsMeaning(data: Body, validEmail: string -> bool)
    ensures Failing(RegMessages, RegChecks(data, validEmail)) == [] <==> RegDataValid(data, validEmail)
    ensures forall k :: 0 <= k < |RegMessages| ==>
              (RegMessages[k] in Failing(RegMessages, RegChecks(data, validEmail)) <==> !RegChecks(data, validEmail)[k])
    ensures IsSubsequence(Failing(RegMessages, RegChecks(data, validEmail)), RegMessages)
  {
    var c, ok := RegMessages, RegChecks(data, validEmail);
    FailingEmpty(c, ok);
    FailingMembers(c, ok);
    FailingOrdered(c, ok);
    RegChecksMeanValid(data, validEmail);
  }

  /** validateInput: appends one message per failed check, in field order. */
  method ValidateInput(data: Body, validEmail: string -> bool) returns (errors: seq<string>)
    ensures errors == Failing(RegMessages, RegChecks(data, validEmail))
  {
    ghost var c, ok := RegMessages, RegChecks(data, validEmail);
    var name, username := Get(data, "name"), Get(data, "username");
    var email, password := Get(data, "email"), Get(data, "password");

    // After step k the list is that of the first k checks.
    errors := [];
    errors := errors + (if !LengthOk(name, 2) then [NameMessage] else []);
    assert errors == FailingPrefix(c, ok, 1);
    errors := errors + (if !LengthOk(username, 3) then [UsernameMessage] else []);
    assert errors == FailingPrefix(c, ok, 2);
    errors := errors + (if !EmailOk(email, validEmail) then [EmailMessage] else []);
    assert errors == FailingPrefix(c, ok, 3);
    errors := errors + (if !LengthOk(password, 6) then [PasswordMessage] else []);
    assert errors == FailingPrefix(c, ok, 4);
  }

  /** The lengths are checked before trimming: a username of three or more
      blanks passes the check and is stored as the empty string. */
  lemma BlankUsernameAccepted(s: string)
    requires |s| >= 3 && forall i :: 0 <= i < |s| ==> IsPhpSpace(s[i])
    ensures LengthOk(Str(s), 3)
    ensures PhpTrim(s) == ""
  {
    assert s[0] != '0';
    TrimSpec(s, IsPhpSpace);
  }

  // ---------------------------------------------------------------------------
  // The datastore error message
  // ---------------------------------------------------------------------------

  const FailurePrefix := "Registration failed. "
  const UsernameExists := FailurePrefix + "Username already exists."
  const EmailExists := FailurePrefix + "Email already exists."
  const EitherExists := FailurePrefix + "Username or email already exists."
  const TryAgain := FailurePrefix + "Please try again."

  /** The message sent for a PDOException whose text is `error`: a duplicate
      entry is attributed to the username if the text names it, else to the
      email if the text names that, else to either; any other error asks the
      user to try again. */
  function FailureMessage(error: string): (m: string)
    ensures StartsWith(m, FailurePrefix)
    ensures m == TryAgain <==> !Contains(error, "Duplicate entry")
    ensures m == UsernameExists <==> Contains(error, "Duplicate entry") && Contains(error, "username")
    ensures m == EmailExists <==>
              Contains(error, "Duplicate entry") && !Contains(error, "username") && Contains(error, "email")
  {
    if Contains(error, "Duplicate entry") then
      if Contains(error, "username") then UsernameExists
      else if Contains(error, "email") then EmailExists
      else EitherExists
    else TryAgain
  }

  /** The four messages are distinct and all share the prefix, so the cases
      above are exhaustive and exclusive. */
  lemma FailureMessageCases(error: string)
    ensures FailureMessage(error) in {UsernameExists, EmailExists, EitherExists, TryAgain}
    ensures FailureMessage(error) == EitherExists <==>
              Contains(error, "Duplicate entry") && !Contains(error, "username") && !Contains(error, "email")
  {
    assert UsernameExists[21] == 'U' && EmailExists[21] == 'E' && TryAgain[21] == 'P';
    assert EitherExists[21] == 'U' && EitherExists[30] == 'o' && UsernameExists[30] == 'a';
  }

  // ---------------------------------------------------------------------------
  // The endpoint
  // ---------------------------------------------------------------------------

  const InvalidInput := "Invalid input"
  const AlreadyExists := "Username or email already exists"

  datatype RegResponse =
    | RegFailed(message: string)
    | Registered(name: string, username: string, email: string)

  /** $address and $phone: trimmed when set, '' otherwise. */
  function OptionalText(f: Field): (r: string)
    ensures !IsSet(f) ==> r == ""
    ensures IsSet(f) ==> r == PhpTrim(AsText(f))
  {
    if IsSet(f) then PhpTrim(AsText(f)) else ""
  }

  /** The row a valid registration stores under `id`. */
  function NewUserRow(id: nat, data: Body, hash: string -> string): Store.UserRow {
    Store.UserRow(
      id, PhpTrim(AsText(Get(data, "name"))), PhpTrim(AsText(Get(data, "username"))),
      PhpTrim(AsText(Get(data, "email"))), hash(AsText(Get(data, "password"))),
      OptionalText(Get(data, "address")), OptionalText(Get(data, "phone")))
  }

  /** The registration request. `validEmail` is FILTER_VALIDATE_EMAIL, `hash`
      is password_hash; `lookupFault` and `insertFault` are the messages of a
      PDOException raised by the duplicate check or by the insert. Name,
      username and email are trimmed after validation; the password is
      hashed as sent. */
  method Register(users: Store.UsersTable, body: Option<Body>, validEmail: string -> bool,
                  hash: string -> string, lookupFault: Option<string>, insertFault: Option<string>)
    returns (response: RegResponse)
    requires users.Valid()
    modifies users
    ensures users.Valid()
    ensures IsFalsyBody(body) ==> response == RegFailed(InvalidInput)
    ensures !IsFalsyBody(body) && !RegDataValid(body.value, validEmail) ==>
              response == RegFailed(Join(Failing(RegMessages, RegChecks(body.value, validEmail)), ", "))
    ensures !IsFalsyBody(body) && RegDataValid(body.value, validEmail) && lookupFault.Some? ==>
              response == RegFailed(FailureMessage(lookupFault.value))
    ensures !IsFalsyBody(body) && RegDataValid(body.value, validEmail) && lookupFault.None?
            && Store.UsernameOrEmailTaken(old(users.rows), PhpTrim(AsText(Get(body.value, "username"))),
                                          PhpTrim(AsText(Get(body.value, "email")))) ==>
              response == RegFailed(AlreadyExists)
    ensures !IsFalsyBody(body) && RegDataValid(body.value, validEmail) && lookupFault.None?
            && !Store.UsernameOrEmailTaken(old(users.rows), PhpTrim(AsText(Get(body.value, "username"))),
                                           PhpTrim(AsText(Get(body.value, "email"))))
            && insertFault.Some? ==>
              response == RegFailed(FailureMessage(insertFault.value))
    ensures response.Registered? <==>
              && !IsFalsyBody(body) && RegDataValid(body.value, validEmail) && lookupFault.None?
              && !Store.UsernameOrEmailTaken(old(users.rows), PhpTrim(AsText(Get(body.value, "username"))),
                                             PhpTrim(AsText(Get(body.value, "email"))))
              && insertFault.None?
    ensures response.RegFailed? ==> users.rows == old(users.rows) && users.nextId == old(users.nextId)
    ensures response.Registered? ==>
              var row := NewUserRow(old(users.nextId), body.value, hash);
              && users.rows == old(users.rows) + [row]
              && users.nextId == old(users.nextId) + 1
              && response == Registered(row.name, row.username, row.email)
  {
    if IsFalsyBody(body) {
      return RegFailed(InvalidInput);
    }
    var input := body.value;
    var errors := ValidateInput(input, validEmail);
    RegErrorsMeaning(input, validEmail);
    if errors != [] {
      return RegFailed(Join(errors, ", "));
    }

    var name := PhpTrim(AsText(Get(input, "name")));
    var username := PhpTrim(AsText(Get(input, "username")));
    var email := PhpTrim(AsText(Get(input, "email")));
    var password := AsText(Get(input, "password"));
    var address := OptionalText(Get(input, "address"));
    var phone := OptionalText(Get(input, "phone"));

    if lookupFault.Some? {
      return RegFailed(FailureMessage(lookupFault.value));
    }
    if Store.UsernameOrEmailTaken(users.rows, username, email) {
      return RegFailed(AlreadyExists);
    }
    var passwordHash := hash(password);
    if insertFault.Some? {
      return RegFailed(FailureMessage(insertFault.value));
    }
    var _ := users.Insert(name, username, email, passwordHash, address, phone);
    response := Registered(name, username, email);
  }
}
