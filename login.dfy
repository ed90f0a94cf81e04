/** php-backend/login.php: the demo account, the lookup of a stored account
    and the session token issued on success. */
module Login {
  import opened Wrappers
  import opened Text
  import opened Request
  import Store
  import Auth
  import Register

  // ---------------------------------------------------------------------------
  // bin2hex
  // ---------------------------------------------------------------------------

  /** An octet, as random_bytes() returns them. */
  type Byte = b: int | 0 <= b < 256

  /** A lower-case hexadecimal digit, as bin2hex writes it. */
  predicate IsHexDigit(c: char) {
    '0' <= c <= '9' || 'a' <= c <= 'f'
  }

  function HexDigit(v: nat): (c: char)
    requires v < 16
    ensures IsHexDigit(c)
  {
    if v < 10 then (48 + v) as char else (87 + v) as char
  }

  function HexDigitValue(c: char): (v: nat)
    requires IsHexDigit(c)
    ensures v < 16 && HexDigit(v) == c
  {
    if c <= '9' then c as int - 48 else c as int - 87
  }

  /** bin2hex: two lower-case digits per byte, the high half first. */
  function Hex(bytes: seq<Byte>): (h: string)
    ensures |h| == 2 * |bytes|
    ensures forall i :: 0 <= i < |h| ==> IsHexDigit(h[i])
  {
    if bytes == [] then []
    else [HexDigit(bytes[0] / 16), HexDigit(bytes[0] % 16)] + Hex(bytes[1..])
  }

  /** hex2bin, the inverse of bin2hex on what bin2hex produces. */
  function Unhex(h: string): seq<Byte>
    requires |h| % 2 == 0 && forall i :: 0 <= i < |h| ==> IsHexDigit(h[i])
  {
    if h == [] then []
    else [HexDigitValue(h[0]) * 16 + HexDigitValue(h[1])] + Unhex(h[2..])
  }

  /** The two digits of one byte give the byte back. */
  lemma HexByteRoundTrip(b: Byte)
    ensures HexDigitValue(HexDigit(b / 16)) * 16 + HexDigitValue(HexDigit(b % 16)) == b
  {
    assert HexDigitValue(HexDigit(b / 16)) == b / 16;
    assert HexDigitValue(HexDigit(b % 16)) == b % 16;
  }

  lemma {:induction false} HexRoundTrip(bytes: seq<Byte>)
    ensures Unhex(Hex(bytes)) == bytes
  {
    if bytes != [] {
      var h := Hex(bytes);
      HexByteRoundTrip(bytes[0]);
      assert h[2..] == Hex(bytes[1..]);
      HexRoundTrip(bytes[1..]);
    }
  }

  // ---------------------------------------------------------------------------
  // The endpoint
  // ---------------------------------------------------------------------------

  /** The `id` of the user sent back: the demo account's is the string
      'demo', a stored account's is its row id. */
  datatype UserId = Named(name: string) | Numbered(n: nat)

  datatype LoginUser = LoginUser(
    id: UserId, name: string, username: string, email: string, address: string, phone: string)

  datatype LoginResponse = LoginFailed(message: string) | LoggedIn(user: LoginUser, token: string)

  const Required := "Username and password are required"
  const Invalid := "Invalid username or password"
  const Failed := "Login failed. Please try again."

  const DemoUser := LoginUser(
    Named("demo"), "Demo User", "demo", "demo@example.com", "123 Demo Street", "(555) 123-4567")

  /** The user object built from a stored row. */
  function UserOf(row: Store.UserRow): LoginUser {
    LoginUser(Numbered(row.id), row.name, row.username, row.email, row.address, row.phone)
  }

  /** `!$input || empty($input['username']) || empty($input['password'])` */
  predicate MissingCredentials(body: Option<Body>) {
    IsFalsyBody(body) || IsEmpty(Get(body.value, "username")) || IsEmpty(Get(body.value, "password"))
  }

  /** `$username === 'demo' && $password === 'demo'`: the trimmed username and
      the password as sent, which must be the string 'demo'. */
  predicate IsDemoLogin(body: Body) {
    PhpTrim(AsText(Get(body, "username"))) == "demo" && Get(body, "password") == Str("demo")
  }

  /** The login request over the rows of `users`. `verify` is password_verify,
      `now` is time(), `random` the 32 bytes of random_bytes(32), and `fault`
      stands for a PDOException raised by the lookup. */
  function Login(rows: seq<Store.UserRow>, body: Option<Body>, verify: (string, string) -> bool,
                 now: nat, random: seq<Byte>, fault: bool): (r: LoginResponse)
    requires |random| == 32
    ensures MissingCredentials(body) ==> r == LoginFailed(Required)
    ensures !MissingCredentials(body) && IsDemoLogin(body.value) ==>
              r == LoggedIn(DemoUser, "demo_token_" + DecimalString(now))
    ensures !MissingCredentials(body) && !IsDemoLogin(body.value) && fault ==> r == LoginFailed(Failed)
    ensures r.LoggedIn? && r.user != DemoUser ==>
              exists i :: 0 <= i < |rows| &&
                r.user == UserOf(rows[i]) && rows[i].username == PhpTrim(AsText(Get(body.value, "username")))
                && verify(AsText(Get(body.value, "password")), rows[i].passwordHash)
                && r.token == Hex(random)
    ensures r.LoginFailed? ==> r.message in {Required, Invalid, Failed}
  {
    if MissingCredentials(body) then LoginFailed(Required)
    else
      var username := PhpTrim(AsText(Get(body.value, "username")));
      var password := Get(body.value, "password");
      if IsDemoLogin(body.value) then LoggedIn(DemoUser, "demo_token_" + DecimalString(now))
      else if fault then LoginFailed(Failed)
      else match Store.FindUser(rows, username)
        case None => LoginFailed(Invalid)
        case Some(user) =>
          if verify(AsText(password), user.passwordHash) then LoggedIn(UserOf(user), Hex(random))
          else LoginFailed(Invalid)
  }

  /** An unknown username and a wrong password get the same answer. */
  lemma UnknownUserLikeWrongPassword(rows: seq<Store.UserRow>, body: Body, verify: (string, string) -> bool,
                                     now: nat, random: seq<Byte>)
    requires |random| == 32
    requires !MissingCredentials(Some(body)) && !IsDemoLogin(body)
    ensures var found := Store.FindUser(rows, PhpTrim(AsText(Get(body, "username"))));
            found.None? || !verify(AsText(Get(body, "password")), found.value.passwordHash) <==>
            Login(rows, Some(body), verify, now, random, false) == LoginFailed(Invalid)
  {
  }

  /** The demo account answers whatever the table holds, and even when the
      lookup statement fails. */
  lemma DemoIgnoresStore(rows: seq<Store.UserRow>, rows': seq<Store.UserRow>, body: Body,
                         verify: (string, string) -> bool, verify': (string, string) -> bool,
                         now: nat, random: seq<Byte>, fault: bool)
    requires |random| == 32
    requires IsDemoLogin(body)
    ensures Login(rows, Some(body), verify, now, random, fault) ==
            Login(rows', Some(body), verify', now, random, false)
    ensures Login(rows, Some(body), verify, now, random, fault).LoggedIn?
  {
    assert !IsEmpty(Get(body, "password"));
    assert Get(body, "password") == Str("demo");
    EmptyFieldText(Get(body, "username"));
  }

  /** The demo token, sent as 'Bearer <token>', is taken for the demo
      identity. */
  lemma DemoTokenAccepted(now: nat)
    ensures Auth.RequireAuth(Some("Bearer " + ("demo_token_" + DecimalString(now)))) == Success(Auth.DemoIdentity)
  {
    var digits := DecimalString(now);
    var t := "demo_token_" + digits;
    assert forall i :: 0 <= i < |t| ==> t[i] != 'B' by {
      forall i | 11 <= i < |t| ensures t[i] != 'B' {
        assert t[i] == digits[i - 11];
      }
    }
    Auth.BearerPrefixRemoved(t);
    Auth.LongDemoTokenStaysDemo(digits);
  }

  /** A random token, sent as 'Bearer <token>', is taken for the generic
      identity: 64 hexadecimal digits are long enough and never begin
      'demo_token'. */
  lemma RandomTokenAccepted(random: seq<Byte>)
    requires |random| == 32
    ensures Auth.RequireAuth(Some("Bearer " + Hex(random))) == Success(Auth.TokenIdentity)
  {
    var t := Hex(random);
    Auth.BearerPrefixRemoved(t);
    Auth.NotStartsWith(t, "demo_token_", 2);
  }

  /** Every token login issues is accepted by requireAuth: the demo login's as
      the demo identity, any other as the generic one. */
  lemma IssuedTokensAccepted(rows: seq<Store.UserRow>, body: Option<Body>, verify: (string, string) -> bool,
                             now: nat, random: seq<Byte>, fault: bool)
    requires |random| == 32
    requires Login(rows, body, verify, now, random, fault).LoggedIn?
    ensures var r := Login(rows, body, verify, now, random, fault);
            Auth.RequireAuth(Some("Bearer " + r.token)) ==
              Success(if r.user == DemoUser then Auth.DemoIdentity else Auth.TokenIdentity)
  {
    if Login(rows, body, verify, now, random, fault).user == DemoUser {
      DemoTokenAccepted(now);
    } else {
      RandomTokenAccepted(random);
    }
  }

  /** An account that registered successfully can log in with the body it
      registered with: the trimming of the username agrees, the stored hash
      verifies the password as sent, and a password of six or more bytes is
      never the demo password. */
  lemma LoginAfterRegister(rows: seq<Store.UserRow>, id: nat, body: Body, validEmail: string -> bool,
                           hash: string -> string, verify: (string, string) -> bool,
                           now: nat, random: seq<Byte>)
    requires |random| == 32
    requires body != map[] && Register.RegDataValid(body, validEmail)
    requires !Store.UsernameOrEmailTaken(rows, PhpTrim(AsText(Get(body, "username"))),
                                         PhpTrim(AsText(Get(body, "email"))))
    requires forall p :: verify(p, hash(p))
    ensures var row := Register.NewUserRow(id, body, hash);
            Login(rows + [row], Some(body), verify, now, random, false) == LoggedIn(UserOf(row), Hex(random))
  {
    var row := Register.NewUserRow(id, body, hash);
    EmptyFieldText(Get(body, "username"));
    EmptyFieldText(Get(body, "password"));
    FindAppended(rows, row);
  }

  /** A username absent from rows is found in the row appended after them. */
  lemma {:induction false} FindAppended(rows: seq<Store.UserRow>, row: Store.UserRow)
    requires forall i :: 0 <= i < |rows| ==> rows[i].username != row.username
    ensures Store.FindUser(rows + [row], row.username) == Some(row)
  {
    if rows != [] {
      assert (rows + [row])[1..] == rows[1..] + [row];
      FindAppended(rows[1..], row);
    }
  }
}
