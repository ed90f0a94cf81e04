/** The authentication helpers of php-backend/utils/auth.php: the placeholder
    bearer-token rule, the request guard built on it, and the recursive input
    sanitiser. */
module Auth {
  import opened Wrappers
  import opened Text

  /** The identity a token stands for. */
  datatype Identity = Identity(id: string, username: string)

  const DemoIdentity: Identity := Identity("demo", "demo")
  const TokenIdentity: Identity := Identity("user", "authenticated")

  const AuthRequired: string := "Authentication required"

  /** The demo tokens: 'demo_token' itself and anything that begins 'demo_token_'. */
  predicate IsDemoToken(token: string) {
    token == "demo_token" || StartsWith(token, "demo_token_")
  }

  /** validateToken: demo tokens map to the demo identity, checked before the
      length rule; any other token longer than ten bytes maps to the generic
      identity; the rest are refused. */
  function ValidateToken(token: string): (r: Option<Identity>)
    ensures IsDemoToken(token) ==> r == Some(DemoIdentity)
    ensures !IsDemoToken(token) ==> (r.Some? <==> Utf8Length(token) > 10)
    ensures !IsDemoToken(token) && r.Some? ==> r.value == TokenIdentity
  {
    if IsDemoToken(token) then Some(DemoIdentity)
    else if Utf8Length(token) > 10 then Some(TokenIdentity)
    else None
  }

  /** A token that begins 'demo_token_' is never given the generic identity,
      however long it is. */
  lemma LongDemoTokenStaysDemo(suffix: string)
    ensures Utf8Length("demo_token_" + suffix) > 10
    ensures ValidateToken("demo_token_" + suffix) == Some(DemoIdentity)
  {
    var t := "demo_token_" + suffix;
    assert t[..11] == "demo_token_";
    assert Utf8Length(t) >= |t| >= 11;
  }

  /** Of all tokens of at most ten bytes, only 'demo_token' is accepted. */
  lemma ShortTokensRefused(token: string)
    requires Utf8Length(token) <= 10 && token != "demo_token"
    ensures ValidateToken(token) == None
  {
    assert !StartsWith(token, "demo_token_") by {
      assert |token| <= Utf8Length(token) <= 10;
    }
  }

  /** The token carried by an Authorization header: the header with every
      'Bearer ' that a left-to-right scan finds removed. */
  function BearerToken(header: string): string {
    RemoveAll(header, "Bearer ")
  }

  /** requireAuth without its exit: a missing header, a falsy token or a token
      validateToken refuses is answered with 401 'Authentication required';
      otherwise the identity validateToken gives is returned. */
  function RequireAuth(authorization: Option<string>): (r: Result<Identity, string>)
    ensures authorization.None? ==> r == Failure(AuthRequired)
    ensures r.Failure? ==> r.error == AuthRequired
    ensures r.Success? <==>
              authorization.Some? && ValidateToken(BearerToken(authorization.value)).Some?
    ensures r.Success? ==> r.value == ValidateToken(BearerToken(authorization.value)).value
  {
    if authorization.None? then Failure(AuthRequired)
    else
      var token := BearerToken(authorization.value);
      if token == "" || token == "0" then Failure(AuthRequired)
      else match ValidateToken(token)
        case None => Failure(AuthRequired)
        case Some(identity) => Success(identity)
  }

  /** A header 'Bearer t' carries t when t holds no 'B'. */
  lemma BearerPrefixRemoved(t: string)
    requires forall i :: 0 <= i < |t| ==> t[i] != 'B'
    ensures BearerToken("Bearer " + t) == t
  {
    var h := "Bearer " + t;
    assert StartsWith(h, "Bearer ") && h[7..] == t;
    RemoveAllWithoutLead(t, "Bearer ");
  }

  /** 'Bearer ' alone carries the empty token, which requireAuth refuses. */
  lemma BareBearerRefused()
    ensures BearerToken("Bearer ") == ""
    ensures RequireAuth(Some("Bearer ")) == Failure(AuthRequired)
  {
    assert StartsWith("Bearer ", "Bearer ") && "Bearer "[7..] == "";
  }

  /** 'Bearer ' is removed in the middle of the header too. */
  lemma BearerRemovedInside()
    ensures BearerToken("xBearer y") == "xy"
  {
    var p := "Bearer ";
    var b := "xBearer y";
    assert b[..7][0] != p[0];
    assert !StartsWith(b, p) && b[1..] == "Bearer y";
    assert StartsWith("Bearer y", p) && "Bearer y"[7..] == "y";
    RemoveAllWithoutLead("y", p);
  }

  /** A string that differs from pat at some position does not start with it. */
  lemma NotStartsWith(s: string, pat: string, i: nat)
    requires i < |pat| && i < |s| && s[i] != pat[i]
    ensures !StartsWith(s, pat)
  {
    if |pat| <= |s| {
      assert s[..|pat|][i] == s[i];
    }
  }

  /** One scan only: removing an inner 'Bearer ' can join the text around it
      into a new 'Bearer ', which is kept. */
  lemma BearerRemovalSinglePass(t: string)
    requires forall i :: 0 <= i < |t| ==> t[i] != 'B'
    ensures BearerToken("BeBearer arer " + t) == "Bearer " + t
  {
    var p := "Bearer ";
    var c := "BeBearer arer " + t;
    NotStartsWith(c, p, 2);
    var d := c[1..];
    NotStartsWith(d, p, 0);
    assert d[1..] == p + ("arer " + t);
    BearerPrefixRemoved("arer " + t);
    assert RemoveAll(d, p) == [d[0]] + ("arer " + t);
    assert RemoveAll(c, p) == [c[0]] + RemoveAll(d, p);
  }

  // ---------------------------------------------------------------------------
  // sanitizeInput
  // ---------------------------------------------------------------------------

  /** A PHP array key. */
  datatype Key = Index(i: nat) | Name(name: string)

  /** A request value: a string, or an array of keyed values. */
  datatype Input = Scalar(text: string) | Array(entries: seq<Entry>)
  datatype Entry = Entry(key: Key, value: Input)

  /** sanitizeInput: arrays are mapped element by element, keeping their keys;
      strings are trimmed and then HTML-escaped. */
  function Sanitize(x: Input): Input
    decreases x
  {
    match x
    case Scalar(s) => Scalar(HtmlEscape(PhpTrim(s)))
    case Array(es) =>
      Array(seq(|es|, i requires 0 <= i < |es| => Entry(es[i].key, Sanitize(es[i].value))))
  }

  /** Two values with the same nesting, the same keys in the same order. */
  predicate SameShape(a: Input, b: Input)
    decreases a
  {
    match a
    case Scalar(_) => b.Scalar?
    case Array(es) =>
      && b.Array?
      && |es| == |b.entries|
      && forall i :: 0 <= i < |es| ==>
           es[i].key == b.entries[i].key && SameShape(es[i].value, b.entries[i].value)
  }

  /** Every string anywhere in the value is free of < > " and '. */
  predicate AllHtmlSafe(x: Input)
    decreases x
  {
    match x
    case Scalar(s) => HtmlSafe(s)
    case Array(es) => forall i :: 0 <= i < |es| ==> AllHtmlSafe(es[i].value)
  }

  lemma {:induction false} SanitizeKeepsShape(x: Input)
    ensures SameShape(x, Sanitize(x))
    decreases x
  {
    match x
    case Scalar(_) =>
    case Array(es) =>
      forall i | 0 <= i < |es| ensures SameShape(es[i].value, Sanitize(es[i].value)) {
        SanitizeKeepsShape(es[i].value);
      }
  }

  lemma {:induction false} SanitizeIsHtmlSafe(x: Input)
    ensures AllHtmlSafe(Sanitize(x))
    decreases x
  {
    match x
    case Scalar(s) => HtmlEscapeIsSafe(PhpTrim(s));
    case Array(es) =>
      forall i | 0 <= i < |es| ensures AllHtmlSafe(Sanitize(es[i].value)) {
        SanitizeIsHtmlSafe(es[i].value);
      }
  }

  /** Sanitising twice escapes the entities of the first pass again. */
  lemma SanitizeNotIdempotent()
    ensures Sanitize(Scalar("&")) == Scalar("&amp;")
    ensures Sanitize(Sanitize(Scalar("&"))) == Scalar("&amp;amp;")
  {
    assert PhpTrim("&") == "&";
    assert PhpTrim("&amp;") == "&amp;";
  }
}
