/** The PASETO authentication agent in front of the gateway: its configuration from
    the environment, the key check of its verifier, token cleaning and the account
    claim, the cookie-header reader, the HTTP `/check` endpoint and the SPOE message
    handler. PASETO v4.public parsing, with its expiry, audience and issuer rules,
    is an oracle. */
module SpoeAuth {
  import opened Wrappers
  import opened Strings

  // ---------------------------------------------------------------- hex keys

  /** `hex.DecodeString`: the bytes two digits each, or an error for an odd length or
      a character that is not a hexadecimal digit. */
  function HexDecode(s: string): (r: Option<seq<Byte>>)
    ensures r.Some? ==> 2 * |r.value| == |s|
    decreases |s|
  {
    if s == [] then Some([])
    else if |s| == 1 then None
    else
      var hi, lo := HexDigitValue(s[0]), HexDigitValue(s[1]);
      if hi.None? || lo.None? then None
      else match HexDecode(s[2..])
        case None => None
        case Some(rest) => Some([hi.value * 16 + lo.value] + rest)
  }

  /** The lower-case hexadecimal digit for a value below 16. */
  function HexChar(d: nat): char
    requires d < 16
  {
    "0123456789abcdef"[d]
  }

  /** The lower-case hexadecimal text of some bytes. */
  function HexEncode(b: seq<Byte>): (s: string)
    ensures |s| == 2 * |b|
  {
    if b == [] then "" else [HexChar(b[0] / 16), HexChar(b[0] % 16)] + HexEncode(b[1..])
  }

  lemma HexDigitOfChar(d: nat)
    requires d < 16
    ensures HexDigitValue(HexChar(d)) == Some(d)
  {
  }

  /** Decoding one encoded byte in front of a text. */
  lemma HexPair(x: Byte, rest: string)
    ensures var s := [HexChar(x / 16), HexChar(x % 16)] + rest;
      HexDecode(s) == if HexDecode(rest).Some? then Some([x] + HexDecode(rest).value) else None
  {
    var hi, lo := x / 16, x % 16;
    var s := [HexChar(hi), HexChar(lo)] + rest;
    HexDigitOfChar(hi);
    HexDigitOfChar(lo);
    assert s[0] == HexChar(hi) && s[1] == HexChar(lo) && s[2..] == rest;
    assert hi * 16 + lo == x;
  }

  /** Decoding inverts encoding. */
  lemma {:induction false} HexRoundTrip(b: seq<Byte>)
    ensures HexDecode(HexEncode(b)) == Some(b)
  {
    if b != [] {
      HexRoundTrip(b[1..]);
      HexPair(b[0], HexEncode(b[1..]));
      assert b == [b[0]] + b[1..];
    }
  }

  /** An encoded text never has white space, so trimming leaves it alone. */
  lemma {:induction false} HexEncodeHasNoSpace(b: seq<Byte>)
    ensures forall i :: 0 <= i < |HexEncode(b)| ==> !IsSpace(HexEncode(b)[i])
  {
    if b != [] {
      HexEncodeHasNoSpace(b[1..]);
      var s := HexEncode(b);
      assert forall i :: 2 <= i < |s| ==> s[i] == HexEncode(b[1..])[i - 2];
    }
  }

  // ---------------------------------------------------------------- the verifier

  /** The verifier's settings. */
  datatype Verifier = Verifier(pub: seq<Byte>, ignoreExp: bool, requireAud: string,
                               requireIss: string, accountField: string)

  const InvalidKeyHex := "invalid ed25519 public key hex"

  /** `newVerifier`: the key text, trimmed, must decode to exactly 32 bytes that the
      PASETO library accepts (`keyAccepts`); a blank account field becomes `accountId`. */
  function NewVerifier(pubHex: string, ignoreExp: bool, aud: string, iss: string, accountField: string,
                       keyAccepts: seq<Byte> -> bool): (r: Result<Verifier, string>)
    ensures r.Success? <==> var b := HexDecode(TrimSpace(pubHex));
                            b.Some? && |b.value| == 32 && keyAccepts(b.value)
    ensures r.Success? ==> Some(r.value.pub) == HexDecode(TrimSpace(pubHex))
    ensures r.Success? ==> r.value.accountField == (if TrimSpace(accountField) == "" then "accountId" else accountField)
    ensures r.Failure? && (HexDecode(TrimSpace(pubHex)).None? || |HexDecode(TrimSpace(pubHex)).value| != 32)
            ==> r.error == InvalidKeyHex
  {
    var b := HexDecode(TrimSpace(pubHex));
    if b.None? || |b.value| != 32 then Failure(InvalidKeyHex)
    else if !keyAccepts(b.value) then Failure("public key parse")
    else
      var field := if TrimSpace(accountField) == "" then "accountId" else accountField;
      Success(Verifier(b.value, ignoreExp, aud, iss, field))
  }

  /** The hex text of any 32-byte key the library accepts configures a verifier for
      exactly that key. */
  lemma NewVerifierAcceptsEncodedKey(key: seq<Byte>, ignoreExp: bool, aud: string, iss: string,
                                     accountField: string, keyAccepts: seq<Byte> -> bool)
    requires |key| == 32 && keyAccepts(key)
    ensures var r := NewVerifier(HexEncode(key), ignoreExp, aud, iss, accountField, keyAccepts);
      r.Success? && r.value.pub == key
  {
    HexEncodeHasNoSpace(key);
    var s := HexEncode(key);
    assert s != [] && !IsSpace(s[0]) && !IsSpace(s[|s| - 1]);
    TrimSpaceOfTrimmed(s);
    HexRoundTrip(key);
  }

  /** Claims with a string value, as `tok.GetString` reads them. */
  type Claims = map<string, string>

  /** `parser.ParseV4Public(v.pub, token, nil)` with the rules the verifier adds:
      the claims, or the error text. */
  type TokenParser = (Verifier, string) -> Result<Claims, string>

  /** The token after trimming, stripping a case-insensitive `bearer ` prefix and
      trimming again. */
  function CleanToken(token: string): (r: string)
    ensures r == [] || (!IsSpace(r[0]) && !IsSpace(r[|r| - 1]))
  {
    var t := TrimSpace(token);
    if HasPrefix(ToLower(t), "bearer ") then
      assert |t| == |ToLower(t)| >= 7;
      var u := TrimSpace(t[7..]);
      assert u == [] || (!IsSpace(u[0]) && !IsSpace(u[|u| - 1]));
      u
    else
      assert t == [] || (!IsSpace(t[0]) && !IsSpace(t[|t| - 1]));
      t
  }

  /** A claim the account id can come from: the name is set and its value is not blank. */
  predicate Usable(claims: Claims, name: string) {
    name != "" && name in claims && TrimSpace(claims[name]) != ""
  }

  const MissingAccount := "missing accountId/sub"

  /** The account id of a verified token: the configured claim, else `sub`, trimmed. */
  function AccountOf(claims: Claims, accountField: string): (r: Result<string, string>)
    ensures r.Success? ==> r.value != "" && !IsSpace(r.value[0]) && !IsSpace(r.value[|r.value| - 1])
    ensures r.Failure? <==> !Usable(claims, accountField) && !Usable(claims, "sub")
    ensures r.Failure? ==> r.error == MissingAccount
  {
    if Usable(claims, accountField) then
      var acc := TrimSpace(claims[accountField]);
      assert acc != [];
      Success(acc)
    else if Usable(claims, "sub") then
      var acc := TrimSpace(claims["sub"]);
      assert acc != [];
      Success(acc)
    else Failure(MissingAccount)
  }

  /** The outcome of `verifyToken`: the account id, or the error text. */
  function TokenAccount(v: Verifier, token: string, parse: TokenParser): Result<string, string> {
    match parse(v, CleanToken(token))
    case Failure(e) => Failure(e)
    case Success(claims) => AccountOf(claims, v.accountField)
  }

  /** `verifyToken`, step by step. */
  method VerifyToken(v: Verifier, token: string, parse: TokenParser) returns (account: string, err: Option<string>)
    ensures err.None? <==> TokenAccount(v, token, parse).Success?
    ensures err.None? ==> account == TokenAccount(v, token, parse).value
    ensures err.Some? ==> account == "" && err.value == TokenAccount(v, token, parse).error
  {
    var t := TrimSpace(token);
    if HasPrefix(ToLower(t), "bearer ") {
      t := TrimSpace(t[7..]);
    }
    var parsed := parse(v, t);
    if parsed.Failure? {
      return "", Some(parsed.error);
    }
    var claims := parsed.value;
    var acc := "";
    if v.accountField != "" {
      if v.accountField in claims && claims[v.accountField] != "" {
        acc := TrimSpace(claims[v.accountField]);
      }
    }
    if acc == "" {
      if "sub" in claims && claims["sub"] != "" {
        acc := TrimSpace(claims["sub"]);
      }
    }
    if acc == "" {
      return "", Some(MissingAccount);
    }
    return acc, None;
  }

  /** The account field is preferred; `sub` is used only when that field is missing
      or blank, and the id is always trimmed. */
  lemma AccountFallback(claims: Claims, accountField: string)
    ensures Usable(claims, accountField) ==> AccountOf(claims, accountField) == Success(TrimSpace(claims[accountField]))
    ensures !Usable(claims, accountField) && Usable(claims, "sub")
            ==> AccountOf(claims, accountField) == Success(TrimSpace(claims["sub"]))
  {
  }

  /** Any case of the `bearer` scheme, with any white space around, is stripped and
      the bare token is handed to the parser. */
  lemma {:induction false} BearerPrefixStripped(scheme: string, pad: string, t: string)
    requires |scheme| == 6 && ToLower(scheme) == "bearer"
    requires Blank(pad)
    requires t != [] && !IsSpace(t[0]) && !IsSpace(t[|t| - 1])
    ensures CleanToken(scheme + " " + pad + t) == t
  {
    var s := scheme + " " + pad + t;
    SchemeInAnyCase(scheme, pad + t);
    assert s == scheme + " " + (pad + t);
    assert s[7..] == pad + t;
    CleanTrimmedToken(s);
    TrimOfPadded(pad, t);
  }

  /** A text starting with a spelling of `bearer` and a space reads, lower-cased, as
      starting with `bearer `. */
  lemma SchemeInAnyCase(scheme: string, rest: string)
    requires |scheme| == 6 && ToLower(scheme) == "bearer"
    ensures HasPrefix(ToLower(scheme + " " + rest), "bearer ")
    ensures !IsSpace((scheme + " " + rest)[0])
  {
    var s := scheme + " " + rest;
    assert LowerChar(s[0]) == 'b';
    forall i | 0 <= i < 7
      ensures ToLower(s)[i] == "bearer "[i]
    {
      if i < 6 {
        assert s[i] == scheme[i] && ToLower(scheme)[i] == LowerChar(scheme[i]);
      }
    }
  }

  /** On a text with no white space at its ends and a `bearer ` scheme, cleaning trims
      what follows the scheme. */
  lemma CleanTrimmedToken(s: string)
    requires s != [] && !IsSpace(s[0]) && !IsSpace(s[|s| - 1])
    requires HasPrefix(ToLower(s), "bearer ")
    ensures CleanToken(s) == TrimSpace(s[7..])
  {
    TrimSpaceOfTrimmed(s);
  }

  /** Trimming white space put before a trimmed string gives the string back. */
  lemma {:induction false} TrimOfPadded(pad: string, t: string)
    requires Blank(pad)
    requires t != [] && !IsSpace(t[0]) && !IsSpace(t[|t| - 1])
    ensures TrimSpace(pad + t) == t
  {
    if pad == [] {
      assert pad + t == t;
      TrimSpaceOfTrimmed(t);
    } else {
      assert (pad + t)[1..] == pad[1..] + t;
      TrimOfPadded(pad[1..], t);
      assert TrimLeft(pad + t) == TrimLeft(pad[1..] + t);
    }
  }

  // ---------------------------------------------------------------- cookies

  /** The name and value of one `;`-separated piece: trimmed, split at its first `=`
      and both halves trimmed; None for an empty piece or one without `=`. */
  function CookiePair(piece: string): Option<(string, string)> {
    var p := TrimSpace(piece);
    if p == "" then None
    else match IndexOf(p, '=')
      case None => None
      case Some(i) => Some((TrimSpace(p[..i]), TrimSpace(p[i + 1..])))
  }

  /** The pairs of the pieces, in order. */
  function CookiePairs(pieces: seq<string>): (r: seq<Option<(string, string)>>)
    ensures |r| == |pieces| && forall i :: 0 <= i < |pieces| ==> r[i] == CookiePair(pieces[i])
  {
    Map(pieces, CookiePair)
  }

  /** The map that assigning the pairs in order leaves: a later pair overwrites an
      earlier one of the same name. */
  function Assign(pairs: seq<Option<(string, string)>>): map<string, string>
    decreases |pairs|
  {
    if pairs == [] then map[]
    else
      var m := Assign(pairs[..|pairs| - 1]);
      match pairs[|pairs| - 1]
      case None => m
      case Some(nv) => m[nv.0 := nv.1]
  }

  /** The cookies of a header's `;`-separated pieces. */
  function CookieMap(pieces: seq<string>): map<string, string> {
    Assign(CookiePairs(pieces))
  }

  /** One more pair is assigned on top of the earlier ones. */
  lemma AssignStep(pairs: seq<Option<(string, string)>>, i: nat)
    requires i < |pairs|
    ensures Assign(pairs[..i + 1]) == match pairs[i]
      case None => Assign(pairs[..i])
      case Some(nv) => Assign(pairs[..i])[nv.0 := nv.1]
  {
    assert pairs[..i + 1][..i] == pairs[..i];
  }

  /** The body of the `parseCookies` loop on one piece: its name and value, if any. */
  method ParsePiece(piece: string) returns (pair: Option<(string, string)>)
    ensures pair == CookiePair(piece)
  {
    var p := TrimSpace(piece);
    if p == "" {
      return None;
    }
    var eq := IndexOf(p, '=');
    if eq.None? {
      return None;
    }
    var name := TrimSpace(p[..eq.value]);
    var value := TrimSpace(p[eq.value + 1..]);
    return Some((name, value));
  }

  /** `parseCookies`: the header split at `;`, then the loop over the pieces. */
  method ParseCookies(cookieHeader: string) returns (cookies: map<string, string>)
    ensures cookies == CookieMap(Split(cookieHeader, ';'))
  {
    cookies := ParsePieces(Split(cookieHeader, ';'));
  }

  /** The loop of `parseCookies`: each piece's pair, if any, assigned in order. */
  method ParsePieces(pieces: seq<string>) returns (cookies: map<string, string>)
    ensures cookies == CookieMap(pieces)
  {
    ghost var parsed := CookiePairs(pieces);
    cookies := map[];
    var i := 0;
    while i < |pieces|
      invariant 0 <= i <= |pieces|
      invariant cookies == Assign(parsed[..i])
    {
      AssignStep(parsed, i);
      var pair := ParsePiece(pieces[i]);
      assert pair == parsed[i];
      if pair.Some? {
        cookies := cookies[pair.value.0 := pair.value.1];
      }
      i := i + 1;
    }
    assert parsed[..|pieces|] == parsed;
  }

  /** The pair assigns a value to this name. */
  predicate Names(pair: Option<(string, string)>, name: string) {
    pair.Some? && pair.value.0 == name
  }

  /** A name is present exactly when some pair names it. */
  lemma {:induction false} AssignPresent(pairs: seq<Option<(string, string)>>, name: string)
    ensures name in Assign(pairs) <==> exists i :: 0 <= i < |pairs| && Names(pairs[i], name)
    decreases |pairs|
  {
    if pairs != [] {
      var init := pairs[..|pairs| - 1];
      AssignPresent(init, name);
      assert forall i :: 0 <= i < |init| ==> init[i] == pairs[i];
      if name in Assign(pairs) && !Names(pairs[|pairs| - 1], name) {
        var i :| 0 <= i < |init| && Names(init[i], name);
        assert Names(pairs[i], name);
      }
    }
  }

  /** The value of a name is that of the last pair naming it. */
  lemma {:induction false} AssignLastWins(pairs: seq<Option<(string, string)>>, name: string, i: nat)
    requires i < |pairs| && Names(pairs[i], name)
    requires forall j :: i < j < |pairs| ==> !Names(pairs[j], name)
    ensures name in Assign(pairs) && Assign(pairs)[name] == pairs[i].value.1
    decreases |pairs|
  {
    var init := pairs[..|pairs| - 1];
    if i < |pairs| - 1 {
      assert init[i] == pairs[i];
      assert forall j :: i < j < |init| ==> init[j] == pairs[j];
      AssignLastWins(init, name, i);
    }
  }

  /** For the pieces of a header: a cookie is present exactly when some piece sets
      it, and a later piece of the same name overwrites an earlier one. */
  lemma CookieLastWins(pieces: seq<string>, name: string, i: nat)
    requires i < |pieces| && Names(CookiePair(pieces[i]), name)
    requires forall j :: i < j < |pieces| ==> !Names(CookiePair(pieces[j]), name)
    ensures name in CookieMap(pieces) && CookieMap(pieces)[name] == CookiePair(pieces[i]).value.1
  {
    AssignLastWins(CookiePairs(pieces), name, i);
  }

  lemma CookiePresent(pieces: seq<string>, name: string)
    ensures name in CookieMap(pieces) <==> exists i :: 0 <= i < |pieces| && Names(CookiePair(pieces[i]), name)
  {
    AssignPresent(CookiePairs(pieces), name);
  }

  /** The first `=` of `name=value` is the one after the name. */
  lemma FirstEquals(name: string, value: string)
    requires '=' !in name
    ensures IndexOf(name + "=" + value, '=') == Some(|name|)
  {
    var s := name + "=" + value;
    assert s[|name|] == '=';
    assert s[..|name|] == name;
    assert forall k :: 0 <= k < |name| ==> s[k] == name[k];
  }

  /** A piece `name=value` with both parts trimmed gives that pair. */
  lemma CookiePairOf(name: string, value: string)
    requires name != [] && '=' !in name
    requires !IsSpace(name[0]) && !IsSpace(name[|name| - 1])
    requires value == [] || (!IsSpace(value[0]) && !IsSpace(value[|value| - 1]))
    ensures CookiePair(name + "=" + value) == Some((name, value))
  {
    var s := name + "=" + value;
    assert s[0] == name[0];
    assert s[|s| - 1] == if value == [] then '=' else value[|value| - 1];
    TrimSpaceOfTrimmed(s);
    FirstEquals(name, value);
    assert s[..|name|] == name;
    assert s[|name| + 1..] == value;
    TrimSpaceOfTrimmed(name);
    TrimSpaceOfTrimmed(value);
  }

  /** The cookies of a header with a single piece: that piece's pair, if any. */
  lemma OnePiece(piece: string)
    ensures CookieMap([piece]) == match CookiePair(piece)
      case None => map[]
      case Some(nv) => map[nv.0 := nv.1]
  {
    var pairs := CookiePairs([piece]);
    assert pairs[..0] == [] && pairs[0] == CookiePair(piece);
    assert Assign(pairs[..0]) == map[];
  }

  /** One cookie `name=value`, whose name has no `=` and neither part a `;` or white
      space at its ends, is read back as that one cookie; the value may hold `=`. */
  lemma SingleCookie(name: string, value: string)
    requires name != [] && '=' !in name && ';' !in name && ';' !in value
    requires !IsSpace(name[0]) && !IsSpace(name[|name| - 1])
    requires value == [] || (!IsSpace(value[0]) && !IsSpace(value[|value| - 1]))
    ensures CookieMap(Split(name + "=" + value, ';')) == map[name := value]
  {
    var s := name + "=" + value;
    assert ';' !in s;
    SplitWithoutSeparator(s, ';');
    CookiePairOf(name, value);
    OnePiece(s);
  }

  // ---------------------------------------------------------------- HTTP /check

  datatype HttpReply = HttpReply(status: int, body: string)

  const Unauthorized := HttpReply(401, "{\"message\":\"Invalid or expired token\"}\n")

  /** The `/check` handler. Header values are `""` when absent; the `session` cookie,
      read by the HTTP library, is None when absent. */
  function CheckHandler(v: Verifier, adminApiKey: string, apiKeyHeader: string, authorization: string,
                        sessionCookie: Option<string>, parse: TokenParser): HttpReply
  {
    if adminApiKey != "" && apiKeyHeader == adminApiKey then
      HttpReply(200, "{\"ok\":true,\"bypass\":\"api_key\"}")
    else
      var auth := if authorization == "" && sessionCookie.Some? then "Bearer " + sessionCookie.value
                  else authorization;
      if auth == "" then Unauthorized
      else if TokenAccount(v, auth, parse).Failure? then Unauthorized
      else HttpReply(200, "{\"ok\":true}")
  }

  /** `/check` answers 200 exactly for the admin key (when one is set) or a token that
      verifies, taken from the Authorization header or else from the session cookie,
      and 401 "Invalid or expired token" otherwise. */
  lemma CheckHandlerCharacterised(v: Verifier, adminApiKey: string, apiKeyHeader: string, authorization: string,
                                  sessionCookie: Option<string>, parse: TokenParser)
    ensures var reply := CheckHandler(v, adminApiKey, apiKeyHeader, authorization, sessionCookie, parse);
      var bypass := adminApiKey != "" && apiKeyHeader == adminApiKey;
      var token := if authorization != "" then authorization
                   else if sessionCookie.Some? then "Bearer " + sessionCookie.value else "";
      && (reply.status == 200 <==> bypass || (token != "" && TokenAccount(v, token, parse).Success?))
      && (reply.status != 200 ==> reply == Unauthorized)
  {
  }

  // ---------------------------------------------------------------- SPOE

  /** An SPOE argument: a string, or a value of another type. */
  datatype SpoeArg = StrArg(s: string) | OtherArg

  type SpoeMessage = map<string, SpoeArg>

  datatype SpoeSettings = SpoeSettings(messageName: string, authArg: string, apiKeyArg: string,
                                       adminApiKey: string)

  /** The defaults `startSPOE` fills in for empty names. */
  function WithDefaults(s: SpoeSettings): (d: SpoeSettings)
    ensures d.messageName != "" && d.authArg != "" && d.apiKeyArg != "" && d.adminApiKey == s.adminApiKey
    ensures s.messageName != "" ==> d.messageName == s.messageName
    ensures s.authArg != "" ==> d.authArg == s.authArg
    ensures s.apiKeyArg != "" ==> d.apiKeyArg == s.apiKeyArg
  {
    SpoeSettings(if s.messageName == "" then "verify" else s.messageName,
                 if s.authArg == "" then "auth" else s.authArg,
                 if s.apiKeyArg == "" then "api_key" else s.apiKeyArg,
                 s.adminApiKey)
  }

  datatype VarValue = BoolVar(b: bool) | StrVar(s: string)

  /** `req.Actions.SetVar(action.ScopeTransaction, name, value)`. */
  datatype SetVar = SetVar(name: string, value: VarValue)

  const SessionCookie := "hedera-portal-session"

  /** The string value of an argument, if it is present and a string. */
  function StrOf(kv: SpoeMessage, name: string): Option<string> {
    if name in kv && kv[name].StrArg? then Some(kv[name].s) else None
  }

  /** The admin bypass: an admin key is set and the api-key argument is that string. */
  predicate Bypass(kv: SpoeMessage, s: SpoeSettings) {
    s.adminApiKey != "" && StrOf(kv, s.apiKeyArg) == Some(s.adminApiKey)
  }

  /** The token of the auth argument: what follows an exact `Bearer ` prefix. */
  function HeaderToken(kv: SpoeMessage, authArg: string): string {
    var a := StrOf(kv, authArg);
    if a.Some? && TrimSpace(a.value) != "" && HasPrefix(a.value, "Bearer ") then a.value[7..] else ""
  }

  /** The token of the session cookie, or `""`. */
  function CookieToken(kv: SpoeMessage): string {
    var c := StrOf(kv, "cookie");
    if c.Some? && c.value != "" then
      var cookies := CookieMap(Split(c.value, ';'));
      if SessionCookie in cookies then cookies[SessionCookie] else ""
    else ""
  }

  /** The token the handler verifies: the Bearer header, else the session cookie. */
  function SelectToken(kv: SpoeMessage, authArg: string): string {
    var h := HeaderToken(kv, authArg);
    if h != "" then h else CookieToken(kv)
  }

  /** The variables the handler sets, in order. */
  function SpoeActions(messages: map<string, SpoeMessage>, s: SpoeSettings, v: Verifier,
                       parse: TokenParser): seq<SetVar>
  {
    if s.messageName !in messages then
      [SetVar("auth_ok", BoolVar(false)), SetVar("reason", StrVar("message_not_found"))]
    else
      var kv := messages[s.messageName];
      if Bypass(kv, s) then
        [SetVar("auth_ok", BoolVar(true)), SetVar("reason", StrVar("bypass_api_key"))]
      else
        var token := SelectToken(kv, s.authArg);
        if token == "" then
          [SetVar("auth_ok", BoolVar(false)), SetVar("reason", StrVar("missing_token"))]
        else match TokenAccount(v, token, parse)
          case Failure(e) => [SetVar("auth_ok", BoolVar(false)), SetVar("reason", StrVar(e))]
          case Success(user) =>
            [SetVar("auth_ok", BoolVar(true)), SetVar("user_id", StrVar(user)), SetVar("reason", StrVar("ok"))]
  }

  /** An SPOE request: its messages, and the actions the handler adds. */
  class SpoeRequest {
    const messages: map<string, SpoeMessage>
    var actions: seq<SetVar>

    constructor (messages: map<string, SpoeMessage>)
      ensures this.messages == messages && actions == []
    {
      this.messages := messages;
      actions := [];
    }

    method Set(name: string, value: VarValue)
      modifies this
      ensures actions == old(actions) + [SetVar(name, value)]
    {
      actions := actions + [SetVar(name, value)];
    }
  }

  /** The token lookup of the SPOE handler: the Bearer auth argument, else the
      session cookie. */
  method ReadToken(mes: SpoeMessage, authArg: string) returns (token: string)
    ensures token == SelectToken(mes, authArg)
  {
    token := "";
    if authArg in mes && mes[authArg].StrArg? {
      var authToken := mes[authArg].s;
      if TrimSpace(authToken) != "" && HasPrefix(authToken, "Bearer ") {
        token := authToken[7..];
      }
    }
    if token == "" {
      if "cookie" in mes && mes["cookie"].StrArg? && mes["cookie"].s != "" {
        var cookies := ParseCookies(mes["cookie"].s);
        if SessionCookie in cookies && cookies[SessionCookie] != "" {
          token := cookies[SessionCookie];
        }
      }
    }
  }

  /** The SPOE handler, step by step. */
  method HandleSpoe(req: SpoeRequest, s: SpoeSettings, v: Verifier, parse: TokenParser)
    modifies req
    ensures req.actions == old(req.actions) + SpoeActions(req.messages, s, v, parse)
  {
    ghost var expected := SpoeActions(req.messages, s, v, parse);
    if s.messageName !in req.messages {
      req.Set("auth_ok", BoolVar(false));
      req.Set("reason", StrVar("message_not_found"));
      return;
    }
    var mes := req.messages[s.messageName];
    if s.adminApiKey != "" {
      if s.apiKeyArg in mes && mes[s.apiKeyArg].StrArg? && mes[s.apiKeyArg].s == s.adminApiKey {
        assert Bypass(mes, s);
        req.Set("auth_ok", BoolVar(true));
        req.Set("reason", StrVar("bypass_api_key"));
        return;
      }
    }
    assert !Bypass(mes, s);
    var token := ReadToken(mes, s.authArg);
    if token == "" {
      req.Set("auth_ok", BoolVar(false));
      req.Set("reason", StrVar("missing_token"));
      return;
    }
    var userId, err := VerifyToken(v, token, parse);
    if err.Some? {
      assert expected == [SetVar("auth_ok", BoolVar(false)), SetVar("reason", StrVar(err.value))];
      req.Set("auth_ok", BoolVar(false));
      req.Set("reason", StrVar(err.value));
      return;
    }
    ghost var ok, user, reason := SetVar("auth_ok", BoolVar(true)), SetVar("user_id", StrVar(userId)),
                            SetVar("reason", StrVar("ok"));
    assert expected == [ok, user, reason];
    ghost var start := req.actions;
    req.Set("auth_ok", BoolVar(true));
    req.Set("user_id", StrVar(userId));
    req.Set("reason", StrVar("ok"));
    AppendThree(start, ok, user, reason);
  }

  lemma AppendThree<T>(s: seq<T>, a: T, b: T, c: T)
    ensures s + [a] + [b] + [c] == s + [a, b, c]
  {
  }

  /** Every outcome sets `auth_ok` first and `reason` last; `auth_ok` is true exactly
      for the bypass and for a token that verifies, and only then with `user_id` set
      to the verified account. */
  lemma SpoeOutcome(messages: map<string, SpoeMessage>, s: SpoeSettings, v: Verifier, parse: TokenParser)
    ensures var acts := SpoeActions(messages, s, v, parse);
      && |acts| >= 2 && acts[0].name == "auth_ok" && acts[|acts| - 1].name == "reason"
      && (acts[0].value == BoolVar(true) <==>
            s.messageName in messages
            && (Bypass(messages[s.messageName], s)
                || (SelectToken(messages[s.messageName], s.authArg) != ""
                    && TokenAccount(v, SelectToken(messages[s.messageName], s.authArg), parse).Success?)))
      && (|acts| == 3 <==> acts[0].value == BoolVar(true) && !Bypass(messages[s.messageName], s))
      && (|acts| == 3 ==> acts[1] == SetVar("user_id", StrVar(
            TokenAccount(v, SelectToken(messages[s.messageName], s.authArg), parse).value)))
  {
  }

  /** A Bearer auth argument wins over the session cookie; an auth argument with any
      other spelling of the scheme is ignored in favour of the cookie. */
  lemma {:induction false} TokenSourcePriority(kv: SpoeMessage, authArg: string, t: string)
    requires t != ""
    ensures StrOf(kv, authArg) == Some("Bearer " + t) ==> SelectToken(kv, authArg) == t
    ensures StrOf(kv, authArg).Some? && !HasPrefix(StrOf(kv, authArg).value, "Bearer ")
            ==> SelectToken(kv, authArg) == CookieToken(kv)
  {
    if StrOf(kv, authArg) == Some("Bearer " + t) {
      var a := "Bearer " + t;
      assert a[..7] == "Bearer " && a[7..] == t;
      assert !IsSpace(a[0]);
    }
  }

  // ---------------------------------------------------------------- configuration

  /** The environment, as the text each variable holds (`""` when unset). */
  type Environment = string -> string

  /** `env(k, d)`: the trimmed value, or the default when that is blank. */
  function Env(e: Environment, k: string, d: string): (r: string)
    ensures TrimSpace(e(k)) != "" ==> r == TrimSpace(e(k)) && !IsSpace(r[0]) && !IsSpace(r[|r| - 1])
    ensures TrimSpace(e(k)) == "" ==> r == d
  {
    var v := TrimSpace(e(k));
    if v == "" then d else v
  }

  /** `strings.EqualFold` on ASCII text. */
  predicate EqualFold(a: string, b: string) {
    ToLower(a) == ToLower(b)
  }

  /** The server `main` starts. */
  datatype Server =
    | SpoeServer(verifier: Verifier, address: string, settings: SpoeSettings)
    | HttpServer(verifier: Verifier, address: string, adminApiKey: string)

  /** `main`: the server the environment configures, or the fatal error. */
  function Startup(e: Environment, keyAccepts: seq<Byte> -> bool): Result<Server, string>
  {
    var pubHex := e("PASETO_V4_PUBLIC_KEY_HEX");
    if TrimSpace(pubHex) == "" then Failure("PASETO_V4_PUBLIC_KEY_HEX is required")
    else
      match ConfiguredVerifier(e, keyAccepts)
      case Failure(err) => Failure("verifier init error: " + err)
      case Success(v) => Success(Launch(e, v))
  }

  /** The `newVerifier` call of `main`, on the variables it reads. */
  function ConfiguredVerifier(e: Environment, keyAccepts: seq<Byte> -> bool): Result<Verifier, string> {
    NewVerifier(e("PASETO_V4_PUBLIC_KEY_HEX"), EqualFold(e("IGNORE_EXP"), "true"), e("REQUIRE_AUD"),
                e("REQUIRE_ISS"), Env(e, "USER_FIELD", "userId"), keyAccepts)
  }

  /** The `switch mode` of `main`: the server it starts with the verifier. */
  function Launch(e: Environment, v: Verifier): Server {
    var adminApiKey := e("ADMIN_API_KEY");
    if ToLower(Env(e, "MODE", "http")) == "spoe" then
      SpoeServer(v, Env(e, "LISTEN_ADDR", ":9000"),
                 SpoeSettings(Env(e, "MESSAGE_NAME", "verify"), Env(e, "AUTH_ARG", "auth"),
                              Env(e, "API_KEY_ARG", "api_key"), adminApiKey))
    else HttpServer(v, Env(e, "LISTEN_ADDR", ":8080"), adminApiKey)
  }

  /** `main` stops with "PASETO_V4_PUBLIC_KEY_HEX is required" when the key variable is
      blank, and with "verifier init error: ..." when the key does not configure a
      verifier; otherwise it starts a server with that verifier. */
  lemma StartupFailures(e: Environment, keyAccepts: seq<Byte> -> bool)
    ensures TrimSpace(e("PASETO_V4_PUBLIC_KEY_HEX")) == ""
            ==> Startup(e, keyAccepts) == Failure("PASETO_V4_PUBLIC_KEY_HEX is required")
    ensures var nv := ConfiguredVerifier(e, keyAccepts);
      && (TrimSpace(e("PASETO_V4_PUBLIC_KEY_HEX")) != "" && nv.Failure?
          ==> Startup(e, keyAccepts) == Failure("verifier init error: " + nv.error))
      && (Startup(e, keyAccepts).Success? <==> TrimSpace(e("PASETO_V4_PUBLIC_KEY_HEX")) != "" && nv.Success?)
      && (Startup(e, keyAccepts).Success? ==> Startup(e, keyAccepts).value.verifier == nv.value)
  {
  }

  /** The verifier of `main` is for the configured key, and its account claim is
      `USER_FIELD`, else `userId`: the `accountId` default of `newVerifier` is never
      reached from `main`. */
  lemma ConfiguredVerifierSettings(e: Environment, keyAccepts: seq<Byte> -> bool)
    requires ConfiguredVerifier(e, keyAccepts).Success?
    ensures var v := ConfiguredVerifier(e, keyAccepts).value;
      && Some(v.pub) == HexDecode(TrimSpace(e("PASETO_V4_PUBLIC_KEY_HEX")))
      && v.accountField == Env(e, "USER_FIELD", "userId")
  {
    var d := "userId";
    assert !IsSpace(d[0]) && !IsSpace(d[|d| - 1]);
    EnvNotBlank(e, "USER_FIELD", d);
    var field := Env(e, "USER_FIELD", d);
    var nv := NewVerifier(e("PASETO_V4_PUBLIC_KEY_HEX"), EqualFold(e("IGNORE_EXP"), "true"), e("REQUIRE_AUD"),
                          e("REQUIRE_ISS"), field, keyAccepts);
    assert ConfiguredVerifier(e, keyAccepts) == nv;
    assert TrimSpace(field) != "";
  }

  /** A variable read with a non-blank trimmed default is itself non-blank and trimmed. */
  lemma EnvNotBlank(e: Environment, k: string, d: string)
    requires d != [] && !IsSpace(d[0]) && !IsSpace(d[|d| - 1])
    ensures var r := Env(e, k, d); r != "" && TrimSpace(r) == r
  {
    TrimSpaceOfTrimmed(Env(e, k, d));
  }

  /** The server started: SPOE exactly when `MODE` is `spoe` in any case, listening on
      `LISTEN_ADDR` or its mode's default port, with the admin key as set; the SPOE
      names never need the handler's own defaults. */
  lemma LaunchServer(e: Environment, v: Verifier)
    ensures var srv := Launch(e, v);
      && srv.verifier == v
      && (srv.SpoeServer? <==> ToLower(Env(e, "MODE", "http")) == "spoe")
      && srv.address == Env(e, "LISTEN_ADDR", if srv.SpoeServer? then ":9000" else ":8080")
      && (srv.SpoeServer? ==> WithDefaults(srv.settings) == srv.settings
                              && srv.settings.adminApiKey == e("ADMIN_API_KEY"))
      && (srv.HttpServer? ==> srv.adminApiKey == e("ADMIN_API_KEY"))
  {
  }
}
