/** The authentication middleware of the code-execution service: the secret key it
    is configured with and the decision it takes on each request. PASETO v4
    verification is an oracle. */
module PlaygroundAuth {
  import opened Wrappers
  import opened Strings

  /** `this.secretKey`: `""` when no key is configured, else the key object built
      from the bytes of the hex text. */
  datatype SecretKey = NoKey | KeyObject(bytes: seq<Byte>)

  /** `Buffer.from(keyHex, "hex")`: Node decodes two digits at a time from the start
      and stops at the first pair that is not two hexadecimal digits, so a trailing
      odd digit and everything from the first bad pair on are dropped, never rejected. */
  function BufferFromHex(s: string): (r: seq<Byte>)
    ensures 2 * |r| <= |s|
    decreases |s|
  {
    if |s| < 2 then []
    else
      var hi, lo := HexDigitValue(s[0]), HexDigitValue(s[1]);
      if hi.None? || lo.None? then [] else [hi.value * 16 + lo.value] + BufferFromHex(s[2..])
  }

  /** A text made only of hexadecimal digits. */
  predicate AllHexDigits(s: string) {
    forall i :: 0 <= i < |s| ==> HexDigitValue(s[i]).Some?
  }

  /** `paseto.V4.bytesToKeyObject` returns a key for these bytes (it throws otherwise). */
  type KeyAcceptance = seq<Byte> -> bool

  /** `keyObject(keyHex)`: no key for a missing or empty hex text; otherwise the key
      object of the decoded bytes, or None when the library throws, which makes the
      `Auth` constructor throw, so no middleware exists. */
  function MakeKey(keyHex: Option<string>, keyAccepts: KeyAcceptance): (k: Option<SecretKey>)
    ensures k == Some(NoKey) <==> keyHex.None? || keyHex.value == ""
    ensures k.None? <==> keyHex.Some? && keyHex.value != "" && !keyAccepts(BufferFromHex(keyHex.value))
    ensures k.Some? && k.value.KeyObject? ==> k.value.bytes == BufferFromHex(keyHex.value)
  {
    if keyHex.None? || keyHex.value == "" then Some(NoKey)
    else
      var bytes := BufferFromHex(keyHex.value);
      if keyAccepts(bytes) then Some(KeyObject(bytes)) else None
  }

  /** A text of an even number of hexadecimal digits decodes to half as many bytes,
      and whatever follows it decodes on its own. */
  lemma {:induction false} BufferFromHexAppend(s: string, t: string)
    requires |s| % 2 == 0 && AllHexDigits(s)
    ensures |BufferFromHex(s)| * 2 == |s|
    ensures BufferFromHex(s + t) == BufferFromHex(s) + BufferFromHex(t)
    decreases |s|
  {
    if s == [] {
      assert s + t == t;
    } else {
      assert (s + t)[2..] == s[2..] + t;
      assert (s + t)[0] == s[0] && (s + t)[1] == s[1];
      assert HexDigitValue(s[0]).Some? && HexDigitValue(s[1]).Some?;
      assert AllHexDigits(s[2..]) by {
        forall i | 0 <= i < |s[2..]| ensures HexDigitValue(s[2..][i]).Some? {
          assert s[2..][i] == s[i + 2];
        }
      }
      BufferFromHexAppend(s[2..], t);
      var b := HexDigitValue(s[0]).value * 16 + HexDigitValue(s[1]).value;
      assert BufferFromHex(s + t) == [b] + BufferFromHex(s[2..] + t);
      assert BufferFromHex(s) == [b] + BufferFromHex(s[2..]);
    }
  }

  /** Junk after a well-formed key text does not change the key: a trailing odd digit,
      or anything from a character that is not a hexadecimal digit on, is ignored. */
  lemma KeySuffixIgnored(keyHex: string, junk: string, keyAccepts: KeyAcceptance)
    requires keyHex != "" && |keyHex| % 2 == 0 && AllHexDigits(keyHex)
    requires |junk| == 1 || (junk != [] && HexDigitValue(junk[0]).None?)
    ensures MakeKey(Some(keyHex + junk), keyAccepts) == MakeKey(Some(keyHex), keyAccepts)
  {
    BufferFromHexAppend(keyHex, junk);
    BufferFromHexAppend(keyHex, []);
    assert keyHex + [] == keyHex;
  }

  /** The parts of a request the middleware reads. Header names are lower-case. */
  datatype Request = Request(httpMethod: string, path: string, headers: map<string, string>)

  function Header(r: Request, name: string): Option<string> {
    if name in r.headers then Some(r.headers[name]) else None
  }

  /** `paseto.V4.verify(token, key)` resolves for this token (None: `undefined`). */
  type TokenVerifier = Option<string> -> bool

  /** `validateUserToken`: true when verification resolves; every failure is caught
      and answers false. */
  function ValidateUserToken(token: Option<string>, verify: TokenVerifier): bool {
    verify(token)
  }

  datatype Decision =
    | Next                                 // `next()`: the request goes on
    | Unauthorized(message: string)        // 401 `{message}`

  const InvalidToken := "Invalid or expired token"

  /** The `[scheme, credentials]` of `authorization.split(" ")`. */
  function Scheme(authorization: string): string {
    Split(authorization, ' ')[0]
  }

  function Credentials(authorization: string): Option<string> {
    var parts := Split(authorization, ' ');
    if |parts| >= 2 then Some(parts[1]) else None
  }

  /** The health probe is open. */
  predicate IsHealthCheck(r: Request) {
    r.httpMethod == "GET" && r.path == "/health"
  }

  /** `apiKey && apiKey === config.admin_api_key`. */
  predicate AdminKeyMatches(r: Request, adminApiKey: Option<string>) {
    var apiKey := Header(r, "x-api-key");
    apiKey.Some? && apiKey.value != "" && adminApiKey == apiKey
  }

  /** An Authorization header with the exact scheme `Bearer` whose credentials verify. */
  predicate BearerAccepted(r: Request, verify: TokenVerifier) {
    var authorization := Header(r, "authorization");
    authorization.Some? && Scheme(authorization.value) == "Bearer"
    && ValidateUserToken(Credentials(authorization.value), verify)
  }

  /** The middleware's decision chain: a request goes on exactly when it is the health
      probe, no key is configured, its API key is the admin key or it carries a
      verified Bearer token; every other request is answered 401 "Invalid or expired
      token". */
  function Decide(r: Request, key: SecretKey, adminApiKey: Option<string>, verify: TokenVerifier): (d: Decision)
    ensures d == Next <==> IsHealthCheck(r) || key.NoKey? || AdminKeyMatches(r, adminApiKey) || BearerAccepted(r, verify)
    ensures d != Next ==> d == Unauthorized(InvalidToken)
  {
    if IsHealthCheck(r) || key.NoKey? then Next
    else if AdminKeyMatches(r, adminApiKey) then Next
    else
      var authorization := Header(r, "authorization");
      if authorization.Some? && Scheme(authorization.value) == "Bearer"
         && ValidateUserToken(Credentials(authorization.value), verify) then Next
      else Unauthorized(InvalidToken)
  }

  /** A missing or empty API-key header never matches, even an empty admin key. */
  lemma EmptyApiKeyNeverMatches(r: Request, adminApiKey: Option<string>)
    requires Header(r, "x-api-key").None? || Header(r, "x-api-key") == Some("")
    ensures !AdminKeyMatches(r, adminApiKey)
  {
  }

  /** `Bearer <token>` with a token without spaces hands exactly that token to
      verification. */
  lemma {:induction false} BearerTokenExtracted(token: string)
    requires ' ' !in token
    ensures Scheme("Bearer " + token) == "Bearer"
    ensures Credentials("Bearer " + token) == Some(token)
  {
    assert "Bearer " + token == "Bearer" + [' '] + token;
    SplitAppend("Bearer", token, ' ');
    SplitWithoutSeparator("Bearer", ' ');
    SplitWithoutSeparator(token, ' ');
  }

  /** The scheme test is case-sensitive: `bearer <token>` is not a Bearer credential. */
  lemma {:induction false} LowerCaseSchemeRejected(token: string)
    ensures Scheme("bearer " + token) == "bearer"
  {
    assert "bearer " + token == "bearer" + [' '] + token;
    SplitAppend("bearer", token, ' ');
    SplitWithoutSeparator("bearer", ' ');
  }

  /** A Bearer header whose token verifies lets a protected request through. */
  lemma {:induction false} VerifiedBearerPasses(r: Request, key: SecretKey, adminApiKey: Option<string>,
                                                 verify: TokenVerifier, token: string)
    requires ' ' !in token
    requires Header(r, "authorization") == Some("Bearer " + token)
    requires verify(Some(token))
    ensures Decide(r, key, adminApiKey, verify) == Next
  {
    BearerTokenExtracted(token);
  }
}
