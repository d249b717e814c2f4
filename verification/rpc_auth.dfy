// Authentication of RPC calls: a token presented with every call is checked
// against the node's valid tokens. The only kind of token is the cookie, 32
// secret bytes the node writes to a file at start-up.
module RpcAuth {
  import opened Wrappers

  type CookieBytes = b: seq<bv8> | |b| == 32 witness seq(32, _ => 0 as bv8)

  datatype Cookie = Cookie(bytes: CookieBytes)

  /** The kinds of token; more variants are foreseen, so tokens are compared only with tokens of their own kind. */
  datatype Token = CookieToken(cookie: Cookie)

  datatype AuthError = InvalidCookie

  /** `From<CookieBytes> for Cookie`: the bytes, unchanged. */
  function CookieFromBytes(bytes: CookieBytes): (c: Cookie)
    ensures c.bytes == bytes
  {
    Cookie(bytes)
  }

  /** `From<Cookie> for Token`: the cookie wrapped as a cookie token. */
  function TokenFromCookie(c: Cookie): (t: Token)
    ensures t.CookieToken? && t.cookie == c
  {
    CookieToken(c)
  }

  /** `Cookie::auth`: success exactly when the presented cookie equals the valid one. */
  function CookieAuth(c: Cookie, valid: Cookie): (r: Result<(), AuthError>)
    ensures r.Ok? <==> c.bytes == valid.bytes
    ensures r.Err? ==> r.error == InvalidCookie
  {
    if c == valid then Ok(()) else Err(InvalidCookie)
  }

  /** `std::mem::discriminant` equality. */
  predicate SameVariant(a: Token, b: Token)
  {
    match (a, b)
    case (CookieToken(_), CookieToken(_)) => true
  }

  /** `valid_tokens.iter().filter(..)`: the valid tokens of the same variant as `t`, in order. */
  function SameVariantTokens(t: Token, validTokens: seq<Token>): (r: seq<Token>)
    ensures |r| <= |validTokens|
    ensures forall k :: 0 <= k < |r| ==> SameVariant(t, r[k]) && r[k] in validTokens
    ensures |validTokens| > 0 && SameVariant(t, validTokens[0]) ==> |r| > 0 && r[0] == validTokens[0]
  {
    if |validTokens| == 0 then []
    else (if SameVariant(t, validTokens[0]) then [validTokens[0]] else []) + SameVariantTokens(t, validTokens[1..])
  }

  /** The caller supplied a valid token of the same variant as `t`. */
  predicate HasVariant(t: Token, validTokens: seq<Token>)
  {
    |SameVariantTokens(t, validTokens)| > 0
  }

  /**
   * `Token::auth`: the token is checked against the first valid token of its
   * own variant, and any later ones are ignored. The code panics when no
   * valid token of that variant is supplied.
   */
  function TokenAuth(t: Token, validTokens: seq<Token>): (r: Result<(), AuthError>)
    requires HasVariant(t, validTokens)
    ensures r.Ok? <==> t.cookie == SameVariantTokens(t, validTokens)[0].cookie
    ensures r.Err? ==> r.error == InvalidCookie
  {
    match (t, SameVariantTokens(t, validTokens)[0])
    case (CookieToken(c), CookieToken(valid)) => CookieAuth(c, valid)
  }

  /** Only the first valid token counts: appending further valid tokens changes no outcome, and a cookie is accepted iff it is the first one. */
  lemma TokenAuthUsesFirstOnly(t: Token, first: Token, rest: seq<Token>, more: seq<Token>)
    ensures TokenAuth(t, [first] + rest + more) == TokenAuth(t, [first] + rest)
    ensures TokenAuth(t, [first] + rest).Ok? <==> t.cookie == first.cookie
  {
    assert ([first] + rest + more)[0] == first;
    assert ([first] + rest)[0] == first;
  }

  /** A token made from the node's own cookie is accepted, and one made from any other cookie is refused. */
  lemma CookieTokenRoundTrip(bytes: CookieBytes, presented: CookieBytes)
    ensures TokenAuth(TokenFromCookie(CookieFromBytes(presented)), [TokenFromCookie(CookieFromBytes(bytes))]) ==
              (if presented == bytes then Ok(()) else Err(InvalidCookie))
  {
  }
}
