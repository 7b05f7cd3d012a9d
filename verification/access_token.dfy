/** The HS256 access tokens and PKCE challenges of the OAuth server. */
module AccessToken {
  import opened Text
  import opened Base64Url
  import opened Base64UrlBits
  import opened SessionKeys

  datatype Json = JNull | JBool(truth: bool) | JInt(number: int) | JStr(text: string) | JOther

  type Payload = map<string, Json>

  datatype Parsed = Malformed | NotAnObject | Object(payload: Payload)

  // The libraries the tokens are made with: JSON, and HMAC and SHA-256 under the signing key.
  datatype Crypto = Crypto(
    header: seq<Byte>,
    dumps: Payload -> seq<Byte>,
    loads: seq<Byte> -> Parsed,
    hmac: string -> seq<Byte>,
    sha256: string -> seq<Byte>)

  datatype Config = Config(issuer: string, audience: string, defaultTtl: int)

  ghost predicate JsonRoundTrips(crypto: Crypto) {
    forall p :: crypto.loads(crypto.dumps(p)) == Object(p)
  }

  datatype Claims =
    | Claims(user: int, company: int)
    | Rejected
    | Crashed                    // an authentic payload that is not an object

  // ---- Decimal text ----

  predicate IsDigit(c: char) {
    '0' <= c <= '9'
  }

  predicate AllDigits(s: string) {
    forall i :: 0 <= i < |s| ==> IsDigit(s[i])
  }

  function PrintNat(n: nat): (s: string)
    ensures s != "" && AllDigits(s)
  {
    var last := [('0' as int + n % 10) as char];
    if n < 10 then last else PrintNat(n / 10) + last
  }

  function Print(n: int): string {
    if n >= 0 then PrintNat(n) else "-" + PrintNat(-n)
  }

  function ParseNat(s: string): nat
    requires AllDigits(s)
  {
    if s == "" then 0 else ParseNat(s[..|s| - 1]) * 10 + (s[|s| - 1] as int - '0' as int)
  }

  lemma {:induction false} ParseUndoesPrint(n: nat)
    ensures ParseNat(PrintNat(n)) == n
  {
    var s := PrintNat(n);
    if n < 10 {
      assert s[..|s| - 1] == "";
    } else {
      ParseUndoesPrint(n / 10);
      assert s[..|s| - 1] == PrintNat(n / 10);
    }
  }

  // `_positive_claim`: a positive number, or its decimal text.
  function PositiveClaim(value: Json): Option<int> {
    match value
    case JInt(n) => if n > 0 then Some(n) else None
    case JStr(s) =>
      var stripped := Strip(s);
      if stripped == "" || !AllDigits(stripped) then None
      else if ParseNat(stripped) > 0 then Some(ParseNat(stripped)) else None
    case _ => None
  }

  lemma PrintedClaim(n: int)
    ensures PositiveClaim(JStr(Print(n))) == if n > 0 then Some(n) else None
  {
    var s := Print(n);
    assert n < 0 ==> s[0] == '-';
    assert n >= 0 ==> IsDigit(s[0]);
    assert n < 0 ==> PrintNat(-n) == s[1..] && s[|s| - 1] == PrintNat(-n)[|s| - 2];
    assert Strip(s) == s;
    if n >= 0 {
      ParseUndoesPrint(n);
    }
  }

  // ---- Tokens ----

  function EffectiveTtl(ttl: Option<int>, config: Config): int {
    if ttl.Some? && ttl.value > 0 then ttl.value else config.defaultTtl
  }

  function PayloadOf(user: int, company: int, iat: int, exp: int, config: Config): Payload {
    map[
      "iss" := JStr(config.issuer),
      "aud" := JStr(config.audience),
      "sub" := JStr(Print(user)),
      "id_external_company" := JInt(company),
      "iat" := JInt(iat),
      "exp" := JInt(exp),
      "scope" := JStr("mcp")]
  }

  function Framed(header: string, payload: string, signature: string): string {
    header + ['.'] + (payload + ['.'] + signature)
  }

  /** `encode_access_token` at `now`, in whole seconds. */
  function EncodeToken(user: int, company: int, ttl: Option<int>, now: int, config: Config, crypto: Crypto): string {
    var payload := Encode(crypto.dumps(PayloadOf(user, company, now, now + EffectiveTtl(ttl, config), config)));
    var header := Encode(crypto.header);
    Framed(header, payload, Encode(crypto.hmac(header + ['.'] + payload)))
  }

  function Field(p: Payload, name: string): Json {
    if name in p then p[name] else JNull
  }

  // A boolean is a number to `isinstance`.
  function Expired(exp: Json, now: int): bool {
    match exp
    case JInt(n) => now >= n
    case JBool(b) => now >= if b then 1 else 0
    case _ => true
  }

  function CheckPayload(p: Payload, now: int, config: Config): Claims {
    if Field(p, "iss") != JStr(config.issuer) then Rejected
    else if Field(p, "aud") != JStr(config.audience) then Rejected
    else if Field(p, "scope") != JStr("mcp") then Rejected
    else if Expired(Field(p, "exp"), now) then Rejected
    else
      var user := PositiveClaim(Field(p, "sub"));
      var company := PositiveClaim(Field(p, "id_external_company"));
      if user.Some? && company.Some? then Claims(user.value, company.value) else Rejected
  }

  /** `decode_access_token` at `now`, in whole seconds. */
  function DecodeToken(token: string, now: int, config: Config, crypto: Crypto): Claims {
    var parts := Split(token, '.');
    if |parts| != 3 then Rejected else
    var signature := Decode(parts[2]);
    var payload := Decode(parts[1]);
    if signature.None? || payload.None? then Rejected else
    var parsed := crypto.loads(payload.value);
    if parsed.Malformed? then Rejected
    else if signature.value != crypto.hmac(parts[0] + ['.'] + parts[1]) then Rejected
    else if parsed.NotAnObject? then Crashed
    else CheckPayload(parsed.payload, now, config)
  }

  lemma FramedParts(header: string, payload: string, signature: string)
    requires '.' !in header && '.' !in payload && '.' !in signature
    ensures Split(Framed(header, payload, signature), '.') == [header, payload, signature]
  {
    SplitAfter(header, payload + ['.'] + signature, '.');
    SplitAfter(payload, signature, '.');
    SplitWhole(signature, '.');
    hide Split;
    assert [header] + ([payload] + [signature]) == [header, payload, signature];
  }

  lemma SplitWhole(part: string, separator: char)
    requires separator !in part
    ensures Split(part, separator) == [part]
  {
    WholeHead(part, separator);
  }

  lemma {:induction false} WholeHead(part: string, separator: char)
    requires separator !in part
    ensures Head(part, separator) == part
  {
    if part != "" {
      WholeHead(part[1..], separator);
    }
  }

  lemma CheckOwnPayload(user: int, company: int, iat: int, exp: int, now: int, config: Config)
    ensures CheckPayload(PayloadOf(user, company, iat, exp, config), now, config)
      == if now < exp && user > 0 && company > 0 then Claims(user, company) else Rejected
  {
    hide Print, PositiveClaim;
    PrintedClaim(user);
    assert PositiveClaim(JInt(company)) == if company > 0 then Some(company) else None by {
      IntClaim(company);
    }
  }

  lemma IntClaim(n: int)
    ensures PositiveClaim(JInt(n)) == if n > 0 then Some(n) else None
  {
  }

  /**
   * Decoding a token gives back exactly the user and company it was made for, at every time before
   * its expiry, and nothing from then on; a user or company that is not positive is never accepted.
   */
  lemma DecodeUndoesEncodeToken(
      user: int, company: int, ttl: Option<int>, iat: int, now: int, config: Config, crypto: Crypto)
    requires JsonRoundTrips(crypto)
    ensures DecodeToken(EncodeToken(user, company, ttl, iat, config, crypto), now, config, crypto)
      == if now < iat + EffectiveTtl(ttl, config) && user > 0 && company > 0 then Claims(user, company) else Rejected
  {
    hide Encode, Decode, Split, CheckPayload, PayloadOf, Framed;
    var exp := iat + EffectiveTtl(ttl, config);
    var p := PayloadOf(user, company, iat, exp, config);
    var header, payload := Encode(crypto.header), Encode(crypto.dumps(p));
    var signature := crypto.hmac(header + ['.'] + payload);
    FramedParts(header, payload, Encode(signature));
    DecodeUndoesEncode(signature);
    DecodeUndoesEncode(crypto.dumps(p));
    CheckOwnPayload(user, company, iat, exp, now, config);
  }

  /**
   * Tokens are equal exactly when they were made in the same second for the same user, company and
   * lifetime: two exchanges can share a token, but never with another identity or expiry.
   */
  lemma EqualTokensExpireTogether(
      user: int, company: int, ttl: Option<int>, iat: int,
      user': int, company': int, ttl': Option<int>, iat': int, config: Config, crypto: Crypto)
    requires JsonRoundTrips(crypto)
    ensures var one := EncodeToken(user, company, ttl, iat, config, crypto);
      var other := EncodeToken(user', company', ttl', iat', config, crypto);
      var samePeriod := iat == iat' && EffectiveTtl(ttl, config) == EffectiveTtl(ttl', config);
      one == other <==> user == user' && company == company' && samePeriod
  {
    hide Encode, PayloadOf, Framed;
    var p := PayloadOf(user, company, iat, iat + EffectiveTtl(ttl, config), config);
    var q := PayloadOf(user', company', iat', iat' + EffectiveTtl(ttl', config), config);
    var header := Encode(crypto.header);
    var a, b := Encode(crypto.dumps(p)), Encode(crypto.dumps(q));
    FramesMatch(header, a, Encode(crypto.hmac(header + ['.'] + a)), header, b, Encode(crypto.hmac(header + ['.'] + b)));
    EncodedJsonIdentifies(p, q, crypto);
    EqualPayloads(user, company, iat, iat + EffectiveTtl(ttl, config),
      user', company', iat', iat' + EffectiveTtl(ttl', config), config);
  }

  lemma FramesMatch(h: string, a: string, s: string, h': string, a': string, s': string)
    requires '.' !in h && '.' !in a && '.' !in s && '.' !in h' && '.' !in a' && '.' !in s'
    ensures Framed(h, a, s) == Framed(h', a', s') ==> a == a'
  {
    hide Split, Framed;
    FramedParts(h, a, s);
    FramedParts(h', a', s');
    assert [h, a, s][1] == a && [h', a', s'][1] == a';
  }

  lemma EncodedJsonIdentifies(p: Payload, q: Payload, crypto: Crypto)
    requires JsonRoundTrips(crypto)
    ensures Encode(crypto.dumps(p)) == Encode(crypto.dumps(q)) ==> p == q
  {
    hide Encode, Decode;
    DecodeUndoesEncode(crypto.dumps(p));
    DecodeUndoesEncode(crypto.dumps(q));
    assert crypto.loads(crypto.dumps(p)) == Object(p) && crypto.loads(crypto.dumps(q)) == Object(q);
  }

  lemma PrintIdentifies(m: int, n: int)
    ensures Print(m) == Print(n) ==> m == n
  {
    ParseUndoesPrint(if m >= 0 then m else -m);
    ParseUndoesPrint(if n >= 0 then n else -n);
    assert Print(m)[0] == '-' <==> m < 0;
    assert Print(n)[0] == '-' <==> n < 0;
    if m < 0 && n < 0 {
      assert Print(m)[1..] == PrintNat(-m) && Print(n)[1..] == PrintNat(-n);
    }
  }

  lemma EqualPayloads(user: int, company: int, iat: int, exp: int,
      user': int, company': int, iat': int, exp': int, config: Config)
    ensures PayloadOf(user, company, iat, exp, config) == PayloadOf(user', company', iat', exp', config) ==>
      user == user' && company == company' && iat == iat' && exp == exp'
  {
    hide Print;
    PrintIdentifies(user, user');
    var p, q := PayloadOf(user, company, iat, exp, config), PayloadOf(user', company', iat', exp', config);
    assert p["id_external_company"] == JInt(company) && p["iat"] == JInt(iat) && p["exp"] == JInt(exp);
    assert p["sub"] == JStr(Print(user)) && q["sub"] == JStr(Print(user'));
    assert q["id_external_company"] == JInt(company') && q["iat"] == JInt(iat') && q["exp"] == JInt(exp');
  }

  // ---- What is accepted ----

  // The token frames a payload that carries this server's signature.
  ghost predicate Authentic(token: string, p: Payload, crypto: Crypto) {
    exists h, a, s :: IsFrame(token, h, a, s) && Decode(s) == Some(crypto.hmac(h + ['.'] + a))
      && Decode(a).Some? && crypto.loads(Decode(a).value) == Object(p)
  }

  predicate IsFrame(token: string, h: string, a: string, s: string) {
    '.' !in h && '.' !in a && '.' !in s && token == Framed(h, a, s)
  }

  predicate ClaimIs(value: Json, n: int) {
    n > 0 && (value == JInt(n) || (value.JStr? && IsNumeral(Strip(value.text), n)))
  }

  predicate IsNumeral(s: string, n: int) {
    s != "" && AllDigits(s) && ParseNat(s) == n
  }

  predicate EndsAfter(exp: Json, now: int) {
    (exp.JInt? && now < exp.number) || (exp.JBool? && now < if exp.truth then 1 else 0)
  }

  predicate Names(p: Payload, user: int, company: int, now: int, config: Config) {
    && Field(p, "iss") == JStr(config.issuer) && Field(p, "aud") == JStr(config.audience)
    && Field(p, "scope") == JStr("mcp") && EndsAfter(Field(p, "exp"), now)
    && ClaimIs(Field(p, "sub"), user) && ClaimIs(Field(p, "id_external_company"), company)
  }

  lemma FrameOfParts(token: string)
    requires |Split(token, '.')| == 3
    ensures var parts := Split(token, '.'); IsFrame(token, parts[0], parts[1], parts[2])
  {
    hide Split, Head;
    SplitStep(token);
    var h := Head(token, '.');
    var rest := token[|h| + 1..];
    SplitStep(rest);
    var a := Head(rest, '.');
    var last := rest[|a| + 1..];
    SplitStep(last);
    assert Split(token, '.') == [h] + ([a] + Split(last, '.'));
    assert Split(last, '.') == [last];
  }

  // One part of a split, and the text it comes from.
  lemma SplitStep(s: string)
    ensures var h := Head(s, '.');
      if |h| < |s| then s == h + ['.'] + s[|h| + 1..] && Split(s, '.') == [h] + Split(s[|h| + 1..], '.')
      else h == s && Split(s, '.') == [s]
  {
    HeadFits(s, '.');
  }

  /**
   * A token is accepted, for a user and a company, exactly when it carries this server's signature
   * and its payload names the issuer, the audience, the scope, them, and an expiry still to come.
   */
  lemma AcceptsExactlyAuthenticTokens(token: string, user: int, company: int, now: int, config: Config, crypto: Crypto)
    ensures DecodeToken(token, now, config, crypto) == Claims(user, company)
      <==> exists p :: Authentic(token, p, crypto) && Names(p, user, company, now, config)
  {
    hide Framed, Decode, Split, Names, CheckPayload;
    forall p ensures CheckPayload(p, now, config) == Claims(user, company) <==> Names(p, user, company, now, config) {
      CheckedPayloadNames(p, user, company, now, config);
    }
    if DecodeToken(token, now, config, crypto) == Claims(user, company) {
      FrameOfParts(token);
      var parts := Split(token, '.');
      assert IsFrame(token, parts[0], parts[1], parts[2]);
    }
    forall p | Authentic(token, p, crypto)
      ensures DecodeToken(token, now, config, crypto) == CheckPayload(p, now, config)
    {
      AuthenticIsChecked(token, p, now, config, crypto);
    }
  }

  lemma CheckedPayloadNames(p: Payload, user: int, company: int, now: int, config: Config)
    ensures CheckPayload(p, now, config) == Claims(user, company) <==> Names(p, user, company, now, config)
  {
    hide Field, ParseNat, Strip, AllDigits;
  }

  lemma AuthenticIsChecked(token: string, p: Payload, now: int, config: Config, crypto: Crypto)
    requires Authentic(token, p, crypto)
    ensures DecodeToken(token, now, config, crypto) == CheckPayload(p, now, config)
  {
    hide Framed, Decode, Split, CheckPayload;
    var h, a, s :| IsFrame(token, h, a, s) && Decode(s) == Some(crypto.hmac(h + ['.'] + a))
      && Decode(a).Some? && crypto.loads(Decode(a).value) == Object(p);
    FramedParts(h, a, s);
  }

  /**
   * A token made by this server is authentic, and its payload holds these seven claims: the lifetime
   * is the given one if that is positive and the default otherwise.
   */
  lemma EncodedTokenIsAuthentic(user: int, company: int, ttl: Option<int>, iat: int, config: Config, crypto: Crypto)
    returns (p: Payload)
    requires JsonRoundTrips(crypto)
    ensures Authentic(EncodeToken(user, company, ttl, iat, config, crypto), p, crypto)
    ensures p.Keys == {"iss", "aud", "sub", "id_external_company", "iat", "exp", "scope"}
    ensures p["iss"] == JStr(config.issuer) && p["aud"] == JStr(config.audience) && p["scope"] == JStr("mcp")
    ensures p["sub"] == JStr(Print(user)) && p["id_external_company"] == JInt(company) && p["iat"] == JInt(iat)
    ensures match ttl
            case None => p["exp"] == JInt(iat + config.defaultTtl)
            case Some(t) => p["exp"] == JInt(iat + if t <= 0 then config.defaultTtl else t)
  {
    p := PayloadOf(user, company, iat, iat + EffectiveTtl(ttl, config), config);
    hide Encode, Decode, Print, Framed;
    var header, payload := Encode(crypto.header), Encode(crypto.dumps(p));
    var signature := crypto.hmac(header + ['.'] + payload);
    DecodeUndoesEncode(signature);
    DecodeUndoesEncode(crypto.dumps(p));
    assert IsFrame(EncodeToken(user, company, ttl, iat, config, crypto), header, payload, Encode(signature));
  }

  // ---- PKCE ----

  /** `pkce_s256`; `None` is the error for a verifier that is not ASCII. */
  function PkceS256(verifier: string, crypto: Crypto): Option<string> {
    if exists i :: 0 <= i < |verifier| && (verifier[i] as int) >= 128 then None
    else Some(Encode(crypto.sha256(verifier)))
  }

  /** The challenge of an ASCII verifier spells the bits of its digest; any other verifier has none. */
  lemma ChallengeSpellsDigest(verifier: string, crypto: Crypto)
    ensures PkceS256(verifier, crypto).Some? <==> forall c :: c in verifier ==> c as int <= 127
    ensures PkceS256(verifier, crypto).Some? ==> Spells(PkceS256(verifier, crypto).value, crypto.sha256(verifier))
  {
    hide Encode, Spells;
    EncodeSpellsBits(crypto.sha256(verifier));
    assert forall i :: 0 <= i < |verifier| ==> verifier[i] in verifier;
    if exists c :: c in verifier && c as int > 127 {
      var c :| c in verifier && c as int > 127;
      var i :| 0 <= i < |verifier| && verifier[i] == c;
    }
  }

  /** Two verifiers have the same challenge exactly when they have the same digest. */
  lemma ChallengeIdentifiesDigest(v: string, w: string, crypto: Crypto)
    requires PkceS256(v, crypto).Some? && PkceS256(w, crypto).Some?
    ensures PkceS256(v, crypto) == PkceS256(w, crypto) <==> crypto.sha256(v) == crypto.sha256(w)
  {
    DecodeUndoesEncode(crypto.sha256(v));
    DecodeUndoesEncode(crypto.sha256(w));
    hide Encode, Decode;
  }
}
