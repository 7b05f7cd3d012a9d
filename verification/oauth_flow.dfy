/**
 * Authorization codes, access tokens, hub sessions and the gate that consumes them: every exchange
 * taken apart into its accesses, in any interleaving, against a clock that only advances.
 */
module OAuthFlow {
  import opened AccessToken
  import opened Base64UrlBits
  import opened SessionKeys

  const MICROS_PER_SECOND := 1_000_000

  // The server's settings. `localRedirect` is the URL library's verdict on a localhost redirect.
  datatype Setup = Setup(
    config: Config,
    crypto: Crypto,
    clientId: string,
    codeTtl: nat,
    localRedirect: string -> bool)

  ghost predicate Sound(setup: Setup) {
    JsonRoundTrips(setup.crypto) && setup.config.defaultTtl > 0
  }

  datatype SignInRequest = SignInRequest(
    client: string, redirect: string, challenge: string, pkceMethod: string, resource: Option<string>)

  // What a successful sign-in at ms-auth returns; `lifetimes` are the candidate token lifetimes.
  datatype SignIn = SignIn(user: int, company: int, msToken: string, lifetimes: seq<Option<int>>)

  // The document stored under a code.
  datatype Grant = Grant(
    user: int, company: int, msToken: string, expiresIn: int,
    client: string, redirect: string, challenge: string, pkceMethod: string)

  datatype Redemption = Redemption(
    code: string, client: string, redirect: string, verifier: string, resource: Option<string>)

  // ---- Parameter checks ----

  predicate IsNameChar(c: char) {
    'A' <= c <= 'Z' || 'a' <= c <= 'z' || '0' <= c <= '9' || c == '_' || c == '-'
  }

  // The text is `prefix`, a non-empty name, `suffix`.
  predicate Matches(text: string, prefix: string, suffix: string) {
    && |text| > |prefix| + |suffix|
    && text[..|prefix|] == prefix
    && text[|text| - |suffix|..] == suffix
    && forall i :: |prefix| <= i < |text| - |suffix| ==> IsNameChar(text[i])
  }

  lemma NameCharsAreAlphabet(c: char)
    ensures IsNameChar(c) <==> c in ALPHABET
  {
    AlphabetMembers(c);
  }

  /** What the patterns accept: some name of letters, digits, '-' and '_' in the place they leave open. */
  lemma MatchesSomeName(text: string, prefix: string, suffix: string)
    ensures Matches(text, prefix, suffix)
      <==> exists name :: name != "" && (forall c :: c in name ==> c in ALPHABET) && text == prefix + name + suffix
  {
    hide IsNameChar;
    forall c ensures IsNameChar(c) <==> c in ALPHABET {
      NameCharsAreAlphabet(c);
    }
    if Matches(text, prefix, suffix) {
      var name := text[|prefix|..|text| - |suffix|];
      assert text == prefix + name + suffix;
    }
    if name :| name != "" && (forall c :: c in name ==> c in ALPHABET) && text == prefix + name + suffix {
      forall i | |prefix| <= i < |text| - |suffix| ensures IsNameChar(text[i]) {
        assert text[i] == name[i - |prefix|];
      }
    }
  }

  predicate AcceptedClient(client: string, setup: Setup) {
    || client == setup.clientId
    || client == "https://chatgpt.com/oauth/client.json"
    || Matches(client, "https://chatgpt.com/oauth/", "/client.json")
  }

  predicate AcceptedRedirect(redirect: string, setup: Setup) {
    || redirect == "https://chatgpt.com/connector_platform_oauth_redirect"
    || Matches(redirect, "https://chatgpt.com/connector/oauth/", "")
    || setup.localRedirect(redirect)
  }

  predicate AcceptedResource(resource: Option<string>, setup: Setup) {
    resource.None? || resource.value == "" || resource.value == setup.config.audience
  }

  function FirstLifetime(lifetimes: seq<Option<int>>, setup: Setup): int {
    if lifetimes == [] then setup.config.defaultTtl
    else if lifetimes[0].Some? && lifetimes[0].value > 0 then lifetimes[0].value
    else FirstLifetime(lifetimes[1..], setup)
  }

  // What `authorize` stores, unless it refuses.
  function GrantFor(r: SignInRequest, signIn: Option<SignIn>, setup: Setup): Option<Grant> {
    if r.pkceMethod != "S256" || !AcceptedClient(r.client, setup) || !AcceptedRedirect(r.redirect, setup)
      || !AcceptedResource(r.resource, setup) || signIn.None? || signIn.value.msToken == "" then None
    else
      var who := signIn.value;
      Some(Grant(who.user, who.company, who.msToken, FirstLifetime(who.lifetimes, setup),
        r.client, r.redirect, r.challenge, r.pkceMethod))
  }

  // The lifetime of the token that redeeming the grant yields, unless the redemption is refused.
  function RedeemedTtl(g: Grant, r: Redemption, setup: Setup): Option<int> {
    if g.client != r.client || g.redirect != r.redirect then None
    else if PkceS256(r.verifier, setup.crypto).None? then None
    else if g.pkceMethod != "S256" || PkceS256(r.verifier, setup.crypto).value != g.challenge then None
    else if g.msToken == "" then None
    else Some(if g.expiresIn > 0 then g.expiresIn else setup.config.defaultTtl)
  }

  // ---- Steps ----

  datatype StoredCode = StoredCode(grant: Grant, expiry: int)

  datatype HubSession = HubSession(user: int, company: int, msToken: string, expiry: int)

  datatype Exchange =
    | Redeemed(code: string, grant: Grant, ttl: int)                            // next: make the token
    | Minted(code: string, grant: Grant, ttl: int, iat: int, token: string)     // next: save its session

  // `used` are the codes ever generated.
  datatype State = State(
    now: nat,
    used: set<string>,
    codes: map<string, StoredCode>,
    sessions: map<string, HubSession>,
    exchanges: map<nat, Exchange>)

  const INITIAL := State(0, {}, map[], map[], map[])

  datatype Event =
    | Authorize(code: string, request: SignInRequest, signIn: Option<SignIn>)
    | Pop(t: nat, redemption: Redemption, opens: bool)      // `opens`: the stored secret decrypts
    | Mint(t: nat)
    | Save(t: nat)
    | Drop(t: nat)                                          // the exchange dies
    | Revoke(token: string)
    | Wait(micros: nat)

  predicate LiveCode(s: State, code: string) {
    code in s.codes && s.now < s.codes[code].expiry
  }

  function Redeem(s: State, r: Redemption, opens: bool, setup: Setup): Option<Exchange> {
    if !LiveCode(s, r.code) || !opens then None else
    var g := s.codes[r.code].grant;
    var ttl := RedeemedTtl(g, r, setup);
    if ttl.Some? then Some(Redeemed(r.code, g, ttl.value)) else None
  }

  function Token(g: Grant, ttl: int, iat: int, setup: Setup): string {
    EncodeToken(g.user, g.company, Some(ttl), iat, setup.config, setup.crypto)
  }

  function SessionFor(x: Exchange, now: int): HubSession {
    HubSession(x.grant.user, x.grant.company, x.grant.msToken, now + x.ttl * MICROS_PER_SECOND)
  }

  function Step(s: State, e: Event, setup: Setup): State {
    match e
    case Authorize(code, request, signIn) =>
      // Codes are 256 random bits: one that was used before is never drawn again.
      var g := GrantFor(request, signIn, setup);
      if code in s.used || g.None? then s
      else s.(used := s.used + {code},
              codes := s.codes[code := StoredCode(g.value, s.now + setup.codeTtl * MICROS_PER_SECOND)])
    case Pop(t, r, opens) =>
      if t in s.exchanges || !AcceptedResource(r.resource, setup) then s
      else
        var x := Redeem(s, r, opens, setup);
        s.(codes := s.codes - {r.code}, exchanges := if x.Some? then s.exchanges[t := x.value] else s.exchanges)
    case Mint(t) =>
      if t in s.exchanges && s.exchanges[t].Redeemed? then
        var x := s.exchanges[t];
        var iat := s.now / MICROS_PER_SECOND;
        s.(exchanges := s.exchanges[t := Minted(x.code, x.grant, x.ttl, iat, Token(x.grant, x.ttl, iat, setup))])
      else s
    case Save(t) =>
      if t in s.exchanges && s.exchanges[t].Minted? then
        var x := s.exchanges[t];
        s.(sessions := s.sessions[x.token := SessionFor(x, s.now)], exchanges := s.exchanges - {t})
      else s
    case Drop(t) => s.(exchanges := s.exchanges - {t})
    case Revoke(token) => s.(sessions := s.sessions - {token})
    case Wait(micros) => s.(now := s.now + micros)
  }

  function Run(es: seq<Event>, setup: Setup): State {
    if es == [] then INITIAL else Step(Run(es[..|es| - 1], setup), es[|es| - 1], setup)
  }

  lemma RunSplits(es: seq<Event>, i: nat, setup: Setup)
    requires i < |es|
    ensures Run(es[..i + 1], setup) == Step(Run(es[..i], setup), es[i], setup)
  {
    assert es[..i + 1][..i] == es[..i];
  }

  // ---- One code, one token ----

  // The code can still lead to a token: it is not drawn yet, stored, or redeemed but not minted.
  ghost predicate Redeemable(s: State, code: string) {
    || code !in s.used
    || code in s.codes
    || exists t :: HoldsRedeemed(s, t, code)
  }

  ghost predicate HoldsRedeemed(s: State, t: nat, code: string) {
    t in s.exchanges && s.exchanges[t].Redeemed? && s.exchanges[t].code == code
  }

  ghost predicate CodesHeldOnce(s: State) {
    && s.codes.Keys <= s.used
    && (forall t, code :: HoldsRedeemed(s, t, code) ==> code in s.used && code !in s.codes)
    && (forall t, u, code :: HoldsRedeemed(s, t, code) && HoldsRedeemed(s, u, code) ==> t == u)
  }

  lemma StepKeepsCodesHeldOnce(s: State, e: Event, setup: Setup)
    requires CodesHeldOnce(s)
    ensures CodesHeldOnce(Step(s, e, setup))
    ensures forall code :: !Redeemable(s, code) ==> !Redeemable(Step(s, e, setup), code)
  {
    hide Token, GrantFor, RedeemedTtl, AcceptedResource;
    var after := Step(s, e, setup);
    forall t: nat, code | HoldsRedeemed(after, t, code)
      ensures HoldsRedeemed(s, t, code) || (e.Pop? && t == e.t && code == e.redemption.code && code in s.codes) {
    }
  }

  lemma {:induction false} CodesAreHeldOnce(es: seq<Event>, setup: Setup)
    ensures CodesHeldOnce(Run(es, setup))
  {
    hide Step;
    if es != [] {
      CodesAreHeldOnce(es[..|es| - 1], setup);
      StepKeepsCodesHeldOnce(Run(es[..|es| - 1], setup), es[|es| - 1], setup);
    }
  }

  lemma {:induction false} SpentCodesStaySpent(es: seq<Event>, i: nat, code: string, setup: Setup)
    requires i <= |es| && !Redeemable(Run(es[..i], setup), code)
    ensures !Redeemable(Run(es, setup), code)
  {
    hide Step, Redeemable;
    if i == |es| {
      assert es[..i] == es;
    } else {
      var n := |es| - 1;
      assert es[..n][..i] == es[..i];
      SpentCodesStaySpent(es[..n], i, code, setup);
      CodesAreHeldOnce(es[..n], setup);
      StepKeepsCodesHeldOnce(Run(es[..n], setup), es[n], setup);
    }
  }

  // Event `i` makes a token from `code`.
  ghost predicate MintsFrom(es: seq<Event>, i: nat, code: string, setup: Setup) {
    i < |es| && es[i].Mint? && HoldsRedeemed(Run(es[..i], setup), es[i].t, code)
  }

  lemma MintSpendsCode(s: State, t: nat, code: string, setup: Setup)
    requires CodesHeldOnce(s) && HoldsRedeemed(s, t, code)
    ensures !Redeemable(Step(s, Mint(t), setup), code)
  {
    hide Token;
    var after := Step(s, Mint(t), setup);
    forall u: nat ensures !HoldsRedeemed(after, u, code) {
      assert HoldsRedeemed(after, u, code) ==> HoldsRedeemed(s, u, code) && u != t;
    }
  }

  /** In any interleaving of exchanges and expiry, a code yields at most one access token. */
  lemma OneTokenPerCode(es: seq<Event>, i: nat, j: nat, code: string, setup: Setup)
    requires MintsFrom(es, i, code, setup) && MintsFrom(es, j, code, setup)
    ensures i == j
  {
    if i < j {
      SecondMintImpossible(es, i, j, code, setup);
    } else if j < i {
      SecondMintImpossible(es, j, i, code, setup);
    }
  }

  lemma SecondMintImpossible(es: seq<Event>, i: nat, j: nat, code: string, setup: Setup)
    requires i < j && MintsFrom(es, i, code, setup)
    ensures !MintsFrom(es, j, code, setup)
  {
    hide Step, HoldsRedeemed;
    if j < |es| && es[j].Mint? {
      CodesAreHeldOnce(es[..i], setup);
      RunSplits(es, i, setup);
      MintSpendsCode(Run(es[..i], setup), es[i].t, code, setup);
      assert es[..j][..i + 1] == es[..i + 1];
      SpentCodesStaySpent(es[..j], i + 1, code, setup);
      NotRedeemableNotHeld(Run(es[..j], setup), es[j].t, code);
    }
  }

  lemma NotRedeemableNotHeld(s: State, t: nat, code: string)
    requires !Redeemable(s, code)
    ensures !HoldsRedeemed(s, t, code)
  {
  }

  /** Every pop burns the code, whether or not the redemption succeeds. */
  lemma PopBurnsCode(es: seq<Event>, i: nat, setup: Setup)
    requires i < |es| && es[i].Pop? && es[i].t !in Run(es[..i], setup).exchanges
    requires AcceptedResource(es[i].redemption.resource, setup)
    requires es[i].redemption.code in Run(es[..i], setup).used
    ensures es[i].redemption.code !in Run(es, setup).codes
  {
    RunSplits(es, i, setup);
    hide Run, Redeem;
    UsedCodesDoNotReturn(es, i + 1, es[i].redemption.code, setup);
  }

  lemma {:induction false} UsedCodesDoNotReturn(es: seq<Event>, i: nat, code: string, setup: Setup)
    requires i <= |es| && code in Run(es[..i], setup).used && code !in Run(es[..i], setup).codes
    ensures code in Run(es, setup).used && code !in Run(es, setup).codes
  {
    hide Step;
    if i == |es| {
      assert es[..i] == es;
    } else {
      assert es[..|es| - 1][..i] == es[..i];
      UsedCodesDoNotReturn(es[..|es| - 1], i, code, setup);
      UsedCodeStaysOut(Run(es[..|es| - 1], setup), es[|es| - 1], code, setup);
    }
  }

  lemma UsedCodeStaysOut(s: State, e: Event, code: string, setup: Setup)
    requires code in s.used && code !in s.codes
    ensures code in Step(s, e, setup).used && code !in Step(s, e, setup).codes
  {
    hide Token, Redeem, GrantFor, AcceptedResource;
  }

  // ---- Where a token comes from ----

  // Event `a` stored `g` under `code`, for a sign-in that ms-auth accepted.
  ghost predicate GrantedAt(es: seq<Event>, a: nat, code: string, g: Grant, setup: Setup) {
    && a < |es| && es[a].Authorize? && es[a].code == code
    && code !in Run(es[..a], setup).used
    && GrantFor(es[a].request, es[a].signIn, setup) == Some(g)
  }

  // Event `p` redeemed `code` in time, for the client and redirect of `g` and a verifier of its challenge.
  ghost predicate RedeemedAt(es: seq<Event>, p: nat, code: string, g: Grant, ttl: int, setup: Setup) {
    && p < |es| && es[p].Pop? && es[p].redemption.code == code
    && LiveCode(Run(es[..p], setup), code) && es[p].opens && AcceptedResource(es[p].redemption.resource, setup)
    && RedeemedTtl(g, es[p].redemption, setup) == Some(ttl)
  }

  ghost predicate Granted(es: seq<Event>, code: string, g: Grant, setup: Setup) {
    exists a :: GrantedAt(es, a, code, g, setup)
  }

  // Event `a` stored the code, and its key dies a code's lifetime later.
  ghost predicate StoredAt(es: seq<Event>, a: nat, code: string, stored: StoredCode, setup: Setup) {
    && GrantedAt(es, a, code, stored.grant, setup)
    && stored.expiry == Run(es[..a], setup).now + setup.codeTtl * 1_000_000
  }

  lemma StepStores(s: State, e: Event, code: string, setup: Setup)
    requires code in Step(s, e, setup).codes && !(code in s.codes && Step(s, e, setup).codes[code] == s.codes[code])
    ensures e.Authorize? && e.code == code && code !in s.used
    ensures var stored := Step(s, e, setup).codes[code];
      GrantFor(e.request, e.signIn, setup) == Some(stored.grant) && stored.expiry == s.now + setup.codeTtl * 1_000_000
  {
    hide Token, GrantFor, RedeemedTtl, AcceptedResource;
  }

  /** Every stored code was stored by one sign-in, and dies a code's lifetime after it. */
  lemma {:induction false} StoredCodesAreDated(es: seq<Event>, code: string, setup: Setup) returns (a: nat)
    requires code in Run(es, setup).codes
    ensures StoredAt(es, a, code, Run(es, setup).codes[code], setup)
  {
    hide Step, GrantFor;
    var n := |es| - 1;
    var s := Run(es[..n], setup);
    if code in s.codes && Run(es, setup).codes[code] == s.codes[code] {
      a := StoredCodesAreDated(es[..n], code, setup);
      assert es[..n][..a] == es[..a];
    } else {
      StepStores(s, es[n], code, setup);
      a := n;
    }
  }

  lemma {:induction false} UsedStaysUsed(es: seq<Event>, i: nat, code: string, setup: Setup)
    requires i <= |es| && code in Run(es[..i], setup).used
    ensures code in Run(es, setup).used
  {
    hide Step;
    if i == |es| {
      assert es[..i] == es;
    } else {
      assert es[..|es| - 1][..i] == es[..i];
      UsedStaysUsed(es[..|es| - 1], i, code, setup);
      StepKeepsUsed(Run(es[..|es| - 1], setup), es[|es| - 1], setup);
    }
  }

  lemma StepKeepsUsed(s: State, e: Event, setup: Setup)
    ensures s.used <= Step(s, e, setup).used
  {
    hide Token, Redeem, GrantFor, AcceptedResource;
  }

  // A code is granted by one event only.
  lemma GrantedOnce(es: seq<Event>, a: nat, b: nat, code: string, g: Grant, h: Grant, setup: Setup)
    requires GrantedAt(es, a, code, g, setup) && GrantedAt(es, b, code, h, setup)
    ensures a == b
  {
    if a < b {
      SecondGrantImpossible(es, a, b, code, g, setup);
    } else if b < a {
      SecondGrantImpossible(es, b, a, code, h, setup);
    }
  }

  lemma SecondGrantImpossible(es: seq<Event>, a: nat, b: nat, code: string, g: Grant, setup: Setup)
    requires GrantedAt(es, a, code, g, setup) && a < b < |es|
    ensures code in Run(es[..b], setup).used
  {
    hide GrantFor;
    RunSplits(es, a, setup);
    assert code in Run(es[..a + 1], setup).used;
    hide Run;
    assert es[..b][..a + 1] == es[..a + 1];
    UsedStaysUsed(es[..b], a + 1, code, setup);
  }

  lemma {:induction false} TimePasses(es: seq<Event>, i: nat, setup: Setup)
    requires i <= |es|
    ensures Run(es[..i], setup).now <= Run(es, setup).now
  {
    hide Step;
    if i == |es| {
      assert es[..i] == es;
    } else {
      assert es[..|es| - 1][..i] == es[..i];
      TimePasses(es[..|es| - 1], i, setup);
      StepSources(Run(es[..|es| - 1], setup), es[|es| - 1], setup);
    }
  }

  ghost predicate WasRedeemed(es: seq<Event>, code: string, g: Grant, ttl: int, setup: Setup) {
    exists p :: RedeemedAt(es, p, code, g, ttl, setup)
  }

  ghost predicate LegitimateExchange(es: seq<Event>, x: Exchange, setup: Setup) {
    && Granted(es, x.code, x.grant, setup)
    && WasRedeemed(es, x.code, x.grant, x.ttl, setup)
    && x.ttl > 0
    && (x.Minted? ==>
          && x.token == Token(x.grant, x.ttl, x.iat, setup)
          && x.iat * MICROS_PER_SECOND <= Run(es, setup).now)
  }

  ghost predicate Legitimate(es: seq<Event>, setup: Setup) {
    var s := Run(es, setup);
    && (forall code :: code in s.codes ==> Granted(es, code, s.codes[code].grant, setup))
    && (forall t :: t in s.exchanges ==> LegitimateExchange(es, s.exchanges[t], setup))
  }

  lemma ProvenanceSurvives(es: seq<Event>, n: nat, setup: Setup)
    requires n <= |es|
    ensures forall code, g :: Granted(es[..n], code, g, setup) ==> Granted(es, code, g, setup)
    ensures forall code, g, ttl :: WasRedeemed(es[..n], code, g, ttl, setup) ==> WasRedeemed(es, code, g, ttl, setup)
  {
    hide Run, Step;
    forall a: nat, code, g | GrantedAt(es[..n], a, code, g, setup) ensures GrantedAt(es, a, code, g, setup) {
      assert es[..n][..a] == es[..a];
    }
    forall p: nat, code, g, ttl | RedeemedAt(es[..n], p, code, g, ttl, setup)
      ensures RedeemedAt(es, p, code, g, ttl, setup)
    {
      assert es[..n][..p] == es[..p];
    }
  }

  lemma RedeemedTtlIsPositive(g: Grant, r: Redemption, setup: Setup)
    requires setup.config.defaultTtl > 0
    ensures RedeemedTtl(g, r, setup).Some? ==> RedeemedTtl(g, r, setup).value > 0
  {
  }

  // What one event adds to the codes and the exchanges.
  lemma StepSources(s: State, e: Event, setup: Setup)
    ensures var after := Step(s, e, setup);
      && s.now <= after.now
      && (forall code :: code in after.codes ==>
            || (code in s.codes && after.codes[code] == s.codes[code])
            || (e.Authorize? && code == e.code && code !in s.used
                && GrantFor(e.request, e.signIn, setup) == Some(after.codes[code].grant)))
      && (forall t :: t in after.exchanges ==>
            || (t in s.exchanges && after.exchanges[t] == s.exchanges[t])
            || (e.Pop? && AcceptedResource(e.redemption.resource, setup)
                && Redeem(s, e.redemption, e.opens, setup) == Some(after.exchanges[t]))
            || (e.Mint? && t in s.exchanges && MintOf(s, s.exchanges[t], after.exchanges[t], setup)))
  {
    hide Token, GrantFor, RedeemedTtl, AcceptedResource;
  }

  ghost predicate MintOf(s: State, x: Exchange, y: Exchange, setup: Setup) {
    var iat := s.now / MICROS_PER_SECOND;
    x.Redeemed? && y == Minted(x.code, x.grant, x.ttl, iat, Token(x.grant, x.ttl, iat, setup))
  }

  lemma ExchangeStaysLegitimate(es: seq<Event>, x: Exchange, setup: Setup)
    requires es != [] && LegitimateExchange(es[..|es| - 1], x, setup)
    ensures LegitimateExchange(es, x, setup)
  {
    hide Step, Token;
    var n := |es| - 1;
    ProvenanceSurvives(es, n, setup);
    StepSources(Run(es[..n], setup), es[n], setup);
  }

  lemma NewExchangeIsLegitimate(es: seq<Event>, x: Exchange, setup: Setup)
    requires Sound(setup) && es != [] && Legitimate(es[..|es| - 1], setup)
    requires es[|es| - 1].Pop? && AcceptedResource(es[|es| - 1].redemption.resource, setup)
    requires Redeem(Run(es[..|es| - 1], setup), es[|es| - 1].redemption, es[|es| - 1].opens, setup) == Some(x)
    ensures LegitimateExchange(es, x, setup)
  {
    hide Step, Token, RedeemedTtl;
    var n := |es| - 1;
    ProvenanceSurvives(es, n, setup);
    RedeemedTtlIsPositive(x.grant, es[n].redemption, setup);
    assert RedeemedAt(es, n, x.code, x.grant, x.ttl, setup);
  }

  lemma MintedExchangeIsLegitimate(es: seq<Event>, x: Exchange, y: Exchange, setup: Setup)
    requires es != [] && LegitimateExchange(es[..|es| - 1], x, setup)
    requires MintOf(Run(es[..|es| - 1], setup), x, y, setup)
    ensures LegitimateExchange(es, y, setup)
  {
    hide Step, Token;
    var n := |es| - 1;
    ProvenanceSurvives(es, n, setup);
    StepSources(Run(es[..n], setup), es[n], setup);
  }

  lemma {:induction false} EveryExchangeIsLegitimate(es: seq<Event>, setup: Setup)
    requires Sound(setup)
    ensures Legitimate(es, setup)
  {
    if es != [] {
      hide Step, Granted, LegitimateExchange, Redeem, MintOf;
      var n := |es| - 1;
      var s, e := Run(es[..n], setup), es[n];
      EveryExchangeIsLegitimate(es[..n], setup);
      StepSources(s, e, setup);
      ProvenanceSurvives(es, n, setup);
      var after := Run(es, setup);
      forall code | code in after.codes ensures Granted(es, code, after.codes[code].grant, setup) {
        if !(code in s.codes && after.codes[code] == s.codes[code]) {
          GrantedNow(es, code, after.codes[code].grant, setup);
        }
      }
      forall t | t in after.exchanges ensures LegitimateExchange(es, after.exchanges[t], setup) {
        if t in s.exchanges && after.exchanges[t] == s.exchanges[t] {
          ExchangeStaysLegitimate(es, s.exchanges[t], setup);
        } else if e.Pop? {
          NewExchangeIsLegitimate(es, after.exchanges[t], setup);
        } else {
          MintedExchangeIsLegitimate(es, s.exchanges[t], after.exchanges[t], setup);
        }
      }
    }
  }

  lemma GrantedNow(es: seq<Event>, code: string, g: Grant, setup: Setup)
    requires es != [] && GrantedAt(es, |es| - 1, code, g, setup)
    ensures Granted(es, code, g, setup)
  {
  }

  // What a sign-in and a redemption may name as the resource: nothing, or this server.
  predicate NamesThisServer(resource: Option<string>, setup: Setup) {
    resource == None || resource == Some("") || resource == Some(setup.config.audience)
  }

  lemma AcceptedNamesThisServer(resource: Option<string>, setup: Setup)
    ensures AcceptedResource(resource, setup) <==> NamesThisServer(resource, setup)
  {
  }

  /**
   * A token is minted only from a code that a successful sign-in stored, redeemed before the code's
   * lifetime was over by the client and at the redirect it was bound to, with an S256 verifier of its
   * challenge.
   */
  lemma TokensAreBound(es: seq<Event>, i: nat, setup: Setup) returns (a: nat, p: nat)
    requires Sound(setup) && i < |es| && es[i].Mint?
    requires es[i].t in Run(es[..i], setup).exchanges && Run(es[..i], setup).exchanges[es[i].t].Redeemed?
    ensures var x := Run(es[..i], setup).exchanges[es[i].t];
      && a < p < i && es[a].Authorize? && es[p].Pop?
      && es[a].code == es[p].redemption.code == x.code
      && es[a].signIn.Some? && es[a].signIn.value.user == x.grant.user && es[a].signIn.value.company == x.grant.company
      && es[a].signIn.value.msToken == x.grant.msToken != ""
      && es[a].request.pkceMethod == "S256"
      && es[p].redemption.client == es[a].request.client
      && es[p].redemption.redirect == es[a].request.redirect
      && PkceS256(es[p].redemption.verifier, setup.crypto) == Some(es[a].request.challenge)
      && NamesThisServer(es[a].request.resource, setup) && NamesThisServer(es[p].redemption.resource, setup)
      && es[p].opens
      && Run(es[..a], setup).now <= Run(es[..p], setup).now < Run(es[..a], setup).now + setup.codeTtl * 1_000_000
  {
    hide Run, Step, GrantFor, RedeemedTtl, Token;
    EveryExchangeIsLegitimate(es[..i], setup);
    var x := Run(es[..i], setup).exchanges[es[i].t];
    assert LegitimateExchange(es[..i], x, setup);
    p :| RedeemedAt(es[..i], p, x.code, x.grant, x.ttl, setup);
    assert es[..i][..p] == es[..p];
    var b :| GrantedAt(es[..i], b, x.code, x.grant, setup);
    a := StoredCodesAreDated(es[..p], x.code, setup);
    assert es[..p][..a] == es[..a] == es[..i][..a];
    GrantedOnce(es[..i], a, b, x.code, Run(es[..p], setup).codes[x.code].grant, x.grant, setup);
    TimePasses(es[..p], a, setup);
    GrantFields(es[a].request, es[a].signIn, x.grant, setup);
    RedeemedFields(x.grant, es[p].redemption, setup);
  }

  lemma GrantFields(r: SignInRequest, signIn: Option<SignIn>, g: Grant, setup: Setup)
    requires GrantFor(r, signIn, setup) == Some(g)
    ensures signIn.Some? && g.user == signIn.value.user && g.company == signIn.value.company
    ensures g.msToken == signIn.value.msToken != "" && NamesThisServer(r.resource, setup)
    ensures r.pkceMethod == "S256" && g.client == r.client && g.redirect == r.redirect && g.challenge == r.challenge
  {
  }

  lemma RedeemedFields(g: Grant, r: Redemption, setup: Setup)
    requires RedeemedTtl(g, r, setup).Some?
    ensures r.client == g.client && r.redirect == g.redirect
    ensures PkceS256(r.verifier, setup.crypto) == Some(g.challenge)
  {
  }
}
