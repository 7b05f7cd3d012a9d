/** The OAuth service and the gate as they run: stores updated in place, one call after another. */
module OAuthServer {
  import opened AccessToken
  import opened Base64Url
  import opened OAuthFlow
  import opened OAuthGate
  import opened SessionKeys

  // The whole exchange of one call that nothing interrupts.
  function Exchanged(s: State, r: Redemption, opens: bool, setup: Setup): State {
    Step(Step(Step(s, Pop(0, r, opens), setup), Mint(0), setup), Save(0), setup)
  }

  datatype Response = Response(token: string, ttl: int)

  // What the client of such an exchange is told.
  function Answer(s: State, r: Redemption, opens: bool, setup: Setup): Option<Response> {
    if !AcceptedResource(r.resource, setup) then None else
    var x := Redeem(s, r, opens, setup);
    if x.None? then None
    else Some(Response(Token(x.value.grant, x.value.ttl, Seconds(s), setup), x.value.ttl))
  }

  lemma ExchangeSaves(s: State, r: Redemption, opens: bool, setup: Setup)
    requires s.exchanges == map[] && Answer(s, r, opens, setup).Some?
    ensures var x := Redeem(s, r, opens, setup).value;
      var token := Answer(s, r, opens, setup).value.token;
      Exchanged(s, r, opens, setup)
      == s.(codes := s.codes - {r.code},
            sessions := s.sessions[token := SessionFor(Minted(x.code, x.grant, x.ttl, Seconds(s), token), s.now)])
  {
    hide Token, RedeemedTtl, LiveCode;
    var x := Redeem(s, r, opens, setup).value;
    var popped := Step(s, Pop(0, r, opens), setup);
    assert popped == s.(codes := s.codes - {r.code}, exchanges := map[0 := x]);
    var minted := Step(popped, Mint(0), setup);
    var token := Token(x.grant, x.ttl, Seconds(s), setup);
    assert minted.exchanges == map[0 := Minted(x.code, x.grant, x.ttl, Seconds(s), token)];
    assert minted.exchanges - {0} == map[];
  }

  lemma RefusedExchangeSavesNothing(s: State, r: Redemption, opens: bool, setup: Setup)
    requires s.exchanges == map[] && Answer(s, r, opens, setup).None?
    ensures Exchanged(s, r, opens, setup)
      == if AcceptedResource(r.resource, setup) then s.(codes := s.codes - {r.code}) else s
  {
    hide Token, RedeemedTtl, LiveCode, AcceptedResource;
  }

  predicate IsPositive(lifetime: Option<int>) {
    lifetime.Some? && lifetime.value > 0
  }

  predicate NonePositive(lifetimes: seq<Option<int>>) {
    forall k :: 0 <= k < |lifetimes| ==> !IsPositive(lifetimes[k])
  }

  // The first positive lifetime, or the default when none is.
  ghost predicate IsFirstLifetime(lifetimes: seq<Option<int>>, ttl: int, setup: Setup) {
    && (forall k :: 0 <= k < |lifetimes| && IsPositive(lifetimes[k]) && NonePositive(lifetimes[..k]) ==>
          ttl == lifetimes[k].value)
    && (NonePositive(lifetimes) ==> ttl == setup.config.defaultTtl)
  }

  class Server {
    const setup: Setup
    var now: nat
    ghost var used: set<string>
    // The Redis keys of codes and of hub-token sessions.
    var codes: map<string, StoredCode>
    var sessions: map<string, HubSession>

    ghost function Contents(): State
      reads this
    {
      State(now, used, codes, sessions, map[])
    }

    constructor (settings: Setup)
      ensures setup == settings && Contents() == INITIAL
    {
      setup := settings;
      now, used, codes, sessions := 0, {}, map[], map[];
    }

    method SaveCode(code: string, g: Grant)
      modifies `codes
      ensures codes == old(codes)[code := StoredCode(g, now + setup.codeTtl * MICROS_PER_SECOND)]
    {
      codes := codes[code := StoredCode(g, now + setup.codeTtl * MICROS_PER_SECOND)];
    }

    /** One access: whoever reads the code is the last to. */
    method PopCode(code: string) returns (g: Option<Grant>)
      modifies `codes
      ensures g == if code in old(codes) && now < old(codes)[code].expiry then Some(old(codes)[code].grant) else None
      ensures codes == old(codes) - {code}
    {
      g := None;
      if code in codes && now < codes[code].expiry {
        g := Some(codes[code].grant);
      }
      codes := codes - {code};
    }

    method SaveSession(token: string, g: Grant, ttl: int)
      modifies `sessions
      ensures sessions
        == old(sessions)[token := HubSession(g.user, g.company, g.msToken, now + ttl * MICROS_PER_SECOND)]
    {
      sessions := sessions[token := HubSession(g.user, g.company, g.msToken, now + ttl * MICROS_PER_SECOND)];
    }

    /** `opens` says whether the stored secret decrypts. */
    method GetSession(token: string, opens: bool) returns (document: Option<HubSession>)
      ensures document
        == if token in sessions && now < sessions[token].expiry && opens then Some(sessions[token]) else None
    {
      if token in sessions && now < sessions[token].expiry && opens {
        return Some(sessions[token]);
      }
      return None;
    }

    method DeleteSession(token: string)
      modifies `sessions
      ensures sessions == old(sessions) - {token}
    {
      sessions := sessions - {token};
    }

    method ValidateParameters(request: SignInRequest) returns (accepted: bool)
      ensures accepted <==>
        && request.pkceMethod == "S256"
        && (request.client == setup.clientId || request.client == "https://chatgpt.com/oauth/client.json"
            || Matches(request.client, "https://chatgpt.com/oauth/", "/client.json"))
        && (request.redirect == "https://chatgpt.com/connector_platform_oauth_redirect"
            || Matches(request.redirect, "https://chatgpt.com/connector/oauth/", "")
            || setup.localRedirect(request.redirect))
        && NamesThisServer(request.resource, setup)
    {
      if request.pkceMethod != "S256" {
        return false;
      }
      if request.client != setup.clientId && request.client != "https://chatgpt.com/oauth/client.json"
        && !Matches(request.client, "https://chatgpt.com/oauth/", "/client.json") {
        return false;
      }
      if request.redirect != "https://chatgpt.com/connector_platform_oauth_redirect"
        && !Matches(request.redirect, "https://chatgpt.com/connector/oauth/", "")
        && !setup.localRedirect(request.redirect) {
        return false;
      }
      return request.resource.None? || request.resource.value == "" || request.resource.value == setup.config.audience;
    }

    /** `code` is the secret drawn for this sign-in, never drawn before. */
    method Authorize(code: string, request: SignInRequest, signIn: Option<SignIn>) returns (ok: bool)
      requires code !in used
      modifies `codes, `used
      ensures Contents() == Step(old(Contents()), Event.Authorize(code, request, signIn), setup)
      ensures ok <==> GrantFor(request, signIn, setup).Some?
      ensures ok ==> signIn.Some? && code in codes && codes == old(codes)[code := codes[code]]
      ensures ok ==>
        && codes[code].expiry == now + setup.codeTtl * 1_000_000
        && codes[code].grant == Grant(signIn.value.user, signIn.value.company, signIn.value.msToken,
             codes[code].grant.expiresIn, request.client, request.redirect, request.challenge, "S256")
        && IsFirstLifetime(signIn.value.lifetimes, codes[code].grant.expiresIn, setup)
      ensures !ok ==> codes == old(codes)
    {
      var accepted := ValidateParameters(request);
      if !accepted {
        return false;
      }
      if signIn.None? || signIn.value.msToken == "" {
        return false;
      }
      var who := signIn.value;
      var expiresIn := FindLifetime(who.lifetimes);
      SaveCode(code, Grant(who.user, who.company, who.msToken, expiresIn,
        request.client, request.redirect, request.challenge, request.pkceMethod));
      used := used + {code};
      return true;
    }

    /** The first positive lifetime of the login answer, or the default. */
    method FindLifetime(lifetimes: seq<Option<int>>) returns (ttl: int)
      ensures ttl == FirstLifetime(lifetimes, setup)
      ensures IsFirstLifetime(lifetimes, ttl, setup)
    {
      for i := 0 to |lifetimes|
        invariant NonePositive(lifetimes[..i])
        invariant FirstLifetime(lifetimes, setup) == FirstLifetime(lifetimes[i..], setup)
      {
        if lifetimes[i].Some? && lifetimes[i].value > 0 {
          assert forall k :: 0 <= k < i ==> lifetimes[..i][k] == lifetimes[k];
          assert forall k :: i < k < |lifetimes| ==> lifetimes[..k][i] == lifetimes[i];
          return lifetimes[i].value;
        }
      }
      assert lifetimes[..|lifetimes|] == lifetimes;
      return setup.config.defaultTtl;
    }

    method Exchange(r: Redemption, opens: bool) returns (response: Option<Response>)
      modifies `codes, `sessions
      ensures Contents() == Exchanged(old(Contents()), r, opens, setup)
      ensures response == Answer(old(Contents()), r, opens, setup)
      ensures response.Some? <==>
        && NamesThisServer(r.resource, setup) && opens
        && r.code in old(codes) && now < old(codes)[r.code].expiry
        && var g := old(codes)[r.code].grant;
           && g.client == r.client && g.redirect == r.redirect && g.msToken != ""
           && g.pkceMethod == "S256" && PkceS256(r.verifier, setup.crypto) == Some(g.challenge)
      ensures response.Some? ==>
        var g := old(codes)[r.code].grant;
        && response.value.ttl == (if g.expiresIn > 0 then g.expiresIn else setup.config.defaultTtl)
        && sessions == old(sessions)[response.value.token
             := HubSession(g.user, g.company, g.msToken, now + response.value.ttl * 1_000_000)]
      ensures codes == if NamesThisServer(r.resource, setup) then old(codes) - {r.code} else old(codes)
      ensures response.None? ==> sessions == old(sessions)
    {
      hide Token, PkceS256, AcceptedResource, Exchanged, Step;
      ghost var s := Contents();
      AcceptedNamesThisServer(r.resource, setup);
      if Answer(s, r, opens, setup).Some? {
        ExchangeSaves(s, r, opens, setup);
      } else {
        RefusedExchangeSavesNothing(s, r, opens, setup);
      }
      if !AcceptedResource(r.resource, setup) {
        return None;
      }
      var document := PopCode(r.code);
      if document.None? || !opens {
        return None;
      }
      var g := document.value;
      if g.client != r.client || g.redirect != r.redirect {
        return None;
      }
      var challenge := PkceS256(r.verifier, setup.crypto);
      if challenge.None? || g.pkceMethod != "S256" || challenge.value != g.challenge || g.msToken == "" {
        return None;
      }
      var ttl := if g.expiresIn > 0 then g.expiresIn else setup.config.defaultTtl;
      var token := Token(g, ttl, now / MICROS_PER_SECOND, setup);
      SaveSession(token, g, ttl);
      return Some(Response(token, ttl));
    }

    method RevokeToken(token: string)
      modifies `sessions
      ensures Contents() == Step(old(Contents()), Revoke(token), setup)
    {
      DeleteSession(token);
    }

    method Admit(rpc: Rpc, bearer: Option<string>, anonymous: set<string>,
        opens: string -> bool, resolve: string -> Option<Principal>)
      returns (decision: Decision)
      ensures decision == Gate(Contents(), rpc, bearer, anonymous, opens, resolve, setup)
    {
      hide DecodeToken;
      if rpc.NotAnObjectBody? {
        return Unauthorized;
      }
      if !RequiresIdentity(rpc, anonymous) {
        return PassedThrough;
      }
      if bearer.None? {
        return Unauthorized;
      }
      var claims := DecodeToken(bearer.value, now / MICROS_PER_SECOND, setup.config, setup.crypto);
      if claims.Rejected? {
        return Unauthorized;
      }
      if claims.Crashed? {
        return ServerError;
      }
      var document := GetSession(bearer.value, opens(bearer.value));
      if document.None? {
        return Unauthorized;
      }
      var principal := resolve(document.value.msToken);
      if principal.None? || principal.value.user != claims.user {
        return Unauthorized;
      }
      return ForwardedAs(principal.value.user, principal.value.company);
    }
  }

  // ---- From signing in to calling a tool ----

  ghost predicate MatchingRedemption(request: SignInRequest, r: Redemption, setup: Setup) {
    && r.client == request.client && r.redirect == request.redirect
    && AcceptedResource(r.resource, setup)
    && PkceS256(r.verifier, setup.crypto) == Some(request.challenge)
  }

  /**
   * Whatever happened before, a sign-in redeemed by its own client and verifier yields a token exactly
   * until its code's lifetime is over.
   */
  lemma SignInYieldsToken(s: State, code: string, request: SignInRequest, who: SignIn, delay: nat,
      r: Redemption, setup: Setup)
    requires Sound(setup) && code !in s.used && GrantFor(request, Some(who), setup).Some?
    requires r.code == code && MatchingRedemption(request, r, setup)
    ensures var g := GrantFor(request, Some(who), setup).value;
      var signedIn := Step(Step(s, Authorize(code, request, Some(who)), setup), Wait(delay), setup);
      && g.expiresIn > 0
      && Redeem(signedIn, r, true, setup)
         == (if delay < setup.codeTtl * 1_000_000 then Some(Redeemed(code, g, g.expiresIn)) else None)
      && Answer(signedIn, r, true, setup).Some? == (delay < setup.codeTtl * 1_000_000)
  {
    hide PkceS256, AcceptedClient, AcceptedRedirect, AcceptedResource;
    LifetimeIsPositive(who.lifetimes, setup);
  }

  lemma {:induction false} LifetimeIsPositive(lifetimes: seq<Option<int>>, setup: Setup)
    requires setup.config.defaultTtl > 0
    ensures FirstLifetime(lifetimes, setup) > 0
  {
    if lifetimes != [] {
      LifetimeIsPositive(lifetimes[1..], setup);
    }
  }

  /**
   * The token of an exchange lets its user through the gate until the second it expires, as long as
   * ms-auth still knows that user; from that second on it lets nobody through.
   */
  lemma TokenWorksUntilItExpires(s: State, r: Redemption, later: nat, rpc: Rpc, anonymous: set<string>,
      opens: string -> bool, resolve: string -> Option<Principal>, company: int, setup: Setup)
    requires Sound(setup) && s.exchanges == map[] && RequiresIdentity(rpc, anonymous)
    requires Answer(s, r, true, setup).Some? && Answer(s, r, true, setup).value.ttl > 0
    requires opens(Answer(s, r, true, setup).value.token)
    requires var g := Redeem(s, r, true, setup).value.grant;
      g.user > 0 && g.company > 0 && resolve(g.msToken) == Some(Principal(g.user, company))
    ensures var answer := Answer(s, r, true, setup).value;
      var after := Step(Exchanged(s, r, true, setup), Wait(later), setup);
      Gate(after, rpc, Some(answer.token), anonymous, opens, resolve, setup)
      == if Seconds(after) < Seconds(s) + answer.ttl
         then ForwardedAs(Redeem(s, r, true, setup).value.grant.user, company)
         else Unauthorized
  {
    hide Exchanged, Token, Redeem, DecodeToken, AcceptedResource;
    ExchangeSaves(s, r, true, setup);
    var x := Redeem(s, r, true, setup).value;
    var token := Answer(s, r, true, setup).value.token;
    TokenClaims(Minted(x.code, x.grant, x.ttl, Seconds(s), token), (s.now + later) / MICROS_PER_SECOND, setup);
  }

  // ---- Reading a request body ----

  const MAX_BODY_BYTES := 1_048_576

  datatype BodyMessage = Chunk(bytes: seq<Byte>, more: bool) | Disconnect

  predicate Continues(m: BodyMessage) {
    m.Chunk? && m.more
  }

  // How many messages the body takes.
  function BodyEnd(messages: seq<BodyMessage>): nat {
    if messages == [] then 0
    else if Continues(messages[0]) then 1 + BodyEnd(messages[1..])
    else 1
  }

  function BodyOf(messages: seq<BodyMessage>): seq<Byte> {
    if messages == [] || messages[0].Disconnect? then []
    else messages[0].bytes + if messages[0].more then BodyOf(messages[1..]) else []
  }

  // Message `k` is the last of the body.
  ghost predicate EndsAt(messages: seq<BodyMessage>, k: nat) {
    k < |messages| && !Continues(messages[k]) && forall j :: 0 <= j < k ==> Continues(messages[j])
  }

  /** The body takes the messages up to the first that says there is no more. */
  lemma {:induction false} BodyEndsAt(messages: seq<BodyMessage>, k: nat)
    requires EndsAt(messages, k)
    ensures BodyEnd(messages) == k + 1
  {
    if k > 0 {
      assert Continues(messages[0]) && messages[1..][k - 1] == messages[k];
      assert forall j :: 0 < j < k ==> messages[1..][j - 1] == messages[j];
      BodyEndsAt(messages[1..], k - 1);
    }
  }

  // Where the bytes of message `k` start.
  function Offset(messages: seq<BodyMessage>, k: nat): nat
    requires k <= |messages|
  {
    if k == 0 then 0 else Offset(messages, k - 1) + if messages[k - 1].Chunk? then |messages[k - 1].bytes| else 0
  }

  lemma {:induction false} OffsetOfRest(messages: seq<BodyMessage>, k: nat)
    requires 0 < k <= |messages| && messages[0].Chunk?
    ensures Offset(messages, k) == |messages[0].bytes| + Offset(messages[1..], k - 1)
  {
    assert Offset(messages, 1) == Offset(messages, 0) + |messages[0].bytes|;
    if k > 1 {
      OffsetOfRest(messages, k - 1);
    }
  }

  /** Every byte of the body is at its place: message after message, each message's bytes in order. */
  lemma {:induction false} BodyIsWhole(messages: seq<BodyMessage>, last: nat, k: nat, i: nat)
    requires EndsAt(messages, last) && k <= last && messages[k].Chunk? && i < |messages[k].bytes|
    ensures |BodyOf(messages)| == Offset(messages, last + 1)
    ensures Offset(messages, k) + i < |BodyOf(messages)|
    ensures BodyOf(messages)[Offset(messages, k) + i] == messages[k].bytes[i]
    decreases last
  {
    if last == 0 {
      assert Offset(messages, 1) == Offset(messages, 0) + |messages[0].bytes|;
    } else {
      assert Continues(messages[0]);
      var rest := messages[1..];
      assert rest[last - 1] == messages[last] && forall j :: 0 < j < last ==> rest[j - 1] == messages[j];
      OffsetOfRest(messages, last + 1);
      BodyLength(rest, last - 1);
      if k > 0 {
        OffsetOfRest(messages, k);
        BodyIsWhole(rest, last - 1, k - 1, i);
      }
    }
  }

  lemma {:induction false} BodyLength(messages: seq<BodyMessage>, last: nat)
    requires EndsAt(messages, last)
    ensures |BodyOf(messages)| == Offset(messages, last + 1)
    decreases last
  {
    if last == 0 {
      assert Offset(messages, 1) == if messages[0].Chunk? then |messages[0].bytes| else 0;
    } else {
      assert Continues(messages[0]);
      var rest := messages[1..];
      assert rest[last - 1] == messages[last] && forall j :: 0 < j < last ==> rest[j - 1] == messages[j];
      OffsetOfRest(messages, last + 1);
      BodyLength(rest, last - 1);
    }
  }

  // The body ends: the connection does not stay silent for ever.
  ghost predicate Ends(messages: seq<BodyMessage>) {
    exists i :: 0 <= i < |messages| && !Continues(messages[i])
  }

  method DrainBody(messages: seq<BodyMessage>, start: nat) returns (consumed: nat)
    requires start <= |messages| && Ends(messages[start..])
    ensures consumed == start + BodyEnd(messages[start..])
  {
    consumed := start;
    var more := true;
    while more
      invariant start <= consumed <= |messages|
      invariant more ==> Ends(messages[consumed..])
      invariant start + BodyEnd(messages[start..]) == consumed + if more then BodyEnd(messages[consumed..]) else 0
      decreases |messages| - consumed
    {
      var message := messages[consumed];
      EndsLater(messages[consumed..]);
      assert messages[consumed..][1..] == messages[consumed + 1..];
      more := message.Chunk? && message.more;
      consumed := consumed + 1;
    }
  }

  lemma EndsLater(messages: seq<BodyMessage>)
    requires Ends(messages)
    ensures messages != [] && (Continues(messages[0]) ==> Ends(messages[1..]))
  {
    var i :| 0 <= i < |messages| && !Continues(messages[i]);
    if Continues(messages[0]) {
      assert !Continues(messages[1..][i - 1]);
    }
  }

  method BufferBody(messages: seq<BodyMessage>) returns (body: Option<seq<Byte>>, consumed: nat)
    requires Ends(messages)
    ensures consumed == BodyEnd(messages)
    ensures body == if |BodyOf(messages)| <= MAX_BODY_BYTES then Some(BodyOf(messages)) else None
  {
    var chunks: seq<Byte> := [];
    var more := true;
    consumed := 0;
    assert messages[0..] == messages;
    while more
      invariant consumed <= |messages|
      invariant more ==> Ends(messages[consumed..])
      invariant BodyEnd(messages) == consumed + if more then BodyEnd(messages[consumed..]) else 0
      invariant more ==> BodyOf(messages) == chunks + BodyOf(messages[consumed..])
      invariant !more ==> BodyOf(messages) == chunks
      invariant |chunks| <= MAX_BODY_BYTES
      decreases |messages| - consumed
    {
      var message := messages[consumed];
      BodyStep(messages[consumed..], chunks);
      assert messages[consumed..][1..] == messages[consumed + 1..];
      consumed := consumed + 1;
      if message.Disconnect? {
        return Some(chunks), consumed;
      }
      if |chunks| + |message.bytes| > MAX_BODY_BYTES {
        if message.more {
          consumed := DrainBody(messages, consumed);
        }
        return None, consumed;
      }
      chunks := chunks + message.bytes;
      more := message.more;
    }
    return Some(chunks), consumed;
  }

  lemma BodyStep(messages: seq<BodyMessage>, chunks: seq<Byte>)
    requires Ends(messages)
    ensures messages != [] && (Continues(messages[0]) ==> Ends(messages[1..]))
    ensures messages[0].Disconnect? ==> chunks + BodyOf(messages) == chunks
    ensures messages[0].Chunk? ==>
      chunks + BodyOf(messages)
      == if messages[0].more then chunks + messages[0].bytes + BodyOf(messages[1..]) else chunks + messages[0].bytes
  {
    EndsLater(messages);
  }

  /**
   * A body is accepted exactly when neither its declared nor its real length is over the limit, and
   * then it is what was sent, whole; accepted or not, all of it is consumed and nothing after it.
   */
  method ReadBody(declared: Option<int>, messages: seq<BodyMessage>) returns (body: Option<seq<Byte>>, consumed: nat)
    requires Ends(messages)
    ensures consumed == BodyEnd(messages)
    ensures body == if (declared.None? || declared.value <= MAX_BODY_BYTES) && |BodyOf(messages)| <= MAX_BODY_BYTES
                    then Some(BodyOf(messages)) else None
  {
    if declared.Some? && declared.value > MAX_BODY_BYTES {
      assert messages[0..] == messages;
      consumed := DrainBody(messages, 0);
      return None, consumed;
    }
    body, consumed := BufferBody(messages);
  }
}
