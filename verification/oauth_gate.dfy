/** The gate in front of the MCP server: who gets through, over whole runs of the OAuth server. */
module OAuthGate {
  import opened AccessToken
  import opened OAuthFlow
  import opened SessionKeys

  // What the gate sees of a request body; `tool` is missing when the call names none.
  datatype Rpc = NotAnObjectBody | Rpc(rpcMethod: string, tool: Option<string>)

  // What ms-auth says about a token of its own.
  datatype Principal = Principal(user: int, company: int)

  datatype Decision =
    | PassedThrough                          // no identity needed
    | Unauthorized
    | ServerError                            // an authentic token whose payload is not an object
    | ForwardedAs(user: int, company: int)

  predicate RequiresIdentity(rpc: Rpc, anonymous: set<string>) {
    rpc.Rpc? && rpc.rpcMethod == "tools/call" && (rpc.tool.None? || rpc.tool.value !in anonymous)
  }

  function LiveSession(s: State, token: string): Option<HubSession> {
    if token in s.sessions && s.now < s.sessions[token].expiry then Some(s.sessions[token]) else None
  }

  // A session whose secret no longer decrypts reads as none.
  function ReadSession(s: State, token: string, opens: bool): Option<HubSession> {
    if opens then LiveSession(s, token) else None
  }

  function Seconds(s: State): int {
    s.now / MICROS_PER_SECOND
  }

  /**
   * `opens` says whether the secret stored under a token still decrypts; `resolve` is ms-auth's answer
   * for the token kept in the session, if it accepts it.
   */
  function Gate(s: State, rpc: Rpc, bearer: Option<string>, anonymous: set<string>,
      opens: string -> bool, resolve: string -> Option<Principal>, setup: Setup): Decision
  {
    if rpc.NotAnObjectBody? then Unauthorized
    else if !RequiresIdentity(rpc, anonymous) then PassedThrough
    else if bearer.None? then Unauthorized
    else
      match DecodeToken(bearer.value, Seconds(s), setup.config, setup.crypto)
      case Rejected => Unauthorized
      case Crashed => ServerError
      case Claims(user, _) =>
        var document := ReadSession(s, bearer.value, opens(bearer.value));
        if document.None? then Unauthorized
        else
          var principal := resolve(document.value.msToken);
          if principal.None? || principal.value.user != user then Unauthorized
          else ForwardedAs(principal.value.user, principal.value.company)
  }

  // ---- Sessions and the saves they come from ----

  // Event `i` saves the session of exchange `x`.
  ghost predicate Saves(es: seq<Event>, i: nat, x: Exchange, setup: Setup) {
    && i < |es| && es[i].Save? && es[i].t in Run(es[..i], setup).exchanges
    && x == Run(es[..i], setup).exchanges[es[i].t] && x.Minted?
  }

  ghost predicate SavesToken(es: seq<Event>, i: nat, token: string, setup: Setup) {
    && i < |es| && es[i].Save? && es[i].t in Run(es[..i], setup).exchanges
    && Run(es[..i], setup).exchanges[es[i].t].Minted? && Run(es[..i], setup).exchanges[es[i].t].token == token
  }

  // The token was last saved by event `i`, from `x`, and not revoked since.
  ghost predicate Stands(es: seq<Event>, i: nat, x: Exchange, setup: Setup) {
    && Saves(es, i, x, setup)
    && forall j :: i < j < |es| ==> es[j] != Revoke(x.token) && !SavesToken(es, j, x.token, setup)
  }

  // Some save of the token stands.
  ghost predicate Kept(es: seq<Event>, token: string, setup: Setup) {
    exists i: nat, x :: Stands(es, i, x, setup) && x.Minted? && x.token == token
  }

  // The session of a token is that of any of its saves that stand.
  ghost predicate SessionIsLastSave(es: seq<Event>, token: string, setup: Setup) {
    forall i: nat, x :: Stands(es, i, x, setup) && x.token == token ==>
      token in Run(es, setup).sessions && Run(es, setup).sessions[token] == SessionFor(x, Run(es[..i], setup).now)
  }

  lemma StandingInPrefix(es: seq<Event>, i: nat, x: Exchange, setup: Setup)
    requires es != [] && i < |es| - 1 && x.Minted?
    ensures var n := |es| - 1;
      Stands(es, i, x, setup)
      <==> Stands(es[..n], i, x, setup) && es[n] != Revoke(x.token) && !SavesToken(es, n, x.token, setup)
  {
    hide Run, Step;
    var n := |es| - 1;
    forall j | 0 <= j < n ensures es[..n][..j] == es[..j] && es[..n][j] == es[j] {
    }
    forall j | i < j < n ensures SavesToken(es[..n], j, x.token, setup) <==> SavesToken(es, j, x.token, setup) {
    }
  }

  // Other events leave the session of a token alone.
  lemma StepOnSession(s: State, e: Event, token: string, setup: Setup)
    requires e.Save? ==> e.t !in s.exchanges || !s.exchanges[e.t].Minted? || s.exchanges[e.t].token != token
    requires e != Revoke(token)
    ensures var after := Step(s, e, setup);
      && (token in after.sessions <==> token in s.sessions)
      && (token in s.sessions ==> after.sessions[token] == s.sessions[token])
  {
    hide Token, Redeem, GrantFor, AcceptedResource, SessionFor;
  }

  lemma SaveOnSession(s: State, t: nat, setup: Setup)
    requires t in s.exchanges && s.exchanges[t].Minted?
    ensures var after, x := Step(s, Save(t), setup), s.exchanges[t];
      x.token in after.sessions && after.sessions[x.token] == SessionFor(x, s.now)
  {
  }

  /** A token has a session exactly when it was saved and not revoked since: the session of its last save. */
  lemma {:induction false} SessionsAreLastSaves(es: seq<Event>, token: string, setup: Setup)
    ensures token in Run(es, setup).sessions <==> Kept(es, token, setup)
    ensures SessionIsLastSave(es, token, setup)
  {
    if es != [] {
      hide Run, Step, SessionFor, Stands, Saves, SavesToken, Kept, SessionIsLastSave;
      SessionsAreLastSaves(es[..|es| - 1], token, setup);
      if es[|es| - 1] == Revoke(token) {
        SessionEndsAtRevoke(es, token, setup);
      } else if SavesToken(es, |es| - 1, token, setup) {
        SessionStartsAtSave(es, token, setup);
      } else {
        SessionStaysPut(es, token, setup);
      }
    }
  }

  lemma SessionEndsAtRevoke(es: seq<Event>, token: string, setup: Setup)
    requires es != [] && es[|es| - 1] == Revoke(token)
    ensures token !in Run(es, setup).sessions && !Kept(es, token, setup) && SessionIsLastSave(es, token, setup)
  {
    hide Run, Step, SessionFor, Stands, Saves, SavesToken;
    RunEnds(es, setup);
    RevokeEndsSession(Run(es[..|es| - 1], setup), token, setup);
    NoSaveStandsAfterRevoke(es, token, setup);
  }

  lemma SessionStartsAtSave(es: seq<Event>, token: string, setup: Setup)
    requires es != [] && SavesToken(es, |es| - 1, token, setup)
    ensures token in Run(es, setup).sessions && Kept(es, token, setup) && SessionIsLastSave(es, token, setup)
  {
    hide Run, Step, SessionFor, Stands, Saves;
    RunEnds(es, setup);
    SaveOnSession(Run(es[..|es| - 1], setup), es[|es| - 1].t, setup);
    OnlyTheLastSaveStands(es, token, setup);
  }

  lemma SessionStaysPut(es: seq<Event>, token: string, setup: Setup)
    requires es != [] && es[|es| - 1] != Revoke(token) && !SavesToken(es, |es| - 1, token, setup)
    requires token in Run(es[..|es| - 1], setup).sessions <==> Kept(es[..|es| - 1], token, setup)
    requires SessionIsLastSave(es[..|es| - 1], token, setup)
    ensures token in Run(es, setup).sessions <==> Kept(es, token, setup)
    ensures SessionIsLastSave(es, token, setup)
  {
    hide Run, Step, SessionFor, Stands, Saves;
    RunEnds(es, setup);
    StepOnSession(Run(es[..|es| - 1], setup), es[|es| - 1], token, setup);
    SameSavesStand(es, token, setup);
    if Kept(es[..|es| - 1], token, setup) {
      var i: nat, x :| Stands(es[..|es| - 1], i, x, setup) && x.Minted? && x.token == token;
      assert Stands(es, i, x, setup);
    }
  }

  lemma NoSaveStandsAfterRevoke(es: seq<Event>, token: string, setup: Setup)
    requires es != [] && es[|es| - 1] == Revoke(token)
    ensures forall i: nat, x :: Stands(es, i, x, setup) ==> x.token != token
  {
    hide Run;
  }

  lemma OnlyTheLastSaveStands(es: seq<Event>, token: string, setup: Setup)
    requires es != [] && SavesToken(es, |es| - 1, token, setup)
    ensures Stands(es, |es| - 1, Run(es[..|es| - 1], setup).exchanges[es[|es| - 1].t], setup)
    ensures forall i: nat, x :: Stands(es, i, x, setup) && x.token == token ==>
      i == |es| - 1 && x == Run(es[..|es| - 1], setup).exchanges[es[|es| - 1].t]
  {
    hide Run;
  }

  lemma SameSavesStand(es: seq<Event>, token: string, setup: Setup)
    requires es != [] && es[|es| - 1] != Revoke(token) && !SavesToken(es, |es| - 1, token, setup)
    ensures forall i: nat, x :: Stands(es, i, x, setup) && x.token == token ==>
      i < |es| - 1 && Stands(es[..|es| - 1], i, x, setup) && es[..|es| - 1][..i] == es[..i]
    ensures forall i: nat, x :: Stands(es[..|es| - 1], i, x, setup) && x.token == token ==>
      Stands(es, i, x, setup) && es[..|es| - 1][..i] == es[..i]
  {
    hide Run;
    var n := |es| - 1;
    forall i | 0 <= i < n ensures es[..n][..i] == es[..i] {
    }
    forall i: nat, x: Exchange | x.Minted? && x.token == token
      ensures Stands(es, i, x, setup) <==> i < n && Stands(es[..n], i, x, setup)
    {
      if i < n {
        StandingInPrefix(es, i, x, setup);
      }
    }
  }

  lemma RevokeEndsSession(s: State, token: string, setup: Setup)
    ensures token !in Step(s, Revoke(token), setup).sessions
  {
  }

  lemma RunEnds(es: seq<Event>, setup: Setup)
    requires es != []
    ensures Run(es, setup) == Step(Run(es[..|es| - 1], setup), es[|es| - 1], setup)
  {
  }

  // ---- Who gets through ----

  // A standing session was saved at or after its token's issue time.
  lemma SessionOutlivesToken(es: seq<Event>, i: nat, x: Exchange, setup: Setup)
    requires Sound(setup) && Stands(es, i, x, setup)
    ensures x.Minted? && x.ttl > 0 && x.token == Token(x.grant, x.ttl, x.iat, setup)
    ensures SessionFor(x, Run(es[..i], setup).now).expiry >= (x.iat + x.ttl) * MICROS_PER_SECOND
  {
    hide Run, Token;
    EveryExchangeIsLegitimate(es[..i], setup);
    assert LegitimateExchange(es[..i], x, setup);
  }

  /**
   * While a token is not revoked, its session key does not expire before the token does; together
   * with `StandingTokensPass`, signing in once is enough until then.
   */
  lemma UnrevokedSessionIsLive(es: seq<Event>, i: nat, x: Exchange, setup: Setup)
    requires Sound(setup) && Stands(es, i, x, setup)
    requires Seconds(Run(es, setup)) < x.iat + x.ttl
    ensures LiveSession(Run(es, setup), x.token) == Some(SessionFor(x, Run(es[..i], setup).now))
  {
    hide Run, Token, Stands;
    SessionOutlivesToken(es, i, x, setup);
    SessionsAreLastSaves(es, x.token, setup);
  }

  lemma TokenClaims(x: Exchange, now: int, setup: Setup)
    requires Sound(setup) && x.Minted? && x.ttl > 0 && x.token == Token(x.grant, x.ttl, x.iat, setup)
    ensures DecodeToken(x.token, now, setup.config, setup.crypto)
      == if now < x.iat + x.ttl && x.grant.user > 0 && x.grant.company > 0 then Claims(x.grant.user, x.grant.company)
         else Rejected
  {
    DecodeUndoesEncodeToken(x.grant.user, x.grant.company, Some(x.ttl), x.iat, now, setup.config, setup.crypto);
  }

  // The save behind a call that the gate forwards.
  ghost predicate Admits(es: seq<Event>, i: nat, x: Exchange, token: string, opens: string -> bool,
      resolve: string -> Option<Principal>, user: int, company: int, setup: Setup)
  {
    && Stands(es, i, x, setup) && x.token == token && opens(token)
    && Seconds(Run(es, setup)) < x.iat + x.ttl
    && x.grant.user > 0 && x.grant.company > 0
    && user == x.grant.user
    && resolve(x.grant.msToken) == Some(Principal(user, company))
  }

  lemma StandingTokensPass(es: seq<Event>, i: nat, x: Exchange, rpc: Rpc, token: string, anonymous: set<string>,
      opens: string -> bool, resolve: string -> Option<Principal>, user: int, company: int, setup: Setup)
    requires Sound(setup) && RequiresIdentity(rpc, anonymous)
    requires Admits(es, i, x, token, opens, resolve, user, company, setup)
    ensures Gate(Run(es, setup), rpc, Some(token), anonymous, opens, resolve, setup) == ForwardedAs(user, company)
  {
    hide Run, Token, DecodeToken;
    SessionOutlivesToken(es, i, x, setup);
    UnrevokedSessionIsLive(es, i, x, setup);
    TokenClaims(x, Seconds(Run(es, setup)), setup);
  }

  lemma ForwardedTokensStand(es: seq<Event>, rpc: Rpc, token: string, anonymous: set<string>,
      opens: string -> bool, resolve: string -> Option<Principal>, user: int, company: int, setup: Setup)
    returns (i: nat, x: Exchange)
    requires Sound(setup) && RequiresIdentity(rpc, anonymous)
    requires Gate(Run(es, setup), rpc, Some(token), anonymous, opens, resolve, setup) == ForwardedAs(user, company)
    ensures Admits(es, i, x, token, opens, resolve, user, company, setup)
  {
    hide Run, Token, DecodeToken;
    SessionsAreLastSaves(es, token, setup);
    i, x :| Stands(es, i, x, setup) && x.token == token;
    SessionOutlivesToken(es, i, x, setup);
    TokenClaims(x, Seconds(Run(es, setup)), setup);
  }

  /**
   * Over whole runs, the gate forwards a call that needs an identity, for a user, exactly when its
   * token was made by an exchange of a code granted to that user, saved and not revoked since its
   * last save, and not expired, its session's secret decrypts, and ms-auth still knows that user
   * behind the token it gave at sign-in.
   */
  lemma GateForwardsExactlyStandingTokens(es: seq<Event>, rpc: Rpc, token: string, anonymous: set<string>,
      opens: string -> bool, resolve: string -> Option<Principal>, user: int, company: int, setup: Setup)
    requires Sound(setup) && RequiresIdentity(rpc, anonymous)
    ensures Gate(Run(es, setup), rpc, Some(token), anonymous, opens, resolve, setup) == ForwardedAs(user, company)
      <==> exists i: nat, x :: Admits(es, i, x, token, opens, resolve, user, company, setup)
  {
    hide Run, Gate, Admits;
    if Gate(Run(es, setup), rpc, Some(token), anonymous, opens, resolve, setup) == ForwardedAs(user, company) {
      var i, x := ForwardedTokensStand(es, rpc, token, anonymous, opens, resolve, user, company, setup);
    }
    forall i: nat, x | Admits(es, i, x, token, opens, resolve, user, company, setup)
      ensures Gate(Run(es, setup), rpc, Some(token), anonymous, opens, resolve, setup) == ForwardedAs(user, company)
    {
      StandingTokensPass(es, i, x, rpc, token, anonymous, opens, resolve, user, company, setup);
    }
  }

  /** The user the gate binds is the one who signed in for the code behind the token. */
  lemma BoundUserSignedIn(es: seq<Event>, rpc: Rpc, token: string, anonymous: set<string>,
      opens: string -> bool, resolve: string -> Option<Principal>, user: int, company: int, setup: Setup)
    returns (a: nat)
    requires Sound(setup) && RequiresIdentity(rpc, anonymous)
    requires Gate(Run(es, setup), rpc, Some(token), anonymous, opens, resolve, setup) == ForwardedAs(user, company)
    ensures a < |es| && es[a].Authorize? && es[a].signIn.Some? && es[a].signIn.value.user == user
  {
    hide Run, Gate, GrantFor;
    var i, x := ForwardedTokensStand(es, rpc, token, anonymous, opens, resolve, user, company, setup);
    EveryExchangeIsLegitimate(es[..i], setup);
    assert LegitimateExchange(es[..i], x, setup);
    a :| GrantedAt(es[..i], a, x.code, x.grant, setup);
    GrantFields(es[a].request, es[a].signIn, x.grant, setup);
  }

  /**
   * With any token or none, just the calls that need no identity pass without one; without a token no
   * other call is forwarded.
   */
  lemma CallsWithoutTokenAreRefused(s: State, rpc: Rpc, bearer: Option<string>, anonymous: set<string>,
      opens: string -> bool, resolve: string -> Option<Principal>, setup: Setup)
    ensures Gate(s, rpc, bearer, anonymous, opens, resolve, setup) == PassedThrough
      <==> rpc.Rpc? && (rpc.rpcMethod == "tools/call" ==> rpc.tool.Some? && rpc.tool.value in anonymous)
    ensures rpc.NotAnObjectBody? ==> Gate(s, rpc, bearer, anonymous, opens, resolve, setup) == Unauthorized
    ensures !Gate(s, rpc, None, anonymous, opens, resolve, setup).ForwardedAs?
    ensures Gate(s, rpc, bearer, anonymous, opens, resolve, setup) == ServerError
      <==> && rpc.Rpc? && rpc.rpcMethod == "tools/call" && (rpc.tool.None? || rpc.tool.value !in anonymous)
           && bearer.Some? && DecodeToken(bearer.value, s.now / 1_000_000, setup.config, setup.crypto).Crashed?
  {
  }
}
