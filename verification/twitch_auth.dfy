/**
 * The Twitch authentication module: collects the scopes other modules
 * require, remembers where the web server listens, builds the OAuth link
 * and redirect URI, and holds the current token with the scopes it grants.
 */
module TwitchAuthModule {
  import opened Wrappers
  import opened Strings
  import opened Numbers
  import opened UriEncoding
  import opened Settings
  import opened Messages
  import ModuleBase

  const Name: string := "Twitch Authentication"
  const AuthPath: string := "/twitch/auth"
  const AuthorizeEndpoint: string := "https://id.twitch.tv/oauth2/authorize"
  const LinkName: string := "Link"
  const RequiredScopesName: string := "Required scopes"
  const AvailableScopesName: string := "Available scopes"

  datatype TwitchAuth = TwitchAuth(
    requiredScopes: seq<string>,
    availableScopes: seq<string>,
    serverInfo: Option<ServerInfo>,
    token: string,
    clientId: string)   // the TWITCH_CLIENT_ID environment value, "" when unset

  type TwitchAuthModule = ModuleBase.Module<TwitchAuth>

  predicate NoDuplicates(xs: seq<string>)
  {
    forall i, j :: 0 <= i < j < |xs| ==> xs[i] != xs[j]
  }

  /** A new module: required, no scope, no server information, an empty token. */
  function New(clientId: string): (m: TwitchAuthModule)
    ensures m.base.name == Name && m.base.required && m.base.enabled
    ensures m.state == TwitchAuth([], [], None, "", clientId)
  {
    ModuleBase.Module(ModuleBase.New(Name, true), TwitchAuth([], [], None, "", clientId))
  }

  /** The topics the constructor subscribes to, in order. */
  function Subscriptions(): (ts: seq<Topic>)
    ensures forall t :: t in ts <==> t == TwRequireScope || t == WsInfo
    ensures |ts| == 2 && ts[0] != ts[1]
  {
    [TwRequireScope, WsInfo]
  }

  /**
   * The `tw_require_scope` listener: the scope is appended unless already
   * required, so the list stays duplicate-free and keeps its order.
   */
  function OnRequireScope(m: TwitchAuthModule, scope: string): (m': TwitchAuthModule)
    ensures m'.base == m.base
    ensures scope in m.state.requiredScopes ==> m'.state == m.state
    ensures scope !in m.state.requiredScopes ==>
      m'.state == m.state.(requiredScopes := m.state.requiredScopes + [scope])
    ensures NoDuplicates(m.state.requiredScopes) ==> NoDuplicates(m'.state.requiredScopes)
  {
    if scope in m.state.requiredScopes then m
    else m.(state := m.state.(requiredScopes := m.state.requiredScopes + [scope]))
  }

  /** The scopes after handling a sequence of requests in order. */
  function RequireAll(m: TwitchAuthModule, requests: seq<string>): TwitchAuthModule
    decreases |requests|
  {
    if |requests| == 0 then m else RequireAll(OnRequireScope(m, requests[0]), requests[1..])
  }

  /**
   * Whatever the requests, the required scopes stay duplicate-free, keep
   * the earlier scopes as a prefix, and hold exactly the earlier scopes and
   * the requested ones.
   */
  lemma {:induction false} RequireAllKeepsScopesDistinct(m: TwitchAuthModule, requests: seq<string>)
    requires NoDuplicates(m.state.requiredScopes)
    ensures var s := RequireAll(m, requests).state.requiredScopes;
      && NoDuplicates(s)
      && m.state.requiredScopes <= s
      && (forall x :: x in s <==> x in m.state.requiredScopes || x in requests)
    decreases |requests|
  {
    if |requests| > 0 {
      var m1 := OnRequireScope(m, requests[0]);
      RequireAllKeepsScopesDistinct(m1, requests[1..]);
      assert forall x :: x in requests <==> x == requests[0] || x in requests[1..];
    }
  }

  /** The `ws_info` listener: the server information is replaced. */
  function OnServerInfo(m: TwitchAuthModule, info: ServerInfo): (m': TwitchAuthModule)
    ensures m'.base == m.base
    ensures m'.state == m.state.(serverInfo := Some(info))
  {
    m.(state := m.state.(serverInfo := Some(info)))
  }

  /** `<uri>:<port>/twitch/auth`, or "" before the web server has published its information. */
  function RedirectURI(a: TwitchAuth): (s: string)
    ensures a.serverInfo.None? <==> s == ""
    ensures a.serverInfo.Some? ==>
      s == a.serverInfo.value.uri + ":" + ToString(a.serverInfo.value.port) + AuthPath
  {
    match a.serverInfo
    case None => ""
    case Some(info) => info.uri + ":" + ToString(info.port) + AuthPath
  }

  /** The authorization link the user follows, or "" before the web server has published its information. */
  function GetLink(a: TwitchAuth): (s: string)
    ensures a.serverInfo.None? <==> s == ""
    ensures a.serverInfo.Some? ==> AuthorizeEndpoint <= s
  {
    if a.serverInfo.None? then ""
    else
      var query := "?response_type=code&client_id=" + a.clientId
        + "&redirect_uri=" + RedirectURI(a)
        + "&scope=" + EncodeURIComponent(Join(a.requiredScopes, ','));
      assert (AuthorizeEndpoint + query)[..|AuthorizeEndpoint|] == AuthorizeEndpoint;
      AuthorizeEndpoint + query
  }

  /**
   * No shared setting (the module is required), then the link and the two
   * scope lists, which read back unchanged when non-empty and comma-free.
   */
  function GetSettings(m: TwitchAuthModule): (ss: seq<Setting>)
    ensures |ss| == |ModuleBase.GetSettings(m.base)| + 3
    ensures ss[..|ss| - 3] == ModuleBase.GetSettings(m.base)
    ensures ss[|ss| - 3] == LinkSetting(LinkName, GetLink(m.state))
    ensures ss[|ss| - 2].name == RequiredScopesName && ss[|ss| - 2].kind == Tags
    ensures ss[|ss| - 1].name == AvailableScopesName && ss[|ss| - 1].kind == Tags
    ensures |m.state.requiredScopes| > 0 && NoSeparator(m.state.requiredScopes, TagSeparator) ==>
      AsTags(ss[|ss| - 2]) == m.state.requiredScopes
    ensures |m.state.availableScopes| > 0 && NoSeparator(m.state.availableScopes, TagSeparator) ==>
      AsTags(ss[|ss| - 1]) == m.state.availableScopes
  {
    ModuleBase.GetSettings(m.base) + [
      LinkSetting(LinkName, GetLink(m.state)),
      TagsSetting(RequiredScopesName, m.state.requiredScopes),
      TagsSetting(AvailableScopesName, m.state.availableScopes)]
  }

  /** Only the shared settings apply: the reported link and scope lists are read-only. */
  function SetSettings(m: TwitchAuthModule, ss: seq<Setting>): (m': TwitchAuthModule)
    ensures m'.base == ModuleBase.SetSettings(m.base, ss)
    ensures m'.state == m.state
  {
    m.(base := ModuleBase.SetSettings(m.base, ss))
  }

  /** Imports a record: token and available scopes are taken from it when present, kept otherwise. */
  function FromData(m: TwitchAuthModule, r: ModuleBase.Record): (m': TwitchAuthModule)
    ensures m'.base == ModuleBase.FromData(m.base, r)
    ensures m'.state.token == r.token.GetOr(m.state.token)
    ensures m'.state.availableScopes == r.availableScopes.GetOr(m.state.availableScopes)
    ensures m'.state.requiredScopes == m.state.requiredScopes
    ensures m'.state.serverInfo == m.state.serverInfo && m'.state.clientId == m.state.clientId
  {
    ModuleBase.Module(ModuleBase.FromData(m.base, r),
      m.state.(token := r.token.GetOr(m.state.token),
               availableScopes := r.availableScopes.GetOr(m.state.availableScopes)))
  }

  /** Exports the shared record extended with the token and the available scopes. */
  function ToData(m: TwitchAuthModule): (r: ModuleBase.Record)
    ensures r.enabled == ModuleBase.ToData(m.base).enabled
    ensures r.token == Some(m.state.token)
    ensures r.availableScopes == Some(m.state.availableScopes)
  {
    ModuleBase.ToData(m.base).(token := Some(m.state.token), availableScopes := Some(m.state.availableScopes))
  }

  /** Importing what a valid module exports restores token and scopes and changes nothing else. */
  lemma DataRoundTrip(m: TwitchAuthModule)
    requires ModuleBase.Valid(m.base)
    ensures FromData(m, ToData(m)) == m
  {
  }

  /** `sendToken()`: one `tw_token` message carrying the current token. */
  function SendToken(a: TwitchAuth): (published: seq<Message>)
    ensures |published| == 1 && TopicOf(published[0]) == TwToken
    ensures published[0].token == a.token
  {
    [Token(a.token)]
  }

  /** `start()`: asks for the GET /twitch/auth route, then publishes the current token. */
  function Start(m: TwitchAuthModule): (published: seq<Message>)
    ensures |published| == 2
    ensures published[0] == AddRoute(Route(AuthPath, Get, TwitchAuthRedirect))
    ensures published[1..] == SendToken(m.state)
  {
    [AddRoute(Route(AuthPath, Get, TwitchAuthRedirect))] + SendToken(m.state)
  }

  /** `validateScopes()`: the scopes the token grants become the required ones. */
  function ValidateScopes(a: TwitchAuth): (a': TwitchAuth)
    ensures a'.availableScopes == a.requiredScopes
    ensures a'.requiredScopes == a.requiredScopes && a'.token == a.token
    ensures a'.serverInfo == a.serverInfo && a'.clientId == a.clientId
  {
    a.(availableScopes := a.requiredScopes)
  }

  /** The outcome of exchanging an authorization code for a token. */
  datatype TokenResponse = Granted(accessToken: string) | Refused(error: string)

  /**
   * What the token exchange does with its response: on success the token
   * is replaced, the scopes are validated and the new token is published;
   * on failure nothing changes and nothing is published.
   */
  function OnTokenResponse(m: TwitchAuthModule, response: TokenResponse): (result: (TwitchAuthModule, seq<Message>))
    ensures result.0.base == m.base
    ensures response.Refused? ==> result == (m, [])
    ensures response.Granted? ==>
      && result.0.state.token == response.accessToken
      && result.0.state.availableScopes == m.state.requiredScopes
      && result.0.state.requiredScopes == m.state.requiredScopes
      && result.1 == [Token(response.accessToken)]
  {
    match response
    case Refused(_) => (m, [])
    case Granted(token) =>
      var a := ValidateScopes(m.state.(token := token));
      (m.(state := a), SendToken(a))
  }
}
