/**
 * The four concrete modules behind one interface: each operation of the
 * module base class dispatches to the module's own definition, falling
 * back to the shared behaviour where the module does not override it.
 */
module Modules {
  import opened Wrappers
  import opened Messages
  import opened Settings
  import ModuleBase
  import WS = WebServerModule
  import TA = TwitchAuthModule
  import TT = TwitchTchatModule
  import GGModule

  datatype State =
    | WebServerState(ws: WS.WebServer)
    | TwitchAuthState(auth: TA.TwitchAuth)
    | TwitchTchatState(tchat: TT.TwitchTchat)
    | GGState(gg: GGModule.GG)

  type AnyModule = ModuleBase.Module<State>

  function Name(m: AnyModule): string
  {
    m.base.name
  }

  predicate Valid(m: AnyModule)
  {
    ModuleBase.Valid(m.base)
  }

  /** Same concrete module, whatever its field values. */
  predicate SameKind(m: AnyModule, m': AnyModule)
  {
    match m.state
    case WebServerState(_) => m'.state.WebServerState?
    case TwitchAuthState(_) => m'.state.TwitchAuthState?
    case TwitchTchatState(_) => m'.state.TwitchTchatState?
    case GGState(_) => m'.state.GGState?
  }

  /** The name and the required flag never change after construction. */
  predicate SameIdentity(m: AnyModule, m': AnyModule)
  {
    m'.base.name == m.base.name && m'.base.required == m.base.required && SameKind(m, m')
  }

  function WebServer(m: WS.WebServerModule): AnyModule { ModuleBase.Module(m.base, WebServerState(m.state)) }
  function TwitchAuth(m: TA.TwitchAuthModule): AnyModule { ModuleBase.Module(m.base, TwitchAuthState(m.state)) }
  function TwitchTchat(m: TT.TwitchTchatModule): AnyModule { ModuleBase.Module(m.base, TwitchTchatState(m.state)) }
  function GG(m: GGModule.GGModule): AnyModule { ModuleBase.Module(m.base, GGState(m.state)) }

  /** The topics the module's constructor subscribes to, in subscription order. */
  function Subscriptions(m: AnyModule): (ts: seq<Topic>)
    ensures forall i, j :: 0 <= i < j < |ts| ==> ts[i] != ts[j]
    ensures Topic.Restart !in ts && WsAddStream !in ts && WsSendOnStream !in ts
  {
    match m.state
    case WebServerState(_) => WS.Subscriptions()
    case TwitchAuthState(_) => TA.Subscriptions()
    case TwitchTchatState(_) => TT.Subscriptions()
    case GGState(_) => GGModule.Subscriptions()
  }

  /** `fromData`: the invariant holds afterwards and the identity is kept. */
  function FromData(m: AnyModule, r: ModuleBase.Record): (m': AnyModule)
    ensures SameIdentity(m, m') && Valid(m')
    ensures m'.base == ModuleBase.FromData(m.base, r)
  {
    match m.state
    case WebServerState(s) => WebServer(WS.FromData(ModuleBase.Module(m.base, s), r))
    case TwitchAuthState(s) => TwitchAuth(TA.FromData(ModuleBase.Module(m.base, s), r))
    case TwitchTchatState(s) => TwitchTchat(TT.FromData(ModuleBase.Module(m.base, s), r))
    case GGState(_) => m.(base := ModuleBase.FromData(m.base, r))
  }

  /** `toData`: the record's `enabled` is the module's, for a valid module. */
  function ToData(m: AnyModule): (r: ModuleBase.Record)
    ensures Valid(m) ==> r.enabled == m.base.enabled
  {
    match m.state
    case WebServerState(s) => WS.ToData(ModuleBase.Module(m.base, s))
    case TwitchAuthState(s) => TA.ToData(ModuleBase.Module(m.base, s))
    case TwitchTchatState(s) => TT.ToData(ModuleBase.Module(m.base, s))
    case GGState(_) => ModuleBase.ToData(m.base)
  }

  /** Importing what a valid module exports gives the same module. */
  lemma DataRoundTrip(m: AnyModule)
    requires Valid(m)
    ensures FromData(m, ToData(m)) == m
  {
    match m.state
    case WebServerState(s) => WS.DataRoundTrip(ModuleBase.Module(m.base, s));
    case TwitchAuthState(s) => TA.DataRoundTrip(ModuleBase.Module(m.base, s));
    case TwitchTchatState(s) =>
    case GGState(_) =>
  }

  /** `getSettings`: the shared settings first, then the module's own. */
  function GetSettings(m: AnyModule): (ss: seq<Setting>)
    ensures ModuleBase.GetSettings(m.base) <= ss
    ensures m.state.WebServerState? ==> ss == WS.GetSettings(ModuleBase.Module(m.base, m.state.ws))
    ensures m.state.TwitchAuthState? ==> ss == TA.GetSettings(ModuleBase.Module(m.base, m.state.auth))
    ensures m.state.TwitchTchatState? || m.state.GGState? ==> ss == ModuleBase.GetSettings(m.base)
  {
    match m.state
    case WebServerState(s) => WS.GetSettings(ModuleBase.Module(m.base, s))
    case TwitchAuthState(s) => TA.GetSettings(ModuleBase.Module(m.base, s))
    case TwitchTchatState(_) => ModuleBase.GetSettings(m.base)
    case GGState(_) => ModuleBase.GetSettings(m.base)
  }

  /** Twitch Tchat reports no setting, and GG exactly one: "Enabled", off until enabled. */
  lemma NewModuleSettings(reward: Option<string>)
    ensures GetSettings(TwitchTchat(TT.New())) == []
    ensures var ss := GetSettings(GG(GGModule.New(reward)));
      |ss| == 1 && ss[0].name == ModuleBase.EnabledName && ss[0].kind == Boolean && !AsBoolean(ss[0])
  {
  }

  /** `setSettings`: the shared "Enabled" handling for all, plus the module's own names. */
  function SetSettings(m: AnyModule, ss: seq<Setting>): (m': AnyModule)
    ensures SameIdentity(m, m')
    ensures m'.base == ModuleBase.SetSettings(m.base, ss)
    ensures Valid(m) ==> Valid(m')
  {
    match m.state
    case WebServerState(s) => WebServer(WS.SetSettings(ModuleBase.Module(m.base, s), ss))
    case TwitchAuthState(s) => TwitchAuth(TA.SetSettings(ModuleBase.Module(m.base, s), ss))
    case TwitchTchatState(_) => m.(base := ModuleBase.SetSettings(m.base, ss))
    case GGState(_) => m.(base := ModuleBase.SetSettings(m.base, ss))
  }

  lemma {:induction false} SetAuthSettingsOwnNamesIgnored(m: TA.TwitchAuthModule)
    requires ModuleBase.Valid(m.base)
    ensures ModuleBase.SetSettings(m.base, TA.GetSettings(m)) == m.base
  {
    var ss := TA.GetSettings(m);
    var n := |ss|;
    var base := ModuleBase.GetSettings(m.base);
    assert ss[..n - 3] == base;
    assert ss[n - 3].name != ModuleBase.EnabledName;
    assert ss[..n - 1][..n - 2] == ss[..n - 2];
    assert ss[..n - 2][..n - 3] == base;
    if m.base.required {
      assert Last(ss, ModuleBase.EnabledName).None?;
    } else {
      assert ss[0] == base[0];
      assert Last(ss[..n - 3], ModuleBase.EnabledName) == Some(ss[0]);
      assert Last(ss, ModuleBase.EnabledName) == Some(ss[0]);
    }
  }

  /** Applying the settings a valid module reports leaves it unchanged. */
  lemma SetGetSettings(m: AnyModule)
    requires Valid(m)
    ensures SetSettings(m, GetSettings(m)) == m
  {
    match m.state
    case WebServerState(s) => WS.SetGetSettings(ModuleBase.Module(m.base, s));
    case TwitchAuthState(s) => SetAuthSettingsOwnNamesIgnored(ModuleBase.Module(m.base, s));
    case TwitchTchatState(_) => ModuleBase.SetGetSettings(m.base);
    case GGState(_) => ModuleBase.SetGetSettings(m.base);
  }

  /** `start()`: what the module publishes when started; the base start publishes nothing. */
  function Start(m: AnyModule): (published: seq<Message>)
    ensures m.state.GGState? ==> published == []
  {
    match m.state
    case WebServerState(s) => WS.Start(ModuleBase.Module(m.base, s))
    case TwitchAuthState(s) => TA.Start(ModuleBase.Module(m.base, s))
    case TwitchTchatState(s) => TT.Start(ModuleBase.Module(m.base, s))
    case GGState(_) => []
  }

  /** `restart()`: only the web server publishes anything, one restart message. */
  function Restart(m: AnyModule): (published: seq<Message>)
    ensures m.state.WebServerState? ==> published == [RestartSignal]
    ensures !m.state.WebServerState? ==> published == []
  {
    match m.state
    case WebServerState(s) => WS.Restart(ModuleBase.Module(m.base, s))
    case _ => []
  }

  /**
   * Runs the module's listener for the message's topic. A module receives
   * only topics it subscribed to, a listener never touches the shared
   * fields, and what it publishes has a lower rank than what it received.
   */
  function Handle(m: AnyModule, msg: Message): (result: (AnyModule, seq<Message>))
    ensures result.0.base == m.base && SameKind(m, result.0)
    ensures TopicOf(msg) !in Subscriptions(m) ==> result == (m, [])
    ensures forall i :: 0 <= i < |result.1| ==> Rank(TopicOf(result.1[i])) < Rank(TopicOf(msg))
  {
    match (m.state, msg)
    case (WebServerState(s), AddRoute(route)) =>
      (WebServer(WS.OnAddRoute(ModuleBase.Module(m.base, s), route)), [])
    case (TwitchAuthState(s), RequireScope(scope)) =>
      (TwitchAuth(TA.OnRequireScope(ModuleBase.Module(m.base, s), scope)), [])
    case (TwitchAuthState(s), Info(info)) =>
      (TwitchAuth(TA.OnServerInfo(ModuleBase.Module(m.base, s), info)), [])
    case (TwitchTchatState(s), Token(token)) =>
      (TwitchTchat(TT.OnToken(ModuleBase.Module(m.base, s), token)), [])
    case (GGState(s), Chat(chat)) =>
      (m, GGModule.OnChat(ModuleBase.Module(m.base, s), chat))
    case _ => (m, [])
  }
}
