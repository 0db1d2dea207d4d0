/**
 * The Twitch chat module: a required module that asks for the chat scope
 * when it starts and opens a chat connection with every token it receives.
 * The chat client itself is not modelled; each connection attempt is
 * recorded with the credentials it uses.
 */
module TwitchTchatModule {
  import opened Wrappers
  import opened Messages
  import ModuleBase

  const Name: string := "Twitch Tchat"
  const ChatScope: string := "chat:read"
  const BotUsername: string := "MicheLMD"
  const Channel: string := "lesmoulinsdudev"
  const PasswordPrefix: string := "oauth:"

  /** The identity and channels a chat connection is opened with. */
  datatype Credentials = Credentials(username: string, password: string, channels: seq<string>)

  datatype TwitchTchat = TwitchTchat(connections: seq<Credentials>)

  type TwitchTchatModule = ModuleBase.Module<TwitchTchat>

  /** A new module: required, hence enabled, and not connected yet. */
  function New(): (m: TwitchTchatModule)
    ensures m.base.name == Name && m.base.required && m.base.enabled
    ensures m.state.connections == []
  {
    ModuleBase.Module(ModuleBase.New(Name, true), TwitchTchat([]))
  }

  /** The topics the constructor subscribes to. */
  function Subscriptions(): (ts: seq<Topic>)
    ensures forall t :: t in ts <==> t == TwToken
    ensures |ts| == 1
  {
    [TwToken]
  }

  /** The `tw_token` listener: one connection attempt whose password is "oauth:" followed by the token. */
  function OnToken(m: TwitchTchatModule, token: string): (m': TwitchTchatModule)
    ensures m'.base == m.base
    ensures |m'.state.connections| == |m.state.connections| + 1
    ensures m'.state.connections[..|m.state.connections|] == m.state.connections
    ensures m'.state.connections[|m.state.connections|].password == PasswordPrefix + token
    ensures m'.state.connections[|m.state.connections|].username == BotUsername
    ensures m'.state.connections[|m.state.connections|].channels == [Channel]
  {
    m.(state := TwitchTchat(m.state.connections + [Credentials(BotUsername, PasswordPrefix + token, [Channel])]))
  }

  /** `start()`: one `tw_require_scope` message asking for the chat scope. */
  function Start(m: TwitchTchatModule): (published: seq<Message>)
    ensures |published| == 1 && TopicOf(published[0]) == TwRequireScope
    ensures published[0].scope == ChatScope
  {
    [RequireScope(ChatScope)]
  }

  /** The module adds nothing to the shared record: import and export are the base ones. */
  function FromData(m: TwitchTchatModule, r: ModuleBase.Record): (m': TwitchTchatModule)
    ensures m'.base == ModuleBase.FromData(m.base, r) && m'.state == m.state
  {
    m.(base := ModuleBase.FromData(m.base, r))
  }

  function ToData(m: TwitchTchatModule): (r: ModuleBase.Record)
    ensures r == ModuleBase.ToData(m.base)
  {
    ModuleBase.ToData(m.base)
  }

  /** The user state the chat client reports with a message; its fields may be missing. */
  datatype Userstate = Userstate(username: Option<string>, customRewardId: Option<string>)

  /**
   * The chat message published for a message read on the chat: text and
   * self flag pass through, user and reward default to "".
   */
  function ChatMessage(message: string, userstate: Userstate, self: bool): (c: TchatMessage)
    ensures c.message == message && c.self == self
    ensures c.user == userstate.username.GetOr("")
    ensures c.reward == userstate.customRewardId.GetOr("")
  {
    TchatMessage(message, userstate.username.GetOr(""), userstate.customRewardId.GetOr(""), self)
  }
}
