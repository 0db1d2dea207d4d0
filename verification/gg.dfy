/**
 * The GG module: an optional module that, while enabled, forwards chat
 * messages redeeming the configured reward to the "obs" stream.
 */
module GGModule {
  import opened Wrappers
  import opened Messages
  import ModuleBase

  const Name: string := "GG"
  const StreamName: string := "obs"
  const Sender: string := "gg"

  /** The configured reward identifier: the GG_REWARD environment value, absent when unset. */
  datatype GG = GG(reward: Option<string>)

  type GGModule = ModuleBase.Module<GG>

  /** A new module: optional, hence disabled until a setting or a record enables it. */
  function New(reward: Option<string>): (m: GGModule)
    ensures m.base.name == Name && !m.base.required && !m.base.enabled
    ensures m.state.reward == reward
  {
    ModuleBase.Module(ModuleBase.New(Name, false), GG(reward))
  }

  /** The topics the constructor subscribes to. */
  function Subscriptions(): (ts: seq<Topic>)
    ensures forall t :: t in ts <==> t == TwMessage
    ensures |ts| == 1
  {
    [TwMessage]
  }

  /** The stream message announcing a GG from `user`. */
  function GGMessage(chat: TchatMessage): StreamMessage
  {
    StreamMessage(StreamName, StreamEvent(Sender, chat.user, chat.message))
  }

  /**
   * The `tw_message` listener: one `ws_send_on_stream` message exactly when
   * the module is enabled and the chat message redeems the configured
   * reward; it targets "obs" and carries the user and the text.
   */
  function OnChat(m: GGModule, chat: TchatMessage): (published: seq<Message>)
    ensures |published| <= 1
    ensures |published| == 1 <==> m.base.enabled && m.state.reward == Some(chat.reward)
    ensures |published| == 1 ==> TopicOf(published[0]) == WsSendOnStream
    ensures |published| == 1 ==>
      published[0].send.streamName == StreamName &&
      published[0].send.event == StreamEvent(Sender, chat.user, chat.message)
  {
    if m.base.enabled && m.state.reward == Some(chat.reward) then [SendOnStream(GGMessage(chat))] else []
  }

  /** Without a configured reward nothing is ever published. */
  lemma NoRewardNoMessage(m: GGModule, chat: TchatMessage)
    requires m.state.reward.None?
    ensures OnChat(m, chat) == []
  {
  }
}
