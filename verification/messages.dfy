/**
 * The closed set of bus topics, each with exactly one payload shape.
 * The message-type enum names six of them; `ws_add_stream`, `ws_send_on_stream`
 * and the others also travel the bus under their string names.
 */
module Messages {
  import opened Numbers

  datatype Topic =
    | Restart          // restart the bot server
    | WsAddRoute       // add a route to the web server
    | WsInfo           // the web server's URI and listening port
    | WsAddStream      // open a server-sent-events stream
    | WsSendOnStream   // send a message on a stream
    | TwRequireScope   // add a scope to those the Twitch authentication requests
    | TwToken          // the current Twitch token
    | TwMessage        // a message read on the Twitch chat

  datatype HttpMethod = Get | Post

  /** Which callback a route runs; the callbacks themselves are modelled where they are defined. */
  datatype RouteCallback = ListModules | UpdateModule | TwitchAuthRedirect

  datatype Route = Route(url: string, verb: HttpMethod, callback: RouteCallback)

  datatype ServerInfo = ServerInfo(uri: string, port: Number)

  datatype StreamInfo = StreamInfo(name: string, uri: string)

  /** The structured content of a stream message (`{module, data: {username, message}}`). */
  datatype StreamEvent = StreamEvent(sender: string, username: string, message: string)

  datatype StreamMessage = StreamMessage(streamName: string, event: StreamEvent)

  /** A chat message as the chat module publishes it. */
  datatype TchatMessage = TchatMessage(message: string, user: string, reward: string, self: bool)

  /** A message is a topic together with the payload that topic carries. */
  datatype Message =
    | RestartSignal
    | AddRoute(route: Route)
    | Info(info: ServerInfo)
    | AddStream(stream: StreamInfo)
    | SendOnStream(send: StreamMessage)
    | RequireScope(scope: string)
    | Token(token: string)
    | Chat(chat: TchatMessage)

  function TopicOf(m: Message): Topic
  {
    match m
    case RestartSignal => Restart
    case AddRoute(_) => WsAddRoute
    case Info(_) => WsInfo
    case AddStream(_) => WsAddStream
    case SendOnStream(_) => WsSendOnStream
    case RequireScope(_) => TwRequireScope
    case Token(_) => TwToken
    case Chat(_) => TwMessage
  }

  /**
   * How deep a publication can nest: a handler of a topic publishes only
   * topics of lower rank. Only chat messages lead to a further publication.
   */
  function Rank(t: Topic): nat
  {
    if t == TwMessage then 1 else 0
  }
}
