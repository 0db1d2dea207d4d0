/**
 * The web server module: a required module holding the server's URI and
 * listening port, exposed as two text settings and persisted in its record.
 * The HTTP library itself is not modelled; the routes it was asked to
 * serve are recorded in order.
 */
module WebServerModule {
  import opened Wrappers
  import opened Numbers
  import opened Settings
  import opened Messages
  import ModuleBase

  const Name: string := "Web Server"
  const DefaultUri: string := "http://localhost"
  const DefaultPort: Number := Num(4000)
  const UriName: string := "URI"
  const PortName: string := "Port"

  datatype WebServer = WebServer(uri: string, port: Number, routes: seq<Route>)

  type WebServerModule = ModuleBase.Module<WebServer>

  /** A new web server: required, on http://localhost port 4000, with no route yet. */
  function New(): (m: WebServerModule)
    ensures m.base.name == Name && m.base.required && m.base.enabled
    ensures m.state.uri == DefaultUri && m.state.port == DefaultPort && m.state.routes == []
  {
    ModuleBase.Module(ModuleBase.New(Name, true), WebServer(DefaultUri, DefaultPort, []))
  }

  /** The topics the constructor subscribes to. */
  function Subscriptions(): (ts: seq<Topic>)
    ensures forall t :: t in ts <==> t == WsAddRoute
    ensures |ts| == 1
  {
    [WsAddRoute]
  }

  /** The `ws_add_route` listener: the route is added after those already served. */
  function OnAddRoute(m: WebServerModule, route: Route): (m': WebServerModule)
    ensures m'.base == m.base
    ensures m'.state.routes == m.state.routes + [route]
    ensures m'.state.uri == m.state.uri && m'.state.port == m.state.port
  {
    m.(state := m.state.(routes := m.state.routes + [route]))
  }

  /** The shared settings followed by "URI" and "Port", which read back as the current values. */
  function GetSettings(m: WebServerModule): (ss: seq<Setting>)
    ensures |ss| == |ModuleBase.GetSettings(m.base)| + 2
    ensures ss[..|ss| - 2] == ModuleBase.GetSettings(m.base)
    ensures ss[|ss| - 2].name == UriName && ss[|ss| - 2].kind == Text
    ensures AsText(ss[|ss| - 2]) == m.state.uri && ss[|ss| - 2].value == m.state.uri
    ensures ss[|ss| - 1].name == PortName && ss[|ss| - 1].kind == Text
    ensures AsNumber(ss[|ss| - 1]) == m.state.port && ss[|ss| - 1].value == ToString(m.state.port)
  {
    NumberRoundTrip(PortName, m.state.port);
    ModuleBase.GetSettings(m.base) + [TextSetting(UriName, m.state.uri), TextSetting(PortName, ToString(m.state.port))]
  }

  /** The `switch` inside the web server's `forEach`: "URI" sets the text, "Port" the parsed number, other names are ignored. */
  function ApplySetting(w: WebServer, s: Setting): (w': WebServer)
    ensures w'.routes == w.routes
    ensures s.name == UriName ==> w'.uri == AsText(s) && w'.port == w.port
    ensures s.name == PortName ==> w'.port == AsNumber(s) && w'.uri == w.uri
    ensures s.name != UriName && s.name != PortName ==> w' == w
  {
    if s.name == UriName then w.(uri := AsText(s))
    else if s.name == PortName then w.(port := AsNumber(s))
    else w
  }

  /** The web server's own `forEach` over the settings: the last "URI" and the last "Port" win. */
  function ApplySettings(w: WebServer, ss: seq<Setting>): (w': WebServer)
    ensures w'.uri == (match Last(ss, UriName) case Some(s) => AsText(s) case None => w.uri)
    ensures w'.port == (match Last(ss, PortName) case Some(s) => AsNumber(s) case None => w.port)
    ensures w'.routes == w.routes
    decreases |ss|
  {
    if |ss| == 0 then w
    else ApplySetting(ApplySettings(w, ss[..|ss| - 1]), ss[|ss| - 1])
  }

  /**
   * Applies the shared settings, then sets the URI from a "URI" setting's
   * text and the port from a "Port" setting's number; other names are ignored.
   */
  function SetSettings(m: WebServerModule, ss: seq<Setting>): (m': WebServerModule)
    ensures m'.base == ModuleBase.SetSettings(m.base, ss)
    ensures m'.state.uri == (match Last(ss, UriName) case Some(s) => AsText(s) case None => m.state.uri)
    ensures m'.state.port == (match Last(ss, PortName) case Some(s) => AsNumber(s) case None => m.state.port)
    ensures m'.state.routes == m.state.routes
  {
    ModuleBase.Module(ModuleBase.SetSettings(m.base, ss), ApplySettings(m.state, ss))
  }

  /** Applying the settings the web server reports leaves it unchanged. */
  lemma SetGetSettings(m: WebServerModule)
    requires ModuleBase.Valid(m.base)
    ensures SetSettings(m, GetSettings(m)) == m
  {
    ReportedLast(m);
    ModuleBase.SetGetSettings(m.base);
  }

  /** In the reported list, "URI" and "Port" are the two own entries and "Enabled" comes from the shared ones. */
  lemma ReportedLast(m: WebServerModule)
    ensures var ss := GetSettings(m);
      && Last(ss, UriName) == Some(ss[|ss| - 2])
      && Last(ss, PortName) == Some(ss[|ss| - 1])
      && Last(ss, ModuleBase.EnabledName) == Last(ModuleBase.GetSettings(m.base), ModuleBase.EnabledName)
  {
    var ss := GetSettings(m);
    var n := |ss|;
    var own := [ss[n - 2], ss[n - 1]];
    assert ss == ModuleBase.GetSettings(m.base) + own;
    assert Last(ss[..n - 1], UriName) == Some(ss[n - 2]);
    LastSkips(ModuleBase.GetSettings(m.base), own, ModuleBase.EnabledName);
  }

  /** Imports a record: URI and port are taken from it when present, kept otherwise. */
  function FromData(m: WebServerModule, r: ModuleBase.Record): (m': WebServerModule)
    ensures m'.base == ModuleBase.FromData(m.base, r)
    ensures m'.state.uri == r.uri.GetOr(m.state.uri)
    ensures m'.state.port == r.port.GetOr(m.state.port)
    ensures m'.state.routes == m.state.routes
  {
    ModuleBase.Module(ModuleBase.FromData(m.base, r),
      m.state.(uri := r.uri.GetOr(m.state.uri), port := r.port.GetOr(m.state.port)))
  }

  /** Exports the shared record extended with the URI and port. */
  function ToData(m: WebServerModule): (r: ModuleBase.Record)
    ensures r.enabled == ModuleBase.ToData(m.base).enabled
    ensures r.uri == Some(m.state.uri) && r.port == Some(m.state.port)
  {
    ModuleBase.ToData(m.base).(uri := Some(m.state.uri), port := Some(m.state.port))
  }

  /** Importing what a valid web server exports changes nothing. */
  lemma DataRoundTrip(m: WebServerModule)
    requires ModuleBase.Valid(m.base)
    ensures FromData(m, ToData(m)) == m
  {
  }

  /** `start()`: the server information is published once listening is requested. */
  function Start(m: WebServerModule): (published: seq<Message>)
    ensures |published| == 1 && TopicOf(published[0]) == WsInfo
    ensures published[0].info == ServerInfo(m.state.uri, m.state.port)
  {
    [Info(ServerInfo(m.state.uri, m.state.port))]
  }

  /** `restart()`: one restart message, which restarts the whole application. */
  function Restart(m: WebServerModule): (published: seq<Message>)
    ensures |published| == 1 && TopicOf(published[0]) == Topic.Restart
  {
    [RestartSignal]
  }
}
