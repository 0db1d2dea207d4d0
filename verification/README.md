# michelmd-botcore in Dafny

A model of the core of michelmd-botcore, a Twitch bot server. Its modules
talk to each other over a typed publish/subscribe bus and are configured
through a small settings lifecycle. The model covers:

- **Setting values.** A name, a string value and a type tag, with typed
  factories and accessors (`module-setting.ts`). The JavaScript built-ins
  these rely on are modelled too: `join`/`split`, `Number.toString`/`parseInt`
  and `encodeURIComponent`.
- **The message bus** (`messenger.ts`). Each topic maps to its ordered list
  of handlers. `emit` yields the ordered log of deliveries.
- **The module base class** (`module.ts`) and the four concrete modules:
  Web Server, Twitch Authentication, Twitch Tchat and GG. They are variants
  of one datatype that share the base fields.
- **The persistence gateway** (`dao-module.ts`), as a map from module name
  to record.
- **The modules manager** (`modules-manager.ts`):
  - its construction;
  - `registerModules`/`addModule` (load, then insert);
  - `startModules`;
  - `getModulesSettings`;
  - the GET and POST `/modules` callbacks;
  - the GET `/twitch/auth` callback, once the token endpoint has answered.
- **The server-sent-events client list** (`stream.ts`).

## How the system is represented

Whole-program behaviour is a `System` value (`modules_manager.dfy`). It holds:

- every module object constructed so far, in a heap;
- the bus, whose handlers are heap positions (JavaScript object identity);
- the registry: name to heap position, in insertion order, like a JavaScript `Map`;
- the store;
- the log of published messages;
- the log of lifecycle calls (`Loaded`, `Started`, `SettingsApplied`, `Saved`, `Restarted`).

A system is *consistent* (`WellFormed`) when:

- registry names are unique, and each points at an object that carries that name;
- every listener is a constructed object;
- every object satisfies `required ⇒ enabled`.

Publication is depth-first. A listener's own publications are delivered
before the next listener runs, as a synchronous `emit` inside a listener
does. Only GG publishes from inside a listener: a `ws_send_on_stream` in
answer to a `tw_message`. A topic rank (`tw_message` = 1, all others 0)
makes this recursion well-founded.

The manager's constructor is modelled in the order JavaScript runs it:

1. The web server object is constructed and subscribes to `ws_add_route`.
2. Its record load suspends on `await`.
3. The constructor publishes the two `/modules` routes, which the web server
   already receives.
4. Only then is the web server registered.
5. The other three modules follow, in order.
6. Every registered module is started once, in registration order.

Topics form a closed datatype of eight constructors. The enum in
`src/messenger/message-type.ts` names six of them. As a modelling
assumption, an enum member and the string spelling of its name
(`"ws_add_route"`, `"tw_token"`, …) are the same topic; "## Left out" says
where the source does not do that.

Environment variables (`TWITCH_CLIENT_ID`, `GG_REWARD`) are an `Env` value
read when the modules are constructed. The source reads them on every use;
"## Left out" says so for the members concerned. The answer of the Twitch token
endpoint is a `TokenResponse` parameter.

Files, one Dafny module each:

| file | module | models |
|---|---|---|
| `wrappers.dfy` | `Wrappers` | optional values (`??`) |
| `strings.dfy` | `Strings` | `Array.prototype.join`, `String.prototype.split` on one character |
| `numbers.dfy` | `Numbers` | `toString` and `parseInt` on non-negative integers and NaN |
| `uri_encoding.dfy` | `UriEncoding` | `encodeURIComponent` |
| `settings.dfy` | `Settings` | `ModuleSetting` |
| `ordered_map.dfy` | `OrderedMaps` | JavaScript `Map` (`get`, `set`, insertion order) |
| `module.dfy` | `ModuleBase` | the `Module` base class |
| `messages.dfy` | `Messages` | topics and their payloads |
| `messenger.dfy` | `Messenger` | `Messenger` |
| `web_server.dfy` | `WebServerModule` | `WebServer` |
| `twitch_auth.dfy` | `TwitchAuthModule` | `TwitchAuth` |
| `twitch_tchat.dfy` | `TwitchTchatModule` | `TwitchTchat` |
| `gg.dfy` | `GGModule` | `GG` |
| `modules.dfy` | `Modules` | dispatch over the four concrete modules |
| `dao_module.dfy` | `DaoModule` | `DAOModule` |
| `modules_manager.dfy` | `ModulesManager` | `ModulesManager`, the bus in motion, construction |
| `stream.dfy` | `Streams` | `Stream` |

## Model

| member | source | states |
|---|---|---|
| Strings.Split | src/modules/module-setting.ts:95-98 | `split` yields at least one piece, no piece contains the separator, and there is exactly one more piece than separators |
| Strings.SplitJoin | src/modules/module-setting.ts:139-142 | splitting a join gives the parts back when there is at least one part and none contains the separator |
| Strings.JoinSplit | src/modules/module-setting.ts:95-98 | joining what `split` returns gives the original string, for every string |
| Strings.EmptyPartsBecomeOneEmptyPart | src/modules/module-setting.ts:139-142 | `[]` joins to `""`, which splits back to `[""]` |
| Strings.SeparatorInPartSplitsIt | src/modules/module-setting.ts:139-142 | a tag containing a comma does not survive: `["a,b"]` comes back as `["a", "b"]` |
| Strings.Join | src/modules/module-setting.ts:139-142 | `join` starts with the first part and holds at least one separator between each two neighbouring parts |
| Strings.JoinSeparators | src/modules/module-setting.ts:139-142 | the separators of a join are at least those between the parts plus those inside any one part |
| Strings.SeparatorBreaksRoundTrip | src/modules/module-setting.ts:139-142 | for every list of parts, one part containing the separator makes the split of the join longer than the list, so the tags do not come back |
| Numbers.DecimalString | src/modules/web-server/web-server.ts:59 | `toString` of a non-negative integer is a non-empty digit string without a leading zero |
| Numbers.DigitPrefix | src/modules/module-setting.ts:86-89 | `parseInt` reads the longest prefix of decimal digits: it is a prefix, all digits, and cannot be extended |
| Numbers.DigitsOfDecimal | src/modules/web-server/web-server.ts:59 | the digits `toString` prints have the printed number as their value |
| Numbers.ParseDigits | src/modules/module-setting.ts:86-89 | on a non-empty decimal digit string, `parseInt` returns that string's value |
| Numbers.ParseToString | src/modules/module-setting.ts:86-89 | `parseInt(x.toString()) == x` for every non-negative integer and for NaN |
| Numbers.ParseInt | src/modules/module-setting.ts:88 | `parseInt` is NaN exactly when the text does not start with a digit, and on a digit string it is the string's value |
| Numbers.ToString | src/modules/web-server/web-server.ts:59 | `toString` is never empty, and it is all digits exactly when the number is not NaN |
| Numbers.ToStringInjective | src/modules/web-server/web-server.ts:59 | different ports print differently |
| UriEncoding.EncodeChar | src/modules/twitch-auth/twitch-auth.ts:156 | an unreserved character is kept; any other becomes a `%`-escape of at least three characters |
| UriEncoding.EncodeURIComponent | src/modules/twitch-auth/twitch-auth.ts:156 | every character of the result is unreserved or `%`, and the result is never shorter than the input |
| UriEncoding.Utf8 | src/modules/twitch-auth/twitch-auth.ts:156 | the UTF-8 encoding `encodeURIComponent` escapes: one to four bytes, each below 256, and a single byte exactly for ASCII |
| UriEncoding.EncodeUnreserved | src/modules/twitch-auth/twitch-auth.ts:156 | text made only of unreserved characters is left unchanged |
| Settings.ToData | src/modules/module-setting.ts:55-62 | the exported record has the setting's name, value and type |
| Settings.AsBoolean | src/modules/module-setting.ts:68-71 | true exactly when the stored value is `"true"` |
| Settings.AsText | src/modules/module-setting.ts:77-80 | the stored value itself |
| Settings.AsNumber | src/modules/module-setting.ts:86-89 | the `parseInt` of the stored value: NaN exactly when it does not start with a digit, the digits' value when it is a digit string |
| Settings.AsTags | src/modules/module-setting.ts:95-98 | the comma-separated pieces: at least one, none containing a comma, and joining them gives the stored value back |
| Settings.FromData | src/modules/module-setting.ts:46-62 | `fromData(d).toData() == d` for every name, value and type |
| Settings.ExportImport | src/modules/module-setting.ts:46-62 | importing what a setting exports gives the same setting |
| Settings.TextSetting | src/modules/module-setting.ts:106-109 | type TEXT, the given name, and `asText` returns the value unchanged |
| Settings.LinkSetting | src/modules/module-setting.ts:117-120 | type LINK, the given name, and `asText` returns the value unchanged |
| Settings.BooleanSetting | src/modules/module-setting.ts:128-131 | type BOOLEAN, the given name, the value is `"true"` or `"false"`, and `asBoolean` returns the flag |
| Settings.TagsSetting | src/modules/module-setting.ts:139-142 | type TAGS and the given name; `asTags` returns the tags when they are non-empty and comma-free, and `[""]` for no tags |
| Settings.OnlyTrueIsTrue | src/modules/module-setting.ts:68-71 | `asBoolean` is true exactly when the stored value is `"true"`, whatever the type tag |
| Settings.NumberRoundTrip | src/modules/module-setting.ts:86-89 | a number written with `toString` into a text setting reads back with `asNumber` as the same number |
| Settings.DigitsAsNumber | src/modules/module-setting.ts:86-89 | a setting holding a decimal digit string reads back as that string's value |
| Settings.Last | src/modules/module.ts:111-116 | the setting a `forEach` that assigns on every match leaves in effect: the last one with that name, or none when no setting has the name |
| OrderedMaps.Get | src/modules/modules-manager.ts:97 | `Map.get` answers exactly for the keys present, with a value stored under the key |
| OrderedMaps.Set | src/modules/modules-manager.ts:61 | `Map.set`: the key now maps to the value and every other key keeps its value; a known key keeps its place and a new key is appended |
| OrderedMaps.Values | src/modules/modules-manager.ts:70 | `Map.values()`: the values in insertion order |
| ModuleBase.New | src/modules/module.ts:33-39 | a new module has the given name and flag, is enabled exactly when required, and satisfies `required ⇒ enabled` |
| ModuleBase.FromData | src/modules/module.ts:45-48 | name and required are kept, `required ⇒ enabled` holds afterwards, and an optional module takes the record's `enabled` |
| ModuleBase.ToData | src/modules/module.ts:54-59 | a required module exports `enabled = true`; a valid module exports its own flag |
| ModuleBase.DataRoundTrip | src/modules/module.ts:45-59 | importing what a valid module exports changes nothing |
| ModuleBase.GetSettings | src/modules/module.ts:95-103 | none for a required module; one boolean "Enabled" setting holding the flag for an optional one |
| ModuleBase.SetSettings | src/modules/module.ts:109-117 | only "Enabled" settings matter, the last one decides, a required module stays enabled, and name and required never change |
| ModuleBase.SetGetSettings | src/modules/module.ts:95-117 | applying the settings a valid module reports changes nothing |
| ModuleBase.ApplySetting | src/modules/module.ts:111-115 | one setting: "Enabled" sets the flag to `required || asBoolean()` and makes the module valid; any other name leaves it as it was |
| ModuleBase.OtherNamesIgnored | src/modules/module.ts:109-117 | settings under other names leave the module as it was |
| Messenger.NewBus | src/messenger/messenger.ts:16-19 | a new bus has no handler for any topic |
| Messenger.Listeners | src/messenger/messenger.ts:41 | `events.get(t) ?? []`: the topic's handler list when the topic has an entry, and no handler otherwise |
| Messenger.AddListener | src/messenger/messenger.ts:26-32 | the handler is appended to its topic's list, which starts empty; every other topic is unchanged |
| Messenger.Emit | src/messenger/messenger.ts:39-44 | one delivery per handler of the topic, in subscription order, each with the emitted message |
| Messenger.EmitHandlers | src/messenger/messenger.ts:39-44 | the handlers reached are exactly the topic's handler list |
| Messenger.EmitWithoutListeners | src/messenger/messenger.ts:41 | emitting on a topic nobody subscribed to delivers nothing |
| Messenger.EmitCountsSubscriptions | src/messenger/messenger.ts:26-44 | no duplicate detection: a handler subscribed k times receives each message k times |
| Messenger.EmitAfterAddListener | src/messenger/messenger.ts:26-44 | after a subscription, an emission delivers what it delivered before, plus one delivery to the new handler on its topic |
| Messenger.ListenersAfterSubscribeAll | src/messenger/messenger.ts:26-32 | after a sequence of subscriptions, a topic's handlers are the earlier ones followed by those subscribed to it, in order |
| Messenger.EmitInSubscriptionOrder | src/messenger/messenger.ts:26-44 | on a bus built by subscriptions, a message reaches the handlers subscribed to its topic, once per subscription, in subscription order |
| WebServerModule.New | src/modules/web-server/web-server.ts:34-48 | required and enabled, at `http://localhost` port 4000, serving no route |
| WebServerModule.OnAddRoute | src/modules/web-server/web-server.ts:44-47 | the route is added after those already served; nothing else changes |
| WebServerModule.GetSettings | src/modules/web-server/web-server.ts:54-62 | the shared settings, then text "URI" holding the URI and text "Port" holding the port's decimal `toString`, which read back as the current URI and port |
| WebServerModule.ApplySetting | src/modules/web-server/web-server.ts:72-79 | "URI" sets the URI to the setting's text and "Port" sets the port to its number, each leaving the other alone; any other name changes nothing; the routes never change |
| WebServerModule.Subscriptions | src/modules/web-server/web-server.ts:44-47 | the web server listens to `ws_add_route` only |
| WebServerModule.ApplySettings | src/modules/web-server/web-server.ts:72-79 | the last "URI" setting gives the URI, the last "Port" setting's number gives the port, and other names are ignored |
| WebServerModule.SetSettings | src/modules/web-server/web-server.ts:68-80 | the base settings are applied, then URI and port as above; the routes are untouched |
| WebServerModule.SetGetSettings | src/modules/web-server/web-server.ts:54-80 | applying the reported settings leaves a valid web server unchanged, URI and port included |
| WebServerModule.FromData | src/modules/web-server/web-server.ts:86-92 | URI and port are taken from the record when present and kept otherwise |
| WebServerModule.ToData | src/modules/web-server/web-server.ts:99-107 | the shared `enabled` together with the URI and the port |
| WebServerModule.DataRoundTrip | src/modules/web-server/web-server.ts:86-107 | importing what a valid web server exports changes nothing |
| WebServerModule.Start | src/modules/web-server/web-server.ts:112-117 | one `ws_info` message carrying the current URI and port |
| WebServerModule.Restart | src/modules/web-server/web-server.ts:122-125 | one `restart` message |
| TwitchAuthModule.New | src/modules/twitch-auth/twitch-auth.ts:40-47 | required and enabled; no scope, no server information, an empty token |
| TwitchAuthModule.OnRequireScope | src/modules/twitch-auth/twitch-auth.ts:49-53 | a new scope is appended and a known one changes nothing, so the list stays duplicate-free |
| TwitchAuthModule.RequireAllKeepsScopesDistinct | src/modules/twitch-auth/twitch-auth.ts:49-53 | over any sequence of requests the scopes stay duplicate-free, keep the earlier ones as a prefix, and hold exactly the earlier and the requested ones |
| TwitchAuthModule.OnServerInfo | src/modules/twitch-auth/twitch-auth.ts:55-58 | the server information is replaced; nothing else changes |
| TwitchAuthModule.Subscriptions | src/modules/twitch-auth/twitch-auth.ts:49-58 | the authentication module listens to `tw_require_scope` and `ws_info`, once each, and to nothing else |
| TwitchAuthModule.RedirectURI | src/modules/twitch-auth/twitch-auth.ts:138-144 | `""` exactly when there is no server information, otherwise `uri:port/twitch/auth` |
| TwitchAuthModule.GetLink | src/modules/twitch-auth/twitch-auth.ts:150-160 | `""` exactly when there is no server information, otherwise a link on the Twitch authorize endpoint |
| TwitchAuthModule.GetSettings | src/modules/twitch-auth/twitch-auth.ts:91-100 | the shared settings, then link "Link", tags "Required scopes" and tags "Available scopes"; the scope lists read back unchanged when non-empty and comma-free |
| TwitchAuthModule.SetSettings | src/modules/twitch-auth/twitch-auth.ts:106-109 | only the shared settings apply; the module's own state is untouched |
| TwitchAuthModule.FromData | src/modules/twitch-auth/twitch-auth.ts:65-71 | token and available scopes are taken from the record when present and kept otherwise; required scopes and server information are kept |
| TwitchAuthModule.ToData | src/modules/twitch-auth/twitch-auth.ts:77-85 | the shared `enabled` together with the token and the available scopes |
| TwitchAuthModule.DataRoundTrip | src/modules/twitch-auth/twitch-auth.ts:65-85 | importing what a valid module exports changes nothing |
| TwitchAuthModule.SendToken | src/modules/twitch-auth/twitch-auth.ts:208-211 | one `tw_token` message carrying the current token |
| TwitchAuthModule.Start | src/modules/twitch-auth/twitch-auth.ts:114-132 | a `ws_add_route` for GET `/twitch/auth`, then the current token |
| TwitchAuthModule.ValidateScopes | src/modules/twitch-auth/twitch-auth.ts:200-203 | the available scopes become the required ones; nothing else changes |
| TwitchAuthModule.OnTokenResponse | src/modules/twitch-auth/twitch-auth.ts:180-194 | success: the token is replaced, the available scopes become the required ones, and exactly the new token is published; failure: nothing changes and nothing is published |
| TwitchTchatModule.New | src/modules/twitch-tchat/twitch-tchat.ts:21-31 | "Twitch Tchat", required and enabled, not connected |
| TwitchTchatModule.OnToken | src/modules/twitch-tchat/twitch-tchat.ts:63-71 | each token gives one more connection attempt as MicheLMD on lesmoulinsdudev, with password `oauth:` followed by the token; earlier attempts are kept |
| TwitchTchatModule.Subscriptions | src/modules/twitch-tchat/twitch-tchat.ts:27-30 | the chat module listens to `tw_token` only |
| TwitchTchatModule.Start | src/modules/twitch-tchat/twitch-tchat.ts:54-57 | one `tw_require_scope` message asking for `chat:read` |
| TwitchTchatModule.FromData | src/modules/twitch-tchat/twitch-tchat.ts:37-40 | exactly the base import |
| TwitchTchatModule.ToData | src/modules/twitch-tchat/twitch-tchat.ts:46-49 | exactly the base export |
| TwitchTchatModule.ChatMessage | src/modules/twitch-tchat/twitch-tchat.ts:80-85 | text and self flag pass through; user and reward default to `""` when the chat client leaves them out |
| GGModule.New | src/modules/gg/gg.ts:17-19 | "GG", optional, hence disabled until enabled by a setting or a record |
| GGModule.OnChat | src/modules/gg/gg.ts:21-35 | at most one message; one exactly when enabled and the reward is the configured one; it goes on `ws_send_on_stream` to "obs" with sender "gg", the user and the text |
| GGModule.Subscriptions | src/modules/gg/gg.ts:21 | GG listens to `tw_message` only |
| GGModule.NoRewardNoMessage | src/modules/gg/gg.ts:22 | without a configured reward nothing is ever published |
| DaoModule.Save | src/dao/dao-module.ts:24-29 | the module's exported record is stored under its name; every other record is untouched |
| DaoModule.Load | src/dao/dao-module.ts:35-43 | with no record the module is unchanged; with one it is the module's `fromData` of it; identity and validity are kept |
| DaoModule.LoadAfterSave | src/dao/dao-module.ts:24-43 | loading a valid module right after saving it gives the same module |
| DaoModule.LoadAfterOtherSave | src/dao/dao-module.ts:24-43 | saving one module does not change what another module loads |
| Modules.FromData | src/modules/module.ts:45-48 | for every kind of module the identity is kept and `required ⇒ enabled` holds afterwards |
| Modules.ToData | src/modules/module.ts:54-59 | for every kind, a valid module exports its own `enabled` |
| Modules.DataRoundTrip | src/modules/module.ts:45-59 | importing what a valid module of any kind exports changes nothing |
| Modules.GetSettings | src/modules/module.ts:95-103 | every kind reports the shared settings first; the web server and the authentication module then report exactly their own lists above, and Twitch Tchat and GG report the shared settings alone |
| Modules.NewModuleSettings | src/modules/module.ts:95-103 | a new Twitch Tchat reports no setting; a new GG reports exactly one boolean "Enabled" setting, false |
| Modules.Subscriptions | src/modules/module.ts:82 | no kind subscribes to a topic twice, and none listens to `restart`, `ws_add_stream` or `ws_send_on_stream` |
| Modules.SetSettings | src/modules/module.ts:109-117 | every kind applies the shared settings, keeps its identity, and stays valid |
| Modules.SetAuthSettingsOwnNamesIgnored | src/modules/twitch-auth/twitch-auth.ts:91-109 | the authentication module's link and scope settings do not affect the shared fields |
| Modules.SetGetSettings | src/modules/module.ts:95-117 | for every kind, applying the reported settings leaves a valid module unchanged |
| Modules.Start | src/modules/module.ts:64-67 | the base `start` (GG's) publishes nothing |
| Modules.Restart | src/modules/module.ts:72-75 | only the web server's restart publishes anything: one `restart` message |
| Modules.Handle | src/modules/module.ts:82 | a module reacts only to topics it subscribed to, never changes its shared fields or kind, and publishes only lower-rank topics |
| ModulesManager.Invoke | src/messenger/messenger.ts:41-43 | calling one handler changes only module state, logs nothing itself, and yields only topics of lower rank than the one handled |
| ModulesManager.Publish | src/messenger/messenger.ts:39-44 | the message is logged first; delivery changes only the modules' own state, and the log only grows; a rank-0 message logs only itself |
| ModulesManager.DeliverAll | src/messenger/messenger.ts:41-43 | delivering in order changes only the modules' own state; when every delivered message has rank 0 nothing new is logged |
| ModulesManager.PublishAll | src/messenger/messenger.ts:39-44 | successive emissions log the messages in order when none nests |
| ModulesManager.PublishWithoutNesting | src/messenger/messenger.ts:39-44 | a message whose listeners publish nothing is logged, then handled by each listener in subscription order |
| ModulesManager.Construct | src/modules/module.ts:82 | `new X()` adds the object and subscribes it to its own topics, after the existing listeners; nothing else changes |
| ModulesManager.AddModule | src/modules/modules-manager.ts:57-62 | the stored record is loaded into the object, which is then registered under its name, replacing any earlier entry and leaving the other names alone |
| ModulesManager.AddModuleKeepsWellFormed | src/modules/modules-manager.ts:57-62 | after `addModule` every registry entry still names an object carrying that name, and every object is valid |
| ModulesManager.Register | src/modules/modules-manager.ts:47-50 | `addModule(new X())`: the loaded object is added and logged as loaded; a new name is appended to the registry |
| ModulesManager.RegisterLookup | src/modules/modules-manager.ts:61 | the last registration of a name wins; other names are unaffected |
| ModulesManager.RegisterSubscribes | src/modules/modules-manager.ts:47-50 | the new object listens to its own topics after the listeners already there |
| ModulesManager.RegisterKeepsWellFormed | src/modules/modules-manager.ts:47-50 | registration keeps the registry, bus and heap consistent |
| ModulesManager.StartOne | src/modules/modules-manager.ts:70 | `start()` is logged on the object; its publications change only module state and the log |
| ModulesManager.StartEach | src/modules/modules-manager.ts:68-71 | one `start` call per id, in order; bus, registry and store unchanged; the publication log only grows |
| ModulesManager.StartEachKeepsWellFormed | src/modules/modules-manager.ts:68-71 | starting modules keeps the system consistent |
| ModulesManager.StartModules | src/modules/modules-manager.ts:68-71 | every registered module is started exactly once, in registration order |
| ModulesManager.CreateWebServerRoutes | src/modules/modules-manager.ts:76-117 | publishes GET `/modules`, then POST `/modules/:moduleName` |
| ModulesManager.ExportAll | src/modules/modules-manager.ts:131 | each setting's `toData`, in order |
| ModulesManager.ImportAll | src/modules/modules-manager.ts:101-103 | each posted entry is imported with `fromData`, in order |
| ModulesManager.ImportExport | src/modules/modules-manager.ts:101-131 | importing exported settings gives the settings back |
| ModulesManager.SettingsListing | src/modules/modules-manager.ts:127-132 | a name is listed exactly when its module has settings, and maps to their exported data in order |
| ModulesManager.ModulesSettings | src/modules/modules-manager.ts:123-135 | `getModulesSettings`: for every registered name, its listing as above; unregistered names are absent |
| ModulesManager.UpdateModuleSettings | src/modules/modules-manager.ts:95-115 | unknown name: nothing changes. Known name: the posted settings (none without a body) are applied, then saved, then restarted, in that order; only that module and its record change |
| ModulesManager.ApplySettings | src/modules/modules-manager.ts:99-109 | `setSettings`, `save`, `restart` on one object, logged in that order, publishing only what `restart` publishes |
| ModulesManager.RestartOnlyLogged | src/modules/modules-manager.ts:108 | a module's `restart()` publishes what it publishes and nothing reacts to it: only the log grows |
| ModulesManager.UpdateKeepsWellFormed | src/modules/modules-manager.ts:95-115 | the POST callback keeps the system consistent |
| ModulesManager.RepostListedSettings | src/modules/modules-manager.ts:95-135 | posting back what GET `/modules` lists for a module leaves every module object as it was |
| ModulesManager.AuthRedirect | src/modules/twitch-auth/twitch-auth.ts:166-195 | success: the authentication object takes the token, validates the scopes, publishes the token and is saved with it. Failure, or no authentication object: nothing changes |
| ModulesManager.GrantToken | src/modules/twitch-auth/twitch-auth.ts:180-189 | the success branch: new token, available scopes = required scopes, one `tw_token` published, the record saved with the token |
| ModulesManager.AuthRedirectKeepsWellFormed | src/modules/twitch-auth/twitch-auth.ts:166-195 | the token exchange keeps the system consistent |
| ModulesManager.RouteAdded | src/modules/web-server/web-server.ts:44-47 | a route published while the web server is the only listener is added to its routes |
| ModulesManager.Constructed | src/modules/modules-manager.ts:24-31 | the manager after its constructor's synchronous part: one object, the web server, nothing registered |
| ModulesManager.WithWebServer | src/modules/modules-manager.ts:47 | after the web server's registration: one object, registered under "Web Server" at position 0 |
| ModulesManager.Registered | src/modules/modules-manager.ts:45-51 | after `registerModules`: four objects, the store untouched |
| ModulesManager.Boot | src/modules/modules-manager.ts:24-40 | after construction and start: four objects, the store untouched, and the registration's publications kept as a prefix of the log |
| ModulesManager.ConstructedHeap | src/modules/modules-manager.ts:24-31 | the web server holds the manager's two routes before it is registered |
| ModulesManager.ConstructedLog | src/modules/modules-manager.ts:24-31 | before registration nothing is registered or called, the two routes are published, and only the web server listens |
| ModulesManager.WithWebServerHeap | src/modules/modules-manager.ts:47 | once registered, the web server is the only object, loaded and holding the two routes |
| ModulesManager.RegisterAllHeap | src/modules/modules-manager.ts:45-51 | registering appends the loaded objects in order and publishes nothing |
| ModulesManager.RegisterAllCalls | src/modules/modules-manager.ts:45-51 | registering logs one load per module, in order |
| ModulesManager.RegisterAllRegistry | src/modules/modules-manager.ts:45-51 | modules with distinct new names are appended to the registry in order |
| ModulesManager.RegisterAllBus | src/modules/modules-manager.ts:45-51 | each registered module listens to its topics, after the listeners already there |
| ModulesManager.RegisterAllKeepsWellFormed | src/modules/modules-manager.ts:45-51 | registering valid modules keeps the system consistent |
| ModulesManager.RegisteredHeap | src/modules/modules-manager.ts:45-51 | after `registerModules` the heap is the loaded web server (with its routes), then the other three loaded modules |
| ModulesManager.RegisteredRegistry | src/modules/modules-manager.ts:45-51 | the registry is Web Server, Twitch Authentication, Twitch Tchat, GG, in that order, at positions 0 to 3 |
| ModulesManager.RegisteredCalls | src/modules/modules-manager.ts:45-51 | each module is loaded once, in order, and only the two routes are published |
| ModulesManager.RegisteredBus | src/modules/modules-manager.ts:45-51 | after registration each topic has the listener the constructors subscribed, and no other |
| ModulesManager.ChatThroughGG | src/modules/gg/gg.ts:21-35 | a `tw_message` heard by GG alone is logged, then followed by exactly GG's answer, and no module object changes |
| ModulesManager.ChatWithBootBus | src/messenger/messenger.ts:39-44 | with the subscriptions made at boot, a `tw_message` reaches GG alone, nested in which GG's `ws_send_on_stream` reaches nobody |
| ModulesManager.ChatAfterRegistration | src/modules/gg/gg.ts:21-35 | after `registerModules`, a chat message is logged followed by exactly what the registered GG object answers, and the objects are unchanged |
| ModulesManager.RegisteredGG | src/modules/modules-manager.ts:45-51 | the fourth registered object is the GG module |
| ModulesManager.BootWellFormed | src/modules/modules-manager.ts:24-40 | the whole construction, registration and start keep the system consistent |
| ModulesManager.StartAfterLoad | src/modules/modules-manager.ts:68-71 | after the four loads, starting logs the four starts in registry order after them |
| ModulesManager.BootCalls | src/modules/modules-manager.ts:36-40 | the four modules are loaded, then each started exactly once, both in registration order |
| Streams.New | src/modules/web-server/stream.ts:20-24 | the given name and no client |
| Streams.AddClient | src/modules/web-server/stream.ts:29-32 | the client is appended; the others and the name are kept |
| Streams.IndexOf | src/modules/web-server/stream.ts:40 | `indexOf`: the first position of the client, or -1 exactly when it is absent |
| Streams.SpliceOne | src/modules/web-server/stream.ts:41 | `splice(start, 1)`: removes the element at `start`, counted from the end when negative; past either end it clamps |
| Streams.RemoveClientAsWritten | src/modules/web-server/stream.ts:38-42 | as written: a present client shortens the list by one; an absent one makes the last client go; an empty stream is unchanged |
| Streams.RemoveClient | src/modules/web-server/stream.ts:38-42 | as intended: an absent client changes nothing; a present one is removed once, and all other clients are kept |
| Streams.Emit | src/modules/web-server/stream.ts:48-53 | every client receives the message exactly once, in list order |
| Streams.RemovePresentClient | src/modules/web-server/stream.ts:38-42 | removing a present client drops its first occurrence and keeps the rest in order; the written and intended versions agree |
| Streams.RemoveAbsentDropsLast | src/modules/web-server/stream.ts:40-41 | as written, removing client 3 from [1, 2] disconnects client 2 |
| Streams.RemoveAfterAdd | src/modules/web-server/stream.ts:29-42 | removing a client just added, when it was not there before, restores the stream |
| Streams.RemoveAsWrittenShrinks | src/modules/web-server/stream.ts:38-42 | as written, removing from a non-empty stream always drops one client, present or not |
| Streams.EmitAfterAdd | src/modules/web-server/stream.ts:29-53 | a client added last receives each later message last |

## Left out

- Fastify, CORS, `listen`, route installation and request extraction. A route is only its URL, method and which callback it runs. The HTTP status codes and response bodies of the management routes are not modelled either.
- The `fetch` to the Twitch token endpoint, its client secret, JSON decoding and `console.log`. Its outcome is the `TokenResponse` parameter of `ModulesManager.AuthRedirect`.
- The tmi.js client and the network. A connection attempt is recorded with its credentials. A chat message becomes a `tw_message` through `TwitchTchatModule.ChatMessage`.
- QuickDB: the store is a finite map from name to record.
- `Promise.all` and other asynchrony. Starts run one after the other. No listener publishes after an `await` within its own delivery, so sequential delivery matches what JavaScript does. The `tw_token` listener awaits the chat client's `connect` (`src/modules/twitch-tchat/twitch-tchat.ts:75`) before installing the handler that publishes `tw_message` (line 87). That later `tw_message` enters as a separate event through `TwitchTchatModule.ChatMessage`. Exceptions thrown by listeners are not modelled.
- The bootstrap in `src/application/bot-core.ts`: its `restart` listener that exits the process, and `openStreams`. `restart` messages only appear in the publication log.
- `ws_add_stream` and `ws_send_on_stream` have no listener among the four modules. Publishing them only logs them.
- `JSON.stringify` of GG's payload: the payload is a structured record.
- `client.sse`: a delivery becomes an entry in a log.
- Numbers.ParseInt: leading whitespace, signs, radix prefixes and fractional text are not modelled. Ports are non-negative integers or NaN.
- UriEncoding.EncodeURIComponent: Dafny characters are Unicode scalar values, so the `URIError` JavaScript throws on a lone surrogate cannot arise.
- Numbers.DecimalString: a port is an unbounded natural number. JavaScript numbers are doubles, and from 1e21 up `toString` prints exponent notation (`"1e+21"`), which this function does not produce.
- Numbers.DigitsOfDecimal: holds for every natural number, but it speaks for JavaScript only where `toString` prints plain digits, below 1e21.
- Numbers.ParseDigits: `parseInt` on a digit string whose value exceeds 2^53 rounds to the nearest double. The model returns the exact value.
- Numbers.ParseToString: for JavaScript this holds only for integers that doubles represent exactly and that print without an exponent, so below 2^53. The model has no such bound, and that limit is not modelled.
- Settings.NumberRoundTrip: follows Numbers.ParseToString, so for JavaScript it speaks only of ports below 2^53.
- Settings.DigitsAsNumber: follows Numbers.ParseDigits. A digit string whose value exceeds 2^53 reads back rounded in JavaScript, but exact in the model.
- Topic identity: the model treats an enum member and the string spelling of its name as one topic. In the source, `MessageType` is a numeric enum (`src/messenger/message-type.ts:1-10`). `Messenger` keys its `Map` by the value passed (`src/messenger/messenger.ts:10`, `26-31`, `41`). `Module.addListener` and `Module.emit` pass any key through (`src/modules/module.ts:82`, `89`). Some call sites use enum members and others strings, so at runtime `0` and `"restart"` are different keys. Only `tw_require_scope`, `tw_token` and `tw_message` are consistent, with strings on both sides. As written, three emissions would reach no listener. The manager's routes, emitted as `MessageType.WS_ADD_ROUTE` (`src/modules/modules-manager.ts:79`, `92`), do reach the web server, which listens with the same enum member (`src/modules/web-server/web-server.ts:44`). The authentication module's route, however, is emitted as the string `"ws_add_route"` (`src/modules/twitch-auth/twitch-auth.ts:116`), so as written it would never be installed, and its GET `/twitch/auth` callback would never run. The web server's `MessageType.WS_INFO` (`src/modules/web-server/web-server.ts:168`) would not reach the `"ws_info"` listener of `src/modules/twitch-auth/twitch-auth.ts:55`. Its `MessageType.RESTART` (`src/modules/web-server/web-server.ts:124`) would not reach the `"restart"` listener of `src/application/bot-core.ts:21`. The model delivers all three, as the names evidently intend. These members rely on this identification: `TwitchAuthModule.Start`, whose route reaches the web server only through it; `ModulesManager.AuthRedirect`, the callback of that route; and `ModulesManager.RegisteredBus` and the lemmas built on it.
- GGModule.OnChat: the reward is read from `GG_REWARD` once, when the GG object is constructed, and kept in its state. The source reads `process.env.GG_REWARD` on every `tw_message` (`src/modules/gg/gg.ts:22`), so a change of the variable while the bot runs is not modelled.
- TwitchAuthModule.GetLink: the client id is read from the environment when the module is constructed. The source reads `TWITCH_CLIENT_ID` on every call.
- TwitchAuthModule.GetLink: the contract fixes only the empty case and the endpoint prefix, not the exact query string.
- ModulesManager.BootCalls: the contract does not state the module states or the full publication log after the modules have started. It states only the lifecycle calls and consistency, and, through `RegisteredBus`, who listens to what.
- ModulesManager.AuthRedirect: `daoModule.save` is not awaited in the source. The model saves right after the token has been delivered.

## Findings

| source | as written | input that shows it | evidently intended | confidence | as-written member | corrected member |
|---|---|---|---|---|---|---|
| src/modules/web-server/stream.ts:38-42 | `clients.splice(clients.indexOf(client), 1)`: `indexOf` returns -1 for an absent client, and `splice(-1, 1)` removes the last element | clients `[1, 2]`, remove client `3`: the result is `[1]` | removing a client that is not connected changes nothing | not executed | Streams.RemoveClientAsWritten, Streams.RemoveAbsentDropsLast | Streams.RemoveClient, Streams.RemoveAfterAdd |
