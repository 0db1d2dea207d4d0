/**
 * The behaviour every module shares: a name and a `required` flag fixed at
 * construction, an `enabled` flag that a required module can never lose,
 * the persisted record, and the "Enabled" setting.
 */
module ModuleBase {
  import opened Wrappers
  import opened Numbers
  import opened Settings

  /**
   * A persisted module record. `enabled` is always present; the other
   * fields belong to particular modules and may be absent. An absent
   * `enabled` reads as false, as the missing field of a JavaScript object does.
   */
  datatype Record = Record(
    enabled: bool,
    uri: Option<string>,
    port: Option<Number>,
    token: Option<string>,
    availableScopes: Option<seq<string>>)

  /** The record holding only the shared `enabled` field. */
  function EnabledRecord(enabled: bool): Record
  {
    Record(enabled, None, None, None, None)
  }

  /** The fields of the base class. */
  datatype Base = Base(name: string, required: bool, enabled: bool)

  /** A module: the shared fields together with the state of one concrete module. */
  datatype Module<S> = Module(base: Base, state: S)

  /** A required module is always enabled. */
  predicate Valid(b: Base)
  {
    b.required ==> b.enabled
  }

  /** Name of the setting that switches a module on and off. */
  const EnabledName: string := "Enabled"

  /** A freshly constructed module is enabled exactly when it is required. */
  function New(name: string, required: bool): (b: Base)
    ensures b.name == name && b.required == required
    ensures b.enabled == required
    ensures Valid(b)
  {
    Base(name, required, required)
  }

  /**
   * Imports a record: the module is enabled when it is required or the
   * record says so, so the invariant holds afterwards whatever held before.
   */
  function FromData(b: Base, r: Record): (b': Base)
    ensures b'.name == b.name && b'.required == b.required
    ensures Valid(b')
    ensures !b.required ==> b'.enabled == r.enabled
  {
    b.(enabled := b.required || r.enabled)
  }

  /** Exports the record; a required module always exports itself as enabled. */
  function ToData(b: Base): (r: Record)
    ensures b.required ==> r.enabled
    ensures Valid(b) ==> r.enabled == b.enabled
    ensures r.uri.None? && r.port.None? && r.token.None? && r.availableScopes.None?
  {
    EnabledRecord(b.required || b.enabled)
  }

  /** Importing what a valid module exports changes nothing. */
  lemma DataRoundTrip(b: Base)
    requires Valid(b)
    ensures FromData(b, ToData(b)) == b
  {
  }

  /** One "Enabled" boolean setting for an optional module, none for a required one. */
  function GetSettings(b: Base): (ss: seq<Setting>)
    ensures b.required ==> ss == []
    ensures !b.required ==> |ss| == 1 && ss[0].name == EnabledName && ss[0].kind == Boolean
    ensures !b.required ==> AsBoolean(ss[0]) == b.enabled
  {
    if b.required then [] else [BooleanSetting(EnabledName, b.enabled)]
  }

  /** The `switch` inside `setSettings`: only "Enabled" is acted upon. */
  function ApplySetting(b: Base, s: Setting): (b': Base)
    ensures b'.name == b.name && b'.required == b.required
    ensures s.name != EnabledName ==> b' == b
    ensures s.name == EnabledName ==> b'.enabled == (b.required || AsBoolean(s))
    ensures Valid(b) || s.name == EnabledName ==> Valid(b')
  {
    if s.name == EnabledName then b.(enabled := b.required || AsBoolean(s)) else b
  }

  /**
   * Applies the settings in order. Only settings named "Enabled" matter;
   * the last of them decides, and a required module stays enabled.
   */
  function SetSettings(b: Base, ss: seq<Setting>): (b': Base)
    ensures b'.name == b.name && b'.required == b.required
    ensures Last(ss, EnabledName).None? ==> b'.enabled == b.enabled
    ensures Last(ss, EnabledName).Some? ==>
      b'.enabled == (b.required || AsBoolean(Last(ss, EnabledName).value))
    ensures Valid(b) ==> Valid(b')
    decreases |ss|
  {
    if |ss| == 0 then b
    else ApplySetting(SetSettings(b, ss[..|ss| - 1]), ss[|ss| - 1])
  }

  /** Applying the settings a valid module reports changes nothing. */
  lemma SetGetSettings(b: Base)
    requires Valid(b)
    ensures SetSettings(b, GetSettings(b)) == b
  {
    if !b.required {
      var ss := GetSettings(b);
      assert Last(ss, EnabledName) == Some(ss[0]);
    }
  }

  /** Settings under other names leave the module as it was. */
  lemma OtherNamesIgnored(b: Base, ss: seq<Setting>)
    requires forall i :: 0 <= i < |ss| ==> ss[i].name != EnabledName
    ensures SetSettings(b, ss) == b
  {
  }
}
