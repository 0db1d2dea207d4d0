/**
 * Module settings: a name, a value always stored as text, and a type tag.
 * Typed factories encode values canonically and typed accessors decode them.
 */
module Settings {
  import opened Wrappers
  import opened Strings
  import opened Numbers

  /** The four kinds of setting, shown as "text", "link", "boolean" and "tags" on the wire. */
  datatype SettingType = Text | Link | Boolean | Tags

  /** The wire shape of a setting: `{name, value, type}`. */
  datatype SettingData = SettingData(name: string, value: string, kind: SettingType)

  /** A setting as the modules hold it. */
  datatype Setting = Setting(name: string, value: string, kind: SettingType)

  /** The separator `asTags` splits on and `tagsSetting` joins with. */
  const TagSeparator: char := ','

  /** Exports a setting: name, value and type are copied unchanged. */
  function ToData(s: Setting): (d: SettingData)
    ensures d.name == s.name && d.value == s.value && d.kind == s.kind
  {
    SettingData(s.name, s.value, s.kind)
  }

  /** Builds a setting from its wire shape; exporting it again gives the same data. */
  function FromData(d: SettingData): (s: Setting)
    ensures ToData(s) == d
  {
    Setting(d.name, d.value, d.kind)
  }

  /** Importing what a setting exports gives the same setting back. */
  lemma ExportImport(s: Setting)
    ensures FromData(ToData(s)) == s
  {
  }

  /** True exactly for the stored text "true"; every other value, "True" and "1" included, is false. */
  function AsBoolean(s: Setting): (b: bool)
    ensures b <==> s.value == "true"
  {
    s.value == "true"
  }

  /** The stored text, unchanged. */
  function AsText(s: Setting): (t: string)
    ensures t == s.value
  {
    s.value
  }

  /** `parseInt` of the stored text: NaN unless it starts with a digit, the value of an all-digit text. */
  function AsNumber(s: Setting): (x: Number)
    ensures x.NaN? <==> |s.value| == 0 || !IsDigit(s.value[0])
    ensures |s.value| > 0 && AllDigits(s.value) ==> x == Num(DigitsValue(s.value))
  {
    ParseInt(s.value)
  }

  /** The comma-separated pieces of the stored text: at least one, none holding a comma, and joined back they give the text. */
  function AsTags(s: Setting): (tags: seq<string>)
    ensures |tags| >= 1 && NoSeparator(tags, TagSeparator)
    ensures Join(tags, TagSeparator) == s.value
  {
    JoinSplit(s.value, TagSeparator);
    Split(s.value, TagSeparator)
  }

  /** A text setting: the value is stored verbatim and read back unchanged. */
  function TextSetting(name: string, value: string): (s: Setting)
    ensures s.name == name && s.kind == Text
    ensures AsText(s) == value
  {
    Setting(name, value, Text)
  }

  /** A link setting: the value is stored verbatim and read back unchanged. */
  function LinkSetting(name: string, value: string): (s: Setting)
    ensures s.name == name && s.kind == Link
    ensures AsText(s) == value
  {
    Setting(name, value, Link)
  }

  /** A boolean setting: stored as "true" or "false", read back as the given flag. */
  function BooleanSetting(name: string, value: bool): (s: Setting)
    ensures s.name == name && s.kind == Boolean
    ensures s.value == "true" || s.value == "false"
    ensures AsBoolean(s) == value
  {
    Setting(name, if value then "true" else "false", Boolean)
  }

  /**
   * A tags setting: the tags joined with commas. They read back unchanged
   * when there is at least one and none contains a comma; no tags read back
   * as one empty tag.
   */
  function TagsSetting(name: string, tags: seq<string>): (s: Setting)
    ensures s.name == name && s.kind == Tags
    ensures |tags| > 0 && NoSeparator(tags, TagSeparator) ==> AsTags(s) == tags
    ensures tags == [] ==> AsTags(s) == [""]
  {
    SplitJoin(tags, TagSeparator);
    Setting(name, Join(tags, TagSeparator), Tags)
  }

  /** Any string that is not exactly "true" reads as false, whatever its type tag. */
  lemma OnlyTrueIsTrue(name: string, value: string, kind: SettingType)
    ensures AsBoolean(Setting(name, value, kind)) <==> value == BooleanSetting(name, true).value
  {
  }

  /** A number written with `toString` into a text setting reads back as the same number. */
  lemma NumberRoundTrip(name: string, x: Number)
    ensures AsNumber(TextSetting(name, ToString(x))) == x
  {
    ParseToString(x);
  }

  /** A setting built from a decimal digit string reads back as that string's value. */
  lemma DigitsAsNumber(name: string, digits: string)
    requires |digits| > 0 && AllDigits(digits)
    ensures AsNumber(TextSetting(name, digits)) == Num(DigitsValue(digits))
  {
    ParseDigits(digits);
  }

  /**
   * The last setting called `name`: the one a `forEach` over the list that
   * assigns on every match leaves in effect.
   */
  function Last(ss: seq<Setting>, name: string): (r: Option<Setting>)
    ensures r.None? <==> forall i :: 0 <= i < |ss| ==> ss[i].name != name
    ensures r.Some? ==> r.value.name == name
    ensures r.Some? ==> exists i :: 0 <= i < |ss| && ss[i] == r.value && forall j :: i < j < |ss| ==> ss[j].name != name
  {
    if |ss| == 0 then None
    else if ss[|ss| - 1].name == name then Some(ss[|ss| - 1])
    else
      var r := Last(ss[..|ss| - 1], name);
      assert forall j :: 0 <= j < |ss| - 1 ==> ss[..|ss| - 1][j] == ss[j];
      r
  }

  /** Settings appended under other names do not change which one is the last called `name`. */
  lemma {:induction false} LastSkips(ss: seq<Setting>, extra: seq<Setting>, name: string)
    requires forall i :: 0 <= i < |extra| ==> extra[i].name != name
    ensures Last(ss + extra, name) == Last(ss, name)
    decreases |extra|
  {
    if |extra| > 0 {
      var all := ss + extra;
      var front := extra[..|extra| - 1];
      assert all[|all| - 1] == extra[|extra| - 1];
      assert Last(all, name) == Last(all[..|all| - 1], name);
      assert all[..|all| - 1] == ss + front;
      assert forall i :: 0 <= i < |front| ==> front[i] == extra[i];
      LastSkips(ss, front, name);
    } else {
      assert ss + extra == ss;
    }
  }
}
