/** The configuration file as lines of text: printing a set of enabled modules and reading it back. */
module MenuText {
  import opened SysTypes
  import opened MenuConfig
  import opened MenuManifest

  const COMMENT := "# "
  const TITLE := COMMENT + "Automatically generated from module manifests."
  const HEADER := [TITLE, ""]
  const SET_PREFIX := "CONFIG_"
  const SET_SUFFIX := "=y"
  const UNSET_PREFIX := "# CONFIG_"
  const UNSET_SUFFIX := " is not set"

  predicate StartsWith(s: string, prefix: string) {
    prefix <= s
  }

  predicate EndsWith(s: string, suffix: string) {
    |suffix| <= |s| && s[|s| - |suffix|..] == suffix
  }

  /** s[from:-to], which is empty when the two cuts meet. */
  function Middle(s: string, from: nat, to: nat): string {
    if from + to <= |s| then s[from..|s| - to] else []
  }

  // ----- printing

  function ConfigLine(config: string, on: bool): string {
    if on then SET_PREFIX + config + SET_SUFFIX else UNSET_PREFIX + config + UNSET_SUFFIX
  }

  function ConfigLines(mods: seq<Entry>, s: set<string>): (r: seq<string>)
    ensures |r| == |mods|
  {
    seq(|mods|, i requires 0 <= i < |mods| => ConfigLine(mods[i].config, mods[i].config in s))
  }

  function SaveLines(mods: seq<Entry>, s: set<string>): seq<string> {
    HEADER + ConfigLines(mods, s)
  }

  // ----- reading

  datatype Parsed = Ignored | Value(config: string, on: bool) | Invalid(line: string)

  function ParseLine(raw: string): Parsed {
    var line := Strip(raw);
    if StartsWith(line, SET_PREFIX) && EndsWith(line, SET_SUFFIX) then
      Value(Middle(line, |SET_PREFIX|, |SET_SUFFIX|), true)
    else if StartsWith(line, UNSET_PREFIX) && EndsWith(line, UNSET_SUFFIX) then
      Value(Middle(line, |UNSET_PREFIX|, |UNSET_SUFFIX|), false)
    else if StartsWith(line, SET_PREFIX) then Invalid(line)
    else Ignored
  }

  datatype Read = ReadOk(values: map<string, bool>) | ReadError(line: string)

  function ReadFrom(lines: seq<string>, values: map<string, bool>): Read {
    if lines == [] then ReadOk(values)
    else match ParseLine(lines[0])
         case Ignored => ReadFrom(lines[1..], values)
         case Value(config, on) => ReadFrom(lines[1..], values[config := on])
         case Invalid(line) => ReadError(line)
  }

  /** What a configuration file makes of the enabled modules; `None` is a missing file. */
  datatype Loaded = Loaded(on: set<string>) | BadLine(line: string) | UnknownEntries(configs: set<string>)

  ghost function Load(mods: seq<Entry>, s: set<string>, file: Option<seq<string>>): Loaded {
    match file
    case None => Loaded(Normal(mods, s))
    case Some(lines) =>
      match ReadFrom(lines, map[])
      case ReadError(line) => BadLine(line)
      case ReadOk(values) =>
        var configs := Elems(Configs(mods));
        if values.Keys - configs != {} then UnknownEntries(values.Keys - configs)
        else Loaded(Normal(mods, Apply(mods, s, values)))
  }

  ghost function Apply(mods: seq<Entry>, s: set<string>, values: map<string, bool>): set<string> {
    set m | m in mods && (if m.config in values then values[m.config] else m.config in s) :: m.config
  }

  // ----- the round trip

  lemma NoStripNeeded(s: string)
    requires s != [] && !IsSpace(s[0]) && !IsSpace(s[|s| - 1])
    ensures Strip(s) == s
  {
  }

  /** A printed line reads back as exactly the module and the flag it was printed for, whatever the name. */
  lemma LineReadsBack(config: string, on: bool)
    ensures ParseLine(ConfigLine(config, on)) == Value(config, on)
  {
    var line := ConfigLine(config, on);
    NoStripNeeded(line);
    if on {
      assert line[..|SET_PREFIX|] == SET_PREFIX;
      assert line[|line| - |SET_SUFFIX|..] == SET_SUFFIX;
      assert line[|SET_PREFIX|..|line| - |SET_SUFFIX|] == config;
    } else {
      assert line[0] == '#';
      assert !StartsWith(line, SET_PREFIX);
      assert line[..|UNSET_PREFIX|] == UNSET_PREFIX;
      assert line[|line| - |UNSET_SUFFIX|..] == UNSET_SUFFIX;
      assert line[|UNSET_PREFIX|..|line| - |UNSET_SUFFIX|] == config;
    }
  }

  lemma HeaderIsIgnored()
    ensures ParseLine(HEADER[0]) == Ignored && ParseLine(HEADER[1]) == Ignored
  {
    assert TITLE[0] == '#' && TITLE[|TITLE| - 1] == '.';
    NoStripNeeded(TITLE);
    assert UNSET_SUFFIX[|UNSET_SUFFIX| - 1] == 't';
    assert !StartsWith(TITLE, SET_PREFIX) && !EndsWith(TITLE, UNSET_SUFFIX);
  }

  /** The values read from the lines of `mods`, on top of earlier ones. */
  function Values(mods: seq<Entry>, s: set<string>, values: map<string, bool>): map<string, bool> {
    if mods == [] then values
    else Values(mods[1..], s, values[mods[0].config := mods[0].config in s])
  }

  lemma {:induction false} LinesReadBack(mods: seq<Entry>, s: set<string>, values: map<string, bool>)
    ensures ReadFrom(ConfigLines(mods, s), values) == ReadOk(Values(mods, s, values))
    decreases |mods|
  {
    if mods != [] {
      var lines := ConfigLines(mods, s);
      LineReadsBack(mods[0].config, mods[0].config in s);
      assert lines[1..] == ConfigLines(mods[1..], s);
      LinesReadBack(mods[1..], s, values[mods[0].config := mods[0].config in s]);
    }
  }

  lemma {:induction false} ValuesAre(mods: seq<Entry>, s: set<string>, values: map<string, bool>)
    requires forall c :: c in values ==> values[c] == (c in s)
    ensures forall c :: c in Values(mods, s, values) ==> Values(mods, s, values)[c] == (c in s)
    ensures forall c :: c in Values(mods, s, values) <==> c in values || c in Configs(mods)
    decreases |mods|
  {
    if mods != [] {
      ValuesAre(mods[1..], s, values[mods[0].config := mods[0].config in s]);
      assert Configs(mods) == [mods[0].config] + Configs(mods[1..]);
    }
  }

  /** Loading a saved configuration gives back exactly the saved modules, whatever was enabled before. */
  lemma SaveLoadRoundTrip(mods: seq<Entry>, s: set<string>, before: set<string>)
    requires Closed(mods, s) && forall c :: c in s ==> c in Configs(mods)
    ensures Load(mods, before, Some(SaveLines(mods, s))) == Loaded(s)
  {
    var lines, values := SaveLines(mods, s), Values(mods, s, map[]);
    HeaderIsIgnored();
    assert lines[1..][1..] == ConfigLines(mods, s);
    LinesReadBack(mods, s, map[]);
    ValuesAre(mods, s, map[]);
    assert ReadFrom(lines, map[]) == ReadFrom(lines[1..], map[]) == ReadFrom(lines[1..][1..], map[]);
    assert values.Keys - Elems(Configs(mods)) == {};
    AppliedIs(mods, s, before, values);
    NormalOfClosed(mods, s);
  }

  lemma {:induction false} AppliedIs(mods: seq<Entry>, s: set<string>, before: set<string>, values: map<string, bool>)
    requires forall c :: c in values <==> c in Configs(mods)
    requires forall c :: c in values ==> values[c] == (c in s)
    requires forall c :: c in s ==> c in Configs(mods)
    ensures Apply(mods, before, values) == s
  {
    forall c | c in s
      ensures c in Apply(mods, before, values)
    {
      var i :| 0 <= i < |mods| && Configs(mods)[i] == c;
      assert mods[i] in mods && mods[i].config in values;
    }
    forall m | m in mods
      ensures m.config in values
    {
      var i :| 0 <= i < |mods| && mods[i] == m;
      assert Configs(mods)[i] == m.config;
    }
  }

  /** A loaded configuration is always closed, or the load is refused. */
  lemma LoadedIsClosed(mods: seq<Entry>, s: set<string>, file: Option<seq<string>>)
    ensures var r := Load(mods, s, file);
            r.Loaded? ==> Closed(mods, r.on)
  {
    NormalIsGreatest(mods, s);
    if file.Some? && ReadFrom(file.value, map[]).ReadOk? {
      NormalIsGreatest(mods, Apply(mods, s, ReadFrom(file.value, map[]).values));
    }
  }
}
