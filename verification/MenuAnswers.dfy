/** What the menu's texts and keys mean: the lines of a configuration file, what a load makes of a whole file, and what
    every key changes, including what has been saved when nothing is reported unsaved. */
module MenuAnswers {
  import opened SysTypes
  import opened MenuConfig
  import opened MenuManifest
  import opened MenuText
  import opened Menu

  // ----- texts

  ghost predicate AllSpace(s: string) {
    forall i :: 0 <= i < |s| ==> IsSpace(s[i])
  }

  lemma {:induction false} StripLeftIs(s: string) returns (left: string)
    ensures AllSpace(left) && s == left + StripLeft(s)
    ensures StripLeft(s) != [] ==> !IsSpace(StripLeft(s)[0])
  {
    left := [];
    if s != [] && IsSpace(s[0]) {
      var rest := StripLeftIs(s[1..]);
      left := [s[0]] + rest;
    }
  }

  lemma {:induction false} StripRightIs(s: string) returns (right: string)
    ensures AllSpace(right) && s == StripRight(s) + right
    ensures StripRight(s) != [] ==> !IsSpace(StripRight(s)[|StripRight(s)| - 1])
  {
    right := [];
    if s != [] && IsSpace(s[|s| - 1]) {
      var rest := StripRightIs(s[..|s| - 1]);
      right := rest + [s[|s| - 1]];
    }
  }

  /** Stripping cuts white space off both ends and leaves none there. */
  lemma StripIs(s: string) returns (left: string, right: string)
    ensures AllSpace(left) && AllSpace(right) && s == left + Strip(s) + right
    ensures Strip(s) != [] ==> !IsSpace(Strip(s)[0]) && !IsSpace(Strip(s)[|Strip(s)| - 1])
  {
    left := StripLeftIs(s);
    right := StripRightIs(StripLeft(s));
    assert StripLeft(s) == Strip(s) + right;
    if Strip(s) != [] {
      assert StripLeft(s)[0] == Strip(s)[0];
    }
  }

  function Joined(items: seq<string>): string
    requires items != []
  {
    if |items| == 1 then items[0] else items[0] + "," + Joined(items[1..])
  }

  /** The pieces have no commas in them and, joined by commas, give the text back. */
  lemma {:induction false} SplitIs(text: string)
    ensures Joined(Split(text)) == text
    ensures forall i :: 0 <= i < |Split(text)| ==> ',' !in Split(text)[i]
  {
    if text != [] {
      SplitIs(text[1..]);
      var rest := Split(text[1..]);
      if text[0] == ',' {
        assert Split(text)[1..] == rest;
        assert Joined(Split(text)) == [] + "," + Joined(rest);
      } else {
        assert Split(text)[0] == [text[0]] + rest[0] && Split(text)[1..] == rest[1..];
        assert Joined(Split(text)) == [text[0]] + Joined(rest);
      }
    }
  }

  lemma {:induction false} StripAllIs(items: seq<string>)
    ensures |StripAll(items)| == |items| && forall i :: 0 <= i < |items| ==> StripAll(items)[i] == Strip(items[i])
  {
    if items != [] {
      StripAllIs(items[1..]);
    }
  }

  /** One of the pieces, stripped, is `d`. */
  ghost predicate HasPiece(items: seq<string>, d: string) {
    exists i :: 0 <= i < |items| && Strip(items[i]) == d
  }

  /** A module depends on the stripped pieces of its `depends` text that are not blank. */
  lemma DependsAre(m: Entry, d: string)
    ensures d in m.Depends() <==> d != "" && HasPiece(Split(m.depends), d)
  {
    hide Strip, Split;
    var items := Split(m.depends);
    StripAllIs(items);
    NonBlankKeeps(StripAll(items));
    if d in StripAll(items) {
      var i :| 0 <= i < |items| && StripAll(items)[i] == d;
      assert Strip(items[i]) == d;
    }
    if HasPiece(items, d) {
      var i :| 0 <= i < |items| && Strip(items[i]) == d;
      assert StripAll(items)[i] == d;
    }
  }

  // ----- lines

  lemma SetLine(line: string)
    requires StartsWith(line, SET_PREFIX) && EndsWith(line, SET_SUFFIX)
    ensures line == ConfigLine(Middle(line, |SET_PREFIX|, |SET_SUFFIX|), true)
  {
    assert line[|line| - 2..][0] == SET_SUFFIX[0] == '=';
    assert forall k :: 0 <= k < 7 ==> line[k] == SET_PREFIX[k] != '=';
  }

  lemma UnsetLine(line: string)
    requires StartsWith(line, UNSET_PREFIX) && EndsWith(line, UNSET_SUFFIX)
    ensures line == ConfigLine(Middle(line, |UNSET_PREFIX|, |UNSET_SUFFIX|), false)
  {
    var n := |line| - 11;
    assert line[n..][0] == UNSET_SUFFIX[0] == ' ' && line[n..][1] == UNSET_SUFFIX[1] == 'i';
    assert forall k :: 0 <= k < 9 ==> line[k] == UNSET_PREFIX[k] != 'i';
    assert line[8] == '_';
  }

  lemma ConfigLineParts(config: string)
    ensures var set_ := ConfigLine(config, true);
            StartsWith(set_, SET_PREFIX) && EndsWith(set_, SET_SUFFIX) && Middle(set_, |SET_PREFIX|, |SET_SUFFIX|) == config
    ensures var unset := ConfigLine(config, false);
            && StartsWith(unset, UNSET_PREFIX) && EndsWith(unset, UNSET_SUFFIX) && !StartsWith(unset, SET_PREFIX)
            && Middle(unset, |UNSET_PREFIX|, |UNSET_SUFFIX|) == config
  {
    assert UNSET_PREFIX[0] == '#' && SET_PREFIX[0] == 'C';
  }

  /** Stripped, the line is the one printed for some module switched on. */
  ghost predicate SetsSome(line: string) {
    exists config :: line == ConfigLine(config, true)
  }

  /** A line sets a module exactly if, stripped, it is the line printed for it; it is invalid exactly if it starts like one
      that switches a module on and is none. */
  lemma LineMeans(raw: string, config: string, on: bool)
    ensures ParseLine(raw) == Value(config, on) <==> Strip(raw) == ConfigLine(config, on)
    ensures ParseLine(raw).Invalid? <==> SET_PREFIX <= Strip(raw) && !SetsSome(Strip(raw))
    ensures ParseLine(raw).Invalid? ==> ParseLine(raw).line == Strip(raw)
  {
    hide ConfigLine, Middle, EndsWith, Strip;
    var line := Strip(raw);
    if StartsWith(line, SET_PREFIX) && EndsWith(line, SET_SUFFIX) {
      SetLine(line);
    } else if StartsWith(line, UNSET_PREFIX) && EndsWith(line, UNSET_SUFFIX) {
      UnsetLine(line);
    }
    ConfigLineParts(config);
    if SetsSome(line) {
      var c :| line == ConfigLine(c, true);
      ConfigLineParts(c);
    }
  }

  // ----- files

  /** The line sets this module, on or off. */
  ghost predicate About(line: string, config: string) {
    ParseLine(line).Value? && ParseLine(line).config == config
  }

  ghost predicate Touches(lines: seq<string>, config: string) {
    exists i :: 0 <= i < |lines| && About(lines[i], config)
  }

  /** Line `i` is the last one about `config`, and sets it to `on`. */
  ghost predicate LastSets(lines: seq<string>, i: nat, config: string, on: bool) {
    && i < |lines| && ParseLine(lines[i]) == Value(config, on)
    && forall j :: i < j < |lines| ==> !About(lines[j], config)
  }

  ghost predicate Sets(lines: seq<string>, config: string, on: bool) {
    exists i: nat :: LastSets(lines, i, config, on)
  }

  lemma {:induction false} SetsByHead(lines: seq<string>, config: string, on: bool)
    requires lines != []
    ensures Touches(lines, config) <==> About(lines[0], config) || Touches(lines[1..], config)
    ensures Sets(lines, config, on) <==>
              Sets(lines[1..], config, on) || (ParseLine(lines[0]) == Value(config, on) && !Touches(lines[1..], config))
  {
    hide ParseLine;
    var rest := lines[1..];
    if Sets(rest, config, on) {
      var i: nat :| LastSets(rest, i, config, on);
      assert LastSets(lines, i + 1, config, on);
    }
    if Sets(lines, config, on) {
      var i: nat :| LastSets(lines, i, config, on);
      if i > 0 {
        assert LastSets(rest, i - 1, config, on);
      }
    }
    if Touches(rest, config) {
      var i :| 0 <= i < |rest| && About(rest[i], config);
      assert About(lines[i + 1], config);
    }
    if ParseLine(lines[0]) == Value(config, on) && !Touches(rest, config) {
      assert LastSets(lines, 0, config, on);
    }
  }

  /** Whether `config` ends up as `on`: the last line about it says so, or there is none and it was so before. */
  ghost predicate Decides(lines: seq<string>, values: map<string, bool>, after: map<string, bool>, config: string, on: bool) {
    (config in after && after[config] == on) <==>
      Sets(lines, config, on) || (!Touches(lines, config) && config in values && values[config] == on)
  }

  lemma {:induction false} DecidesByHead(lines: seq<string>, values: map<string, bool>, next: map<string, bool>,
                                         after: map<string, bool>, config: string, on: bool)
    requires lines != [] && !ParseLine(lines[0]).Invalid?
    requires next == match ParseLine(lines[0]) case Value(c, b) => values[c := b] case _ => values
    requires Decides(lines[1..], next, after, config, on)
    ensures Decides(lines, values, after, config, on)
  {
    hide ParseLine, LastSets, Sets, Touches;
    SetsByHead(lines, config, on);
  }

  ghost predicate AllDecided(lines: seq<string>, values: map<string, bool>, after: map<string, bool>) {
    forall c, on :: Decides(lines, values, after, c, on)
  }

  lemma {:induction false} AllDecidedByHead(lines: seq<string>, values: map<string, bool>, next: map<string, bool>,
                                            after: map<string, bool>)
    requires lines != [] && !ParseLine(lines[0]).Invalid?
    requires next == match ParseLine(lines[0]) case Value(c, b) => values[c := b] case _ => values
    requires AllDecided(lines[1..], next, after)
    ensures AllDecided(lines, values, after)
  {
    hide Decides;
    forall c: string, on: bool
      ensures Decides(lines, values, after, c, on)
    {
      DecidesByHead(lines, values, next, after, c, on);
    }
  }

  /** The first invalid line is reported; without one, the last line about a module decides, and a module no line is
      about keeps its value. */
  lemma {:induction false} ReadIs(lines: seq<string>, values: map<string, bool>)
    ensures match ReadFrom(lines, values)
            case ReadError(line) =>
              exists i :: 0 <= i < |lines| && ParseLine(lines[i]) == Invalid(line)
                          && forall j :: 0 <= j < i ==> !ParseLine(lines[j]).Invalid?
            case ReadOk(after) =>
              && (forall i :: 0 <= i < |lines| ==> !ParseLine(lines[i]).Invalid?)
              && AllDecided(lines, values, after)
    decreases |lines|
  {
    hide ParseLine, AllDecided;
    if lines == [] {
      NothingDecides(lines, values);
    } else if !ParseLine(lines[0]).Invalid? {
      var rest := lines[1..];
      var next := match ParseLine(lines[0]) case Value(c, on) => values[c := on] case _ => values;
      ReadIs(rest, next);
      match ReadFrom(rest, next)
      case ReadError(line) =>
        var i :| 0 <= i < |rest| && ParseLine(rest[i]) == Invalid(line)
                 && forall j :: 0 <= j < i ==> !ParseLine(rest[j]).Invalid?;
        assert ParseLine(lines[i + 1]) == Invalid(line);
      case ReadOk(after) =>
        AllDecidedByHead(lines, values, next, after);
    }
  }

  lemma {:induction false} NothingDecides(lines: seq<string>, values: map<string, bool>)
    requires lines == []
    ensures AllDecided(lines, values, values)
  {
    forall c: string, on: bool
      ensures Decides(lines, values, values, c, on)
    {
    }
  }

  lemma NoLastSet(config: string, on: bool)
    ensures !Sets([], config, on)
  {
  }

  lemma {:induction false} TouchedIsSet(lines: seq<string>, config: string)
    ensures Touches(lines, config) <==> Sets(lines, config, true) || Sets(lines, config, false)
    decreases |lines|
  {
    hide ParseLine, LastSets;
    if lines == [] {
      NoLastSet(config, true);
      NoLastSet(config, false);
      assert lines == [];
    } else {
      SetsByHead(lines, config, true);
      SetsByHead(lines, config, false);
      TouchedIsSet(lines[1..], config);
    }
  }

  /** The modules a file asks for: those it sets last, and those it does not mention and that were enabled before. */
  ghost function Chosen(mods: seq<Entry>, s: set<string>, lines: seq<string>): set<string> {
    set c | c in Configs(mods) && (Sets(lines, c, true) || (!Touches(lines, c) && c in s))
  }

  lemma {:induction false} AppliedIsChosen(mods: seq<Entry>, s: set<string>, lines: seq<string>, values: map<string, bool>)
    requires ReadFrom(lines, map[]) == ReadOk(values)
    ensures Apply(mods, s, values) == Chosen(mods, s, lines)
    ensures forall c :: c in values <==> Touches(lines, c)
  {
    hide ParseLine, LastSets, Touches, Sets, ReadFrom;
    ReadIs(lines, map[]);
    forall c: string
      ensures c in values <==> Touches(lines, c)
      ensures Sets(lines, c, true) <==> c in values && values[c]
    {
      TouchedIsSet(lines, c);
      assert Decides(lines, map[], values, c, true) && Decides(lines, map[], values, c, false);
    }
    forall c: string
      ensures c in Apply(mods, s, values) <==> c in Chosen(mods, s, lines)
    {
      if c in Configs(mods) {
        var i :| 0 <= i < |mods| && Configs(mods)[i] == c;
        assert mods[i] in mods && mods[i].config == c;
      }
      if m :| m in mods && m.config == c {
        var i :| 0 <= i < |mods| && mods[i] == m;
        assert Configs(mods)[i] == c;
      }
    }
  }

  /** What a load makes of a file: the first invalid line, the unknown modules it sets, or the greatest closed part of the
      modules it asks for. */
  lemma LoadIs(mods: seq<Entry>, s: set<string>, lines: seq<string>)
    ensures match Load(mods, s, Some(lines))
            case BadLine(line) =>
              exists i :: 0 <= i < |lines| && ParseLine(lines[i]) == Invalid(line)
                          && forall j :: 0 <= j < i ==> !ParseLine(lines[j]).Invalid?
            case UnknownEntries(cs) =>
              && (forall i :: 0 <= i < |lines| ==> !ParseLine(lines[i]).Invalid?)
              && cs != {} && forall c :: c in cs <==> Touches(lines, c) && c !in Configs(mods)
            case Loaded(on) =>
              && (forall i :: 0 <= i < |lines| ==> !ParseLine(lines[i]).Invalid?)
              && (forall c :: Touches(lines, c) ==> c in Configs(mods))
              && Supports(mods, Chosen(mods, s, lines), on)
              && forall t :: Supports(mods, Chosen(mods, s, lines), t) ==> t <= on
  {
    hide ParseLine, LastSets, Touches, Sets, ReadFrom, Chosen, Apply, Normal, Supports;
    ReadIs(lines, map[]);
    match ReadFrom(lines, map[])
    case ReadError(_) =>
    case ReadOk(values) =>
      AppliedIsChosen(mods, s, lines, values);
      NormalIsGreatest(mods, Chosen(mods, s, lines));
      var unknown := values.Keys - Elems(Configs(mods));
      assert forall c :: c in unknown <==> Touches(lines, c) && c !in Configs(mods);
  }

  /** A missing file leaves the greatest closed part of what was enabled. */
  lemma MissingFileIs(mods: seq<Entry>, s: set<string>)
    ensures var r := Load(mods, s, None);
            r.Loaded? && Supports(mods, s, r.on) && forall t :: Supports(mods, s, t) ==> t <= r.on
  {
    NormalIsGreatest(mods, s);
  }

  // ----- keys

  /** A load turns the file into exactly this set, whatever was enabled before. */
  ghost predicate Loads(mods: seq<Entry>, file: seq<string>, on: set<string>) {
    forall before :: Load(mods, before, Some(file)) == Loaded(on)
  }

  ghost predicate LastLoads(mods: seq<Entry>, files: seq<seq<string>>, on: set<string>) {
    files != [] && Loads(mods, files[|files| - 1], on)
  }

  /** S writes exactly one file, outside and inside the question, and no other key writes any. */
  lemma KeySaves(mods: seq<Entry>, st: State, key: Key)
    requires Sane(mods, st) && !st.done
    ensures var st' := Press(mods, st, key);
            && (key.SaveKey? ==>
                  && |st'.files| == |st.files| + 1 && st'.files[..|st.files|] == st.files
                  && st'.on == st.on && LastLoads(mods, st'.files, st.on))
            && (!key.SaveKey? ==> st'.files == st.files)
  {
    if key.SaveKey? {
      SaveKeepsSane(mods, st);
      forall before: set<string>
        ensures Load(mods, before, Some(SaveLines(mods, st.on))) == Loaded(st.on)
      {
        SaveLoadRoundTrip(mods, st.on, before);
      }
    }
  }

  /** Outside the question the space bar enables exactly the selected module if its dependencies are, and disables exactly
      it and the modules that need it; otherwise, and on every other key, the enabled modules stay as they are. */
  lemma KeyToggles(mods: seq<Entry>, st: State, key: Key)
    requires Sane(mods, st) && Distinct(Configs(mods)) && !st.done
    ensures var (st', m) := (Press(mods, st, key), mods[st.selected]);
            if !key.Space? || st.asking then st'.on == st.on
            else if m.config in st.on then
              st'.dirty && forall x :: x in st'.on <==> x in st.on && !Needs(mods, x, m.config)
            else if Satisfied(m.Depends(), st.on) then
              st'.dirty && st'.on == st.on + {m.config}
            else st' == st
  {
    var m := mods[st.selected];
    if key.Space? && !st.asking {
      if m.config in st.on {
        forall x: string
          ensures x in Toggle(mods, st.on, m) <==> x in st.on && !Needs(mods, x, m.config)
        {
          DisableDropsDependents(mods, st.on, m, x);
        }
      } else if Satisfied(m.Depends(), st.on) {
        EnableTouchesOne(mods, st.on, m);
      }
    } else if key.SaveKey? {
      SaveKeepsSane(mods, st);
    }
  }

  /** The cursor stays within the list; a change makes the session dirty and S makes it clean again; it ends by Escape with
      nothing unsaved, or by Escape or S when asked. */
  lemma KeyMoves(mods: seq<Entry>, st: State, key: Key)
    requires Sane(mods, st) && Distinct(Configs(mods)) && !st.done
    ensures var st' := Press(mods, st, key);
            && (st'.done <==> if st.asking then key.Escape? || key.SaveKey? else key.Escape? && !st.dirty)
            && (st'.asking <==> !st.asking && key.Escape? && st.dirty)
            && (st'.dirty <==> if st.asking then st.dirty else (st.dirty || st'.on != st.on) && !key.SaveKey?)
            && (key.Up? && !st.asking ==> st'.selected == Clamp(st.selected - 1, |mods| - 1))
            && (key.Down? && !st.asking ==> st'.selected == Clamp(st.selected + 1, |mods| - 1))
            && ((!key.Up? && !key.Down?) || st.asking ==> st'.selected == st.selected)
  {
    KeyToggles(mods, st, key);
    SelfNeeds(mods, mods[st.selected].config);
  }

  /** The nearest number from 0 to `top`. */
  function Clamp(i: int, top: nat): nat {
    if i < 0 then 0 else if i > top then top else i
  }

  /** When nothing is reported unsaved, the enabled modules are those of the start, or the newest file holds them. */
  ghost predicate NothingUnsaved(mods: seq<Entry>, first: State, st: State) {
    !st.dirty ==> (st.on == first.on && st.files == first.files) || LastLoads(mods, st.files, st.on)
  }

  lemma PressKeepsSaved(mods: seq<Entry>, first: State, st: State, key: Key)
    requires Sane(mods, st) && NothingUnsaved(mods, first, st)
    ensures NothingUnsaved(mods, first, Press(mods, st, key))
  {
    hide LastLoads, Closed, GoodFile;
    if !st.done {
      KeySaves(mods, st, key);
    }
  }

  lemma {:induction false} SessionSaves(mods: seq<Entry>, first: State, st: State, keys: seq<Key>)
    requires Sane(mods, st) && NothingUnsaved(mods, first, st)
    ensures NothingUnsaved(mods, first, PressAll(mods, st, keys))
    decreases |keys|
  {
    hide Press, Sane, NothingUnsaved;
    SaneSelected(mods, st);
    if keys != [] {
      PressKeepsSaved(mods, first, st, keys[0]);
      PressKeepsSane(mods, st, keys[0]);
      SaneSelected(mods, Press(mods, st, keys[0]));
      SessionSaves(mods, first, Press(mods, st, keys[0]), keys[1..]);
    }
  }

  /** After any keys, a session that reports nothing unsaved has its enabled modules in its newest file, unless it has
      saved nothing and enables what it enabled at first. */
  lemma NothingIsLost(mods: seq<Entry>, st: State, keys: seq<Key>)
    requires Sane(mods, st) && !st.dirty
    ensures var st' := PressAll(mods, st, keys);
            !st'.dirty ==> (st'.on == st.on && st'.files == st.files) || LastLoads(mods, st'.files, st'.on)
  {
    hide PressAll, Sane, LastLoads;
    SessionSaves(mods, st, st, keys);
  }

  lemma OtherConfigs(mods: seq<Entry>)
    requires mods != [] && Distinct(Configs(mods))
    ensures Distinct(Configs(mods[1..]))
    ensures forall j :: 0 <= j < |mods| - 1 ==> mods[1..][j].config != mods[0].config
  {
    var (all, rest) := (Configs(mods), Configs(mods[1..]));
    forall k | 0 <= k < |rest|
      ensures rest[k] !in rest[..k] && rest[k] != all[0]
    {
      DistinctPair(all, 0, k + 1);
      forall i | 0 <= i < k
        ensures rest[..k][i] != rest[k]
      {
        DistinctPair(all, i + 1, k + 1);
      }
    }
  }

  /** The graph that is validated maps each module to the dependencies the menu works with. */
  lemma {:induction false} GraphIs(mods: seq<Entry>)
    requires Distinct(Configs(mods))
    ensures forall c :: c in GraphOf(mods) <==> c in Configs(mods)
    ensures forall i :: 0 <= i < |mods| ==> mods[i].config in GraphOf(mods) && GraphOf(mods)[mods[i].config] == mods[i].Depends()
  {
    hide Distinct, Entry.Depends;
    if mods != [] {
      var rest := mods[1..];
      assert Configs(mods) == [mods[0].config] + Configs(rest);
      OtherConfigs(mods);
      GraphIs(rest);
      forall i | 0 < i < |mods|
        ensures mods[i].config in GraphOf(rest) && GraphOf(rest)[mods[i].config] == mods[i].Depends()
        ensures mods[i].config != mods[0].config
      {
        assert mods[i] == rest[i - 1];
      }
    }
  }

  // ----- the build

  /** The dependency at `j` of an enabled module at `i` is not met, and everything before it is. */
  ghost predicate FirstUnmet(mods: seq<Entry>, s: set<string>, i: nat, j: nat) {
    && i < |mods| && mods[i].config in s && j < |mods[i].Checked()|
    && mods[i].Checked()[j] !in s
    && (forall k :: 0 <= k < j ==> mods[i].Checked()[k] in s)
    && (forall k :: 0 <= k < i && mods[k].config in s ==> Satisfied(mods[k].Checked(), s))
  }

  lemma {:induction false} BuildDepsNames(configs: seq<string>, config: string, deps: seq<string>, s: set<string>)
    requires forall c :: c in s ==> c in configs
    ensures match BuildDeps(configs, config, deps, s)
            case None => Satisfied(deps, s)
            case Some(error) =>
              exists j :: 0 <= j < |deps| && deps[j] !in s && (forall k :: 0 <= k < j ==> deps[k] in s)
                          && error == if deps[j] in configs then Requires(config, deps[j]) else UnknownDependency(config, deps[j])
  {
    if deps != [] && deps[0] in s {
      assert deps == [deps[0]] + deps[1..];
      BuildDepsNames(configs, config, deps[1..], s);
      if BuildDeps(configs, config, deps[1..], s).Some? {
        var rest := deps[1..];
        var j :| 0 <= j < |rest| && rest[j] !in s && (forall k :: 0 <= k < j ==> rest[k] in s)
                 && BuildDeps(configs, config, rest, s).value
                      == if rest[j] in configs then Requires(config, rest[j]) else UnknownDependency(config, rest[j]);
        assert deps[j + 1] == rest[j];
        assert forall k :: 1 <= k < j + 1 ==> deps[k] == rest[k - 1];
      }
    }
  }

  lemma UnmetLater(mods: seq<Entry>, s: set<string>, i: nat, j: nat)
    requires mods != [] && FirstUnmet(mods[1..], s, i, j) && (mods[0].config in s ==> Satisfied(mods[0].Checked(), s))
    ensures i + 1 < |mods| && mods[i + 1] == mods[1..][i] && FirstUnmet(mods, s, i + 1, j)
  {
    assert forall k :: 1 <= k < i + 1 ==> mods[k] == mods[1..][k - 1];
  }

  /** A refusal of the build names the first unmet dependency of the first enabled module that has one, and says whether
      there is such a module at all. */
  lemma {:induction false} BuildNames(configs: seq<string>, mods: seq<Entry>, s: set<string>)
    requires forall c :: c in s ==> c in configs
    ensures match BuildCheck(configs, mods, s)
            case None => forall m :: m in mods && m.config in s ==> Satisfied(m.Checked(), s)
            case Some(error) =>
              exists i: nat, j: nat :: FirstUnmet(mods, s, i, j) && error ==
                if mods[i].Checked()[j] in configs then Requires(mods[i].config, mods[i].Checked()[j])
                else UnknownDependency(mods[i].config, mods[i].Checked()[j])
  {
    hide Satisfied;
    if mods != [] {
      assert mods == [mods[0]] + mods[1..];
      var deps := mods[0].Checked();
      var here := if mods[0].config in s then BuildDeps(configs, mods[0].config, deps, s) else None;
      BuildDepsNames(configs, mods[0].config, deps, s);
      if here.Some? {
        var j: nat :| j < |deps| && deps[j] !in s && (forall k :: 0 <= k < j ==> deps[k] in s)
                      && here.value == if deps[j] in configs then Requires(mods[0].config, deps[j])
                                       else UnknownDependency(mods[0].config, deps[j]);
        assert FirstUnmet(mods, s, 0, j);
      } else {
        var rest := mods[1..];
        BuildNames(configs, rest, s);
        if BuildCheck(configs, rest, s).Some? {
          var i: nat, j: nat :| FirstUnmet(rest, s, i, j) && BuildCheck(configs, rest, s).value ==
            if rest[i].Checked()[j] in configs then Requires(rest[i].config, rest[i].Checked()[j])
            else UnknownDependency(rest[i].config, rest[i].Checked()[j]);
          UnmetLater(mods, s, i, j);
        }
      }
    }
  }
}
