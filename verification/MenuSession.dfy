/** The menu as the program keeps it: one enabled flag per module, updated in place. */
module MenuSession {
  import opened SysTypes
  import opened MenuConfig
  import opened MenuManifest
  import opened MenuText
  import opened Menu

  lemma EnabledAt(mods: seq<Entry>, on: seq<bool>, i: nat)
    requires |on| == |mods| && i < |mods| && Distinct(Configs(mods))
    ensures mods[i].config in EnabledSet(mods, on) <==> on[i]
  {
    if mods[i].config in EnabledSet(mods, on) {
      var j :| 0 <= j < |mods| && on[j] && mods[j].config == mods[i].config;
      DistinctIndex(Configs(mods), i, j);
    }
  }

  class ConfigMenu {
    const mods: seq<Entry>
    const on: array<bool>
    var selected: nat
    var dirty: bool
    var asking: bool
    var done: bool
    var files: seq<seq<string>>

    ghost predicate Valid()
      reads this
    {
      on.Length == |mods| && Distinct(Configs(mods)) && selected < |mods|
    }

    ghost function Enabled(): set<string>
      requires on.Length == |mods|
      reads on
    {
      EnabledSet(mods, on[..])
    }

    ghost function View(): State
      requires on.Length == |mods|
      reads this, on
    {
      State(Enabled(), selected, dirty, asking, done, files)
    }

    constructor (mods: seq<Entry>, defaults: seq<bool>)
      requires mods != [] && |defaults| == |mods| && Distinct(Configs(mods))
      ensures Valid() && this.mods == mods && fresh(on)
      ensures View() == State(EnabledSet(mods, defaults), 0, false, false, false, [])
    {
      this.mods := mods;
      on := new bool[|mods|](i requires 0 <= i < |mods| => defaults[i]);
      selected, dirty, asking, done, files := 0, false, false, false, [];
      new;
      assert on[..] == defaults;
    }

    method ReadValues(lines: seq<string>) returns (r: Read)
      ensures r == ReadFrom(lines, map[])
    {
      hide ParseLine;
      var values: map<string, bool> := map[];
      assert lines[0..] == lines;
      for i := 0 to |lines|
        invariant ReadFrom(lines, map[]) == ReadFrom(lines[i..], values)
      {
        assert lines[i..][0] == lines[i] && lines[i..][1..] == lines[i + 1..];
        match ParseLine(lines[i]) {
          case Ignored =>
          case Value(config, flag) => values := values[config := flag];
          case Invalid(line) => return ReadError(line);
        }
      }
      return ReadOk(values);
    }

    /** load_config; a refused file leaves the flags as they were. */
    method LoadConfig(file: Option<seq<string>>) returns (r: Loaded)
      requires Valid()
      modifies on
      ensures match Load(mods, old(Enabled()), file)
              case Loaded(s) => r.Loaded? && Enabled() == s
              case BadLine(line) => r == BadLine(line) && Enabled() == old(Enabled())
              case UnknownEntries(cs) => r == UnknownEntries(cs) && Enabled() == old(Enabled())
    {
      if file.Some? {
        var read := ReadValues(file.value);
        if read.ReadError? {
          return BadLine(read.line);
        }
        var known := set c | c in Configs(mods);
        assert known == Elems(Configs(mods));
        if read.values.Keys - known != {} {
          return UnknownEntries(read.values.Keys - known);
        }
        ApplyValues(read.values);
      }
      Normalize(mods, on);
      return Loaded({});
    }

    method ApplyValues(values: map<string, bool>)
      requires Valid()
      modifies on
      ensures Enabled() == Apply(mods, old(Enabled()), values)
    {
      for i := 0 to |mods|
        invariant forall j :: i <= j < |mods| ==> on[j] == old(on[j])
        invariant forall j :: 0 <= j < i ==>
                    on[j] == if mods[j].config in values then values[mods[j].config] else old(on[j])
      {
        if mods[i].config in values {
          on[i] := values[mods[i].config];
        }
      }
      AppliedFlags(values, old(on[..]));
    }

    lemma {:induction false} AppliedFlags(values: map<string, bool>, was: seq<bool>)
      requires Valid() && |was| == |mods|
      requires forall j :: 0 <= j < |mods| ==> on[j] == if mods[j].config in values then values[mods[j].config] else was[j]
      ensures Enabled() == Apply(mods, EnabledSet(mods, was), values)
    {
      forall m | m in mods
        ensures m.config in Enabled() <==> m.config in Apply(mods, EnabledSet(mods, was), values)
      {
        var j :| 0 <= j < |mods| && mods[j] == m;
        EnabledAt(mods, on[..], j);
        EnabledAt(mods, was, j);
        forall n | n in mods && n.config == m.config
          ensures n == m
        {
          SameEntry(mods, n, m);
        }
      }
    }

    method SaveConfig()
      requires Valid()
      modifies this`files, on
      ensures Valid() && View() == Save(mods, old(View()))
    {
      Normalize(mods, on);
      var lines := HEADER;
      ghost var s := Enabled();
      for i := 0 to |mods|
        invariant files == old(files) && Enabled() == s && lines == HEADER + ConfigLines(mods, s)[..i]
      {
        EnabledAt(mods, on[..], i);
        lines := lines + [ConfigLine(mods[i].config, on[i])];
        assert ConfigLines(mods, s)[..i + 1] == ConfigLines(mods, s)[..i] + [ConfigLines(mods, s)[i]];
      }
      assert ConfigLines(mods, s)[..|mods|] == ConfigLines(mods, s);
      files := files + [lines];
    }

    /** The space bar. */
    method ToggleSelected()
      requires Valid()
      modifies this`dirty, on
      ensures Valid()
      ensures var m := mods[selected];
              View() == if m.config !in old(Enabled()) && !Satisfied(m.Depends(), old(Enabled())) then old(View())
                        else old(View()).(on := Toggle(mods, old(Enabled()), m), dirty := true)
    {
      EnabledAt(mods, on[..], selected);
      if !on[selected] {
        var enabled := EnabledMap(mods, on);
        assert Lacks(enabled, mods[selected].Depends()) <==> !Satisfied(mods[selected].Depends(), Enabled());
        if Lacks(enabled, mods[selected].Depends()) {
          return;
        }
      }
      if on[selected] {
        SwitchOff(mods, on[..], selected);
      } else {
        SwitchOn(mods, on[..], selected);
      }
      on[selected] := !on[selected];
      assert on[..] == old(on[..])[selected := on[selected]];
      Normalize(mods, on);
      dirty := true;
    }

    method PressKey(key: Key)
      requires Valid() && !done
      modifies this, on
      ensures Valid() && View() == Press(mods, old(View()), key)
    {
      hide Normal, Toggle, SaveLines, EnabledSet;
      if asking {
        asking := false;
        match key {
          case Escape => done := true;
          case SaveKey =>
            SaveConfig();
            done := true;
          case _ =>
        }
        return;
      }
      match key {
        case Up => selected := if selected == 0 then 0 else selected - 1;
        case Down => selected := if selected + 1 < |mods| then selected + 1 else selected;
        case Space => ToggleSelected();
        case SaveKey =>
          SaveConfig();
          dirty := false;
        case Escape =>
          if dirty {
            asking := true;
          } else {
            done := true;
          }
        case Other =>
      }
    }

    /** run_menu over the keys the user presses, until the menu is left. */
    method Run(keys: seq<Key>)
      requires Valid()
      modifies this, on
      ensures Valid() && View() == PressAll(mods, old(View()), keys)
    {
      hide Press, EnabledSet;
      assert keys[0..] == keys;
      for i := 0 to |keys|
        invariant Valid() && PressAll(mods, old(View()), keys) == PressAll(mods, View(), keys[i..])
      {
        assert keys[i..][0] == keys[i] && keys[i..][1..] == keys[i + 1..];
        if !done {
          PressKey(keys[i]);
        } else {
          DoneStays(mods, View(), keys[i]);
        }
      }
    }
  }

  lemma DoneStays(mods: seq<Entry>, st: State, key: Key)
    requires st.selected < |mods| && st.done
    ensures Press(mods, st, key) == st
  {
  }
}
