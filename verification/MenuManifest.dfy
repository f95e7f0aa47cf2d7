/** A module manifest as the menu, the dependency graph and the build read it: the same text of the `depends`
    field, of which the build keeps the blank items that the other two drop. */
module MenuManifest {

  predicate IsSpace(c: char) {
    c == ' ' || c == '\t' || c == '\n' || c == '\r' || c == '\U{000b}' || c == '\U{000c}'
  }

  function StripLeft(s: string): string {
    if s != [] && IsSpace(s[0]) then StripLeft(s[1..]) else s
  }

  function StripRight(s: string): string {
    if s != [] && IsSpace(s[|s| - 1]) then StripRight(s[..|s| - 1]) else s
  }

  function Strip(s: string): string {
    StripRight(StripLeft(s))
  }

  /** The pieces between the commas; a text without commas is one piece. */
  function Split(text: string): (items: seq<string>)
    ensures items != []
  {
    if text == [] then [[]]
    else if text[0] == ',' then [[]] + Split(text[1..])
    else
      var rest := Split(text[1..]);
      [[text[0]] + rest[0]] + rest[1..]
  }

  function StripAll(items: seq<string>): seq<string> {
    if items == [] then [] else [Strip(items[0])] + StripAll(items[1..])
  }

  function NonBlank(items: seq<string>): seq<string> {
    if items == [] then []
    else if items[0] == [] then NonBlank(items[1..])
    else [items[0]] + NonBlank(items[1..])
  }

  /** A manifest, reduced to its configuration name and the text of its `depends` field, empty if there is none. */
  datatype Entry = Entry(config: string, depends: string)
  {
    /** What the menu and the dependency graph use. */
    function Depends(): seq<string> {
      NonBlank(StripAll(Split(depends)))
    }

    /** What the build checks one by one, once the module is enabled. */
    function Checked(): seq<string> {
      if depends == [] then [] else StripAll(Split(depends))
    }

    predicate HasBlank() {
      "" in Checked()
    }

    lemma DependsAreChecked()
      ensures forall d :: d in Depends() <==> d in Checked() && d != ""
    {
      NonBlankKeeps(StripAll(Split(depends)));
      if depends == [] {
        assert StripAll([[]]) == [[]];
        assert Split(depends) == [[]];
      }
    }
  }

  lemma {:induction false} NonBlankKeeps(items: seq<string>)
    ensures forall d :: d in NonBlank(items) <==> d in items && d != ""
  {
    if items != [] {
      NonBlankKeeps(items[1..]);
      assert items == [items[0]] + items[1..];
    }
  }
}
