/** The lines of the settings file as the macOS settings window reads and edits them:
    `ConfigStore.parse` and `ConfigStore.replacing` of platform/macos/SettingsApp.swift. Editing
    one setting is a lens: it reads back, it leaves every other setting alone, and a second edit
    overwrites the first without a trace. */
module ConfigLines {
  import opened Options
  import opened TextLines

  /** Where a setting lives. */
  datatype Name = Name(section: string, key: string)

  // ---------------------------------------------------------------- trimming

  /** Foundation's CharacterSet.whitespaces: the space separators of Unicode and the tab. */
  predicate Blank(c: char) {
    || c == ' ' || c == '\t' || c == '\U{00A0}' || c == '\U{1680}' || '\U{2000}' <= c <= '\U{200A}'
    || c == '\U{202F}' || c == '\U{205F}' || c == '\U{3000}'
  }

  function TrimLeft(s: string): string {
    if s != "" && Blank(s[0]) then TrimLeft(s[1..]) else s
  }

  function TrimRight(s: string): string {
    if s != "" && Blank(s[|s| - 1]) then TrimRight(s[..|s| - 1]) else s
  }

  function Trim(s: string): string { TrimRight(TrimLeft(s)) }

  /** The spaces and tabs a line begins with. */
  function Indent(s: string): string {
    if s != "" && (s[0] == ' ' || s[0] == '\t') then [s[0]] + Indent(s[1..]) else ""
  }

  /** Not empty, and neither end would be trimmed. */
  predicate Trimmed(s: string) { s != "" && !Blank(s[0]) && !Blank(s[|s| - 1]) }

  // ---------------------------------------------------------------- one line

  datatype Line = Header(section: string) | Entry(key: string, value: string) | Other

  /** Where the first `=` is. */
  function FirstEquals(s: string): (i: nat)
    ensures i <= |s|
  {
    if s == "" || s[0] == '=' then 0 else 1 + FirstEquals(s[1..])
  }

  function Classify(raw: string): Line {
    var line := Trim(raw);
    if line != "" && line[0] == '[' && line[|line| - 1] == ']' then
      Header(if |line| < 2 then "" else line[1..|line| - 1])
    else
      var equals := FirstEquals(line);
      if equals == |line| then Other else Entry(Trim(line[..equals]), Trim(line[equals + 1..]))
  }

  /** A key and a value that can stand in a line. */
  predicate GoodKey(key: string) { Trimmed(key) && key[0] != '[' && '=' !in key && '\n' !in key }

  predicate GoodValue(value: string) { Trimmed(value) && '\n' !in value }

  predicate GoodName(name: Name) { GoodKey(name.key) && '\n' !in name.section }

  function Assignment(indent: string, key: string, value: string): string { indent + key + " = " + value }

  lemma {:induction false} TrimLeftIndent(raw: string, s: string)
    requires s != "" && !Blank(s[0])
    ensures TrimLeft(Indent(raw) + s) == s
    decreases |raw|
  {
    if raw != "" && (raw[0] == ' ' || raw[0] == '\t') {
      TrimLeftIndent(raw[1..], s);
      assert (Indent(raw) + s)[1..] == Indent(raw[1..]) + s;
    } else {
      assert Indent(raw) + s == s;
    }
  }

  lemma {:induction false} IndentOfIndent(raw: string, s: string)
    requires s != "" && !Blank(s[0])
    ensures Indent(Indent(raw) + s) == Indent(raw)
    decreases |raw|
  {
    if raw != "" && (raw[0] == ' ' || raw[0] == '\t') {
      IndentOfIndent(raw[1..], s);
      assert (Indent(raw) + s)[1..] == Indent(raw[1..]) + s;
    } else {
      assert Indent(raw) + s == s;
    }
  }

  lemma {:induction false} IndentBlank(raw: string)
    ensures '\n' !in Indent(raw)
  {
    if raw != "" { IndentBlank(raw[1..]); }
  }

  lemma {:induction false} FirstEqualsAt(key: string, rest: string)
    requires '=' !in key
    ensures FirstEquals(key + "=" + rest) == |key|
  {
    var s := key + "=" + rest;
    if key != "" {
      assert s[1..] == key[1..] + "=" + rest;
      FirstEqualsAt(key[1..], rest);
    }
  }

  lemma TrimTrimmed(s: string)
    requires Trimmed(s)
    ensures Trim(s) == s && Trim(s + " ") == s && Trim(" " + s) == s
  {
    assert (s + " ")[..|s|] == s;
    assert (" " + s)[1..] == s;
  }

  lemma AssignmentTrims(raw: string, key: string, value: string)
    requires GoodKey(key) && GoodValue(value)
    ensures var line := Assignment(Indent(raw), key, value);
            Trim(line) == key + " = " + value && Indent(line) == Indent(raw) && '\n' !in line
  {
    var s := key + " = " + value;
    assert Assignment(Indent(raw), key, value) == Indent(raw) + s;
    assert s[0] == key[0] && s[|s| - 1] == value[|value| - 1];
    TrimLeftIndent(raw, s);
    IndentOfIndent(raw, s);
    IndentBlank(raw);
    hide Blank;
  }

  lemma PairReads(line: string, key: string, value: string)
    requires GoodKey(key) && GoodValue(value) && Trim(line) == key + " = " + value
    ensures Classify(line) == Entry(key, value)
  {
    var s := Trim(line);
    assert s == (key + " ") + "=" + (" " + value);
    FirstEqualsAt(key + " ", " " + value);
    assert s[..|key| + 1] == key + " ";
    assert s[|key| + 2..] == " " + value;
    TrimTrimmed(key);
    TrimTrimmed(value);
    hide Trim, Blank, FirstEquals;
  }

  /** A line that `replacing` has written says what it was meant to say, and is indented as before. */
  lemma AssignmentReads(raw: string, key: string, value: string)
    requires GoodKey(key) && GoodValue(value)
    ensures var line := Assignment(Indent(raw), key, value);
            Classify(line) == Entry(key, value) && Indent(line) == Indent(raw) && '\n' !in line
  {
    hide *;
    AssignmentTrims(raw, key, value);
    PairReads(Assignment(Indent(raw), key, value), key, value);
  }

  lemma HeaderReads(section: string)
    ensures Classify("[" + section + "]") == Header(section)
  {
    var s := "[" + section + "]";
    assert s[1..|s| - 1] == section;
  }

  // ---------------------------------------------------------------- all lines

  function SectionAfter(lines: seq<string>, current: string): string {
    if lines == [] then current
    else SectionAfter(lines[1..], match Classify(lines[0]) case Header(s) => s case _ => current)
  }

  /** The values that lines give to `name`, in order; `parse` lets the last one win. */
  function Values(lines: seq<string>, current: string, name: Name): seq<string> {
    if lines == [] then []
    else match Classify(lines[0])
      case Header(s) => Values(lines[1..], s, name)
      case Entry(k, v) => (if Name(current, k) == name then [v] else []) + Values(lines[1..], current, name)
      case Other => Values(lines[1..], current, name)
  }

  function Behind(line: string, rest: Option<seq<string>>): Option<seq<string>> {
    if rest.None? then None else Some([line] + rest.value)
  }

  /** The lines with the first assignment to `name` overwritten, if there is one. */
  function Overwritten(lines: seq<string>, current: string, name: Name, value: string): Option<seq<string>> {
    if lines == [] then None
    else match Classify(lines[0])
      case Header(s) => Behind(lines[0], Overwritten(lines[1..], s, name, value))
      case Entry(k, _) =>
        if Name(current, k) == name then Some([Assignment(Indent(lines[0]), name.key, value)] + lines[1..])
        else Behind(lines[0], Overwritten(lines[1..], current, name, value))
      case Other => Behind(lines[0], Overwritten(lines[1..], current, name, value))
  }

  function Tail(s: seq<string>): seq<string> { if s == [] then [] else s[1..] }

  /** One line of the scan. */
  lemma OverwrittenStep(lines: seq<string>, current: string, name: Name, value: string)
    requires lines != []
    ensures var c := match Classify(lines[0]) case Header(s) => s case _ => current;
            var hit := Classify(lines[0]).Entry? && Name(current, Classify(lines[0]).key) == name;
            && Overwritten(lines, current, name, value)
               == (if hit then Some([Assignment(Indent(lines[0]), name.key, value)] + lines[1..])
                   else Behind(lines[0], Overwritten(lines[1..], c, name, value)))
            && Values(lines, current, name)
               == (if hit then [Classify(lines[0]).value] else []) + Values(lines[1..], c, name)
  {
    hide Classify, Assignment, Indent;
  }

  /** The first value is the new one; the other values of the same setting stay. */
  lemma {:induction false} OverwrittenValues(lines: seq<string>, current: string, name: Name, value: string)
    requires GoodName(name) && GoodValue(value)
    ensures var r := Overwritten(lines, current, name, value);
            && (r.None? <==> Values(lines, current, name) == [])
            && (r.Some? ==> Values(r.value, current, name) == [value] + Tail(Values(lines, current, name)))
  {
    hide Classify, Assignment, GoodKey, GoodValue, Indent;
    if lines != [] {
      var c := match Classify(lines[0]) case Header(s) => s case _ => current;
      OverwrittenValues(lines[1..], c, name, value);
      AssignmentReads(lines[0], name.key, value);
      OverwrittenStep(lines, current, name, value);
    }
  }

  lemma {:induction false} OverwrittenOthers(lines: seq<string>, current: string, name: Name, value: string,
                                             other: Name)
    requires GoodName(name) && GoodValue(value) && other != name && Overwritten(lines, current, name, value).Some?
    ensures Values(Overwritten(lines, current, name, value).value, current, other) == Values(lines, current, other)
  {
    hide Classify, Assignment, GoodKey, GoodValue, Indent;
    if lines != [] {
      var c := match Classify(lines[0]) case Header(s) => s case _ => current;
      AssignmentReads(lines[0], name.key, value);
      OverwrittenStep(lines, current, name, value);
      var r := Overwritten(lines, current, name, value).value;
      assert r == [r[0]] + r[1..];
      if !(Classify(lines[0]).Entry? && Name(current, Classify(lines[0]).key) == name) {
        OverwrittenOthers(lines[1..], c, name, value, other);
      }
    }
  }

  /** Overwriting again leaves no trace of the first time, line by line. */
  lemma {:induction false} OverwrittenTwice(lines: seq<string>, current: string, name: Name, v1: string, v2: string)
    requires GoodName(name) && GoodValue(v1) && Overwritten(lines, current, name, v1).Some?
    ensures Overwritten(Overwritten(lines, current, name, v1).value, current, name, v2)
            == Overwritten(lines, current, name, v2)
  {
    hide Classify, Assignment, GoodKey, GoodValue, Indent;
    if lines != [] {
      var c := match Classify(lines[0]) case Header(s) => s case _ => current;
      AssignmentReads(lines[0], name.key, v1);
      OverwrittenStep(lines, current, name, v1);
      OverwrittenStep(lines, current, name, v2);
      var r := Overwritten(lines, current, name, v1).value;
      assert r == [r[0]] + r[1..];
      OverwrittenStep(r, current, name, v2);
      if !(Classify(lines[0]).Entry? && Name(current, Classify(lines[0]).key) == name) {
        OverwrittenTwice(lines[1..], c, name, v1, v2);
      }
    }
  }

  lemma {:induction false} OverwrittenShape(lines: seq<string>, current: string, name: Name, value: string)
    requires GoodName(name) && GoodValue(value) && Overwritten(lines, current, name, value).Some?
    requires forall i :: 0 <= i < |lines| ==> Free(lines[i], '\n')
    ensures var r := Overwritten(lines, current, name, value).value;
            |r| == |lines| && forall i :: 0 <= i < |r| ==> Free(r[i], '\n')
  {
    hide Classify, Assignment, GoodKey, GoodValue, Indent;
    if lines != [] {
      var c := match Classify(lines[0]) case Header(s) => s case _ => current;
      AssignmentReads(lines[0], name.key, value);
      OverwrittenStep(lines, current, name, value);
      if !(Classify(lines[0]).Entry? && Name(current, Classify(lines[0]).key) == name) {
        OverwrittenShape(lines[1..], c, name, value);
      }
    }
  }

  lemma {:induction false} ValuesAppend(a: seq<string>, b: seq<string>, current: string, name: Name)
    ensures Values(a + b, current, name) == Values(a, current, name) + Values(b, SectionAfter(a, current), name)
    ensures SectionAfter(a + b, current) == SectionAfter(b, SectionAfter(a, current))
  {
    hide Classify;
    if a == [] {
      assert a + b == b;
    } else {
      assert (a + b)[1..] == a[1..] + b;
      ValuesAppend(a[1..], b, match Classify(a[0]) case Header(s) => s case _ => current, name);
    }
  }

  // ---------------------------------------------------------------- texts

  function Lines(text: string): seq<string> { SplitOn(text, '\n') }

  /** What a text says about one setting. */
  function ValuesIn(text: string, name: Name): seq<string> { Values(Lines(text), "", name) }

  function NewSection(name: Name, value: string): string {
    "\n[" + name.section + "]\n" + name.key + " = " + value + "\n"
  }

  function Replaced(text: string, name: Name, value: string): string {
    match Overwritten(Lines(text), "", name, value)
    case Some(lines) => JoinWith(lines, "\n")
    case None => text + NewSection(name, value)
  }

  lemma AppendedLines(text: string, name: Name, value: string)
    requires GoodName(name) && GoodValue(value)
    ensures Lines(text + NewSection(name, value))
            == Lines(text) + ["[" + name.section + "]", Assignment("", name.key, value), ""]
  {
    hide Overwritten, Values, Classify, Trim;
    var header, entry := "[" + name.section + "]", Assignment("", name.key, value);
    AssignmentReads("", name.key, value);
    assert text + NewSection(name, value) == text + ['\n'] + (header + ['\n'] + (entry + ['\n'] + ""));
    SplitAppend(text, '\n', header + ['\n'] + (entry + ['\n'] + ""));
    SplitAppend(header, '\n', entry + ['\n'] + "");
    SplitAppend(entry, '\n', "");
    SplitFree(header, '\n');
    SplitFree(entry, '\n');
    SplitFree("", '\n');
  }

  lemma ReplacedLines(text: string, name: Name, value: string)
    requires GoodName(name) && GoodValue(value)
    ensures var r := Overwritten(Lines(text), "", name, value);
            Lines(Replaced(text, name, value))
            == if r.Some? then r.value
               else Lines(text) + ["[" + name.section + "]", Assignment("", name.key, value), ""]
  {
    var r := Overwritten(Lines(text), "", name, value);
    if r.Some? {
      PartsFree(text, '\n');
      OverwrittenShape(Lines(text), "", name, value);
      SplitJoin(r.value, '\n');
    } else {
      AppendedLines(text, name, value);
    }
  }

  lemma AppendedValues(current: string, name: Name, value: string, n: Name)
    requires GoodName(name) && GoodValue(value)
    ensures Values(["[" + name.section + "]", Assignment("", name.key, value), ""], current, n)
            == if n == name then [value] else []
  {
    AssignmentReads("", name.key, value);
    HeaderReads(name.section);
    var last := [""];
    var two := [Assignment("", name.key, value), ""];
    var three := ["[" + name.section + "]", Assignment("", name.key, value), ""];
    assert three[1..] == two && two[1..] == last && last[1..] == [];
    assert Classify("") == Other && Indent("") == "";
    hide Classify, Assignment, GoodName, GoodValue, Indent, Overwritten;
    OverwrittenStep(three, current, n, value);
    OverwrittenStep(two, name.section, n, value);
    OverwrittenStep(last, name.section, n, value);
  }

  /** The lens laws of one edit: the first value of the setting is the new one, its other values and
      all other settings are as before. */
  lemma EditReads(text: string, name: Name, value: string, n: Name)
    requires GoodName(name) && GoodValue(value)
    ensures ValuesIn(Replaced(text, name, value), n)
            == if n == name then [value] + Tail(ValuesIn(text, name)) else ValuesIn(text, n)
  {
    hide Classify, Assignment, GoodName, GoodValue, Replaced, Overwritten, Values;
    ReplacedLines(text, name, value);
    var r := Overwritten(Lines(text), "", name, value);
    OverwrittenValues(Lines(text), "", name, value);
    if r.Some? {
      if n != name { OverwrittenOthers(Lines(text), "", name, value, n); }
    } else {
      var added := ["[" + name.section + "]", Assignment("", name.key, value), ""];
      ValuesAppend(Lines(text), added, "", n);
      AppendedValues(SectionAfter(Lines(text), ""), name, value, n);
    }
  }

  /** What `parse` sees is the last value. The new value is read back exactly when no later line
      gives the setting another one. */
  lemma ReadBack(text: string, name: Name, value: string)
    requires GoodName(name) && GoodValue(value)
    ensures var before, after := ValuesIn(text, name), ValuesIn(Replaced(text, name, value), name);
            after != [] && (after[|after| - 1] == value <==> |before| <= 1 || before[|before| - 1] == value)
  {
    hide GoodName, GoodValue, Replaced, ValuesIn;
    EditReads(text, name, value, name);
  }

  /** A setting that is not in the first lines is looked for in the rest. */
  lemma {:induction false} OverwrittenAppend(a: seq<string>, b: seq<string>, current: string, name: Name, value: string)
    requires Values(a, current, name) == []
    ensures Overwritten(a + b, current, name, value)
            == match Overwritten(b, SectionAfter(a, current), name, value)
               case Some(lines) => Some(a + lines)
               case None => None
  {
    hide Classify, Assignment;
    if a == [] {
      assert a + b == b;
      assert forall lines: seq<string> :: a + lines == lines;
    } else {
      assert (a + b)[1..] == a[1..] + b;
      var c := match Classify(a[0]) case Header(s) => s case _ => current;
      OverwrittenStep(a, current, name, value);
      OverwrittenStep(a + b, current, name, value);
      OverwrittenAppend(a[1..], b, c, name, value);
      var rest := Overwritten(b, SectionAfter(a, current), name, value);
      if rest.Some? { assert [a[0]] + (a[1..] + rest.value) == a + rest.value; }
    }
  }

  lemma AppendedOverwritten(current: string, name: Name, v1: string, v2: string)
    requires GoodName(name) && GoodValue(v1) && GoodValue(v2)
    ensures Overwritten(["[" + name.section + "]", Assignment("", name.key, v1), ""], current, name, v2)
            == Some(["[" + name.section + "]", Assignment("", name.key, v2), ""])
  {
    AssignmentReads("", name.key, v1);
    HeaderReads(name.section);
    var two := [Assignment("", name.key, v1), ""];
    var three := ["[" + name.section + "]", Assignment("", name.key, v1), ""];
    assert three[1..] == two && two[1..] == [""];
    assert Indent("") == "";
    hide Classify, Assignment, GoodName, GoodValue, Indent, Values, Overwritten;
    OverwrittenStep(three, current, name, v2);
    OverwrittenStep(two, name.section, name, v2);
    assert Overwritten(two, name.section, name, v2) == Some([Assignment("", name.key, v2)] + [""]);
    assert [three[0]] + ([Assignment("", name.key, v2)] + [""]) == [three[0], Assignment("", name.key, v2), ""];
  }

  /** A second edit of the same setting overwrites the first exactly, whether the setting was there
      or had to be appended. */
  lemma EditTwice(text: string, name: Name, v1: string, v2: string)
    requires GoodName(name) && GoodValue(v1) && GoodValue(v2)
    ensures Replaced(Replaced(text, name, v1), name, v2) == Replaced(text, name, v2)
  {
    hide Classify, Assignment, GoodName, GoodValue, Overwritten, Values;
    var r1, r2 := Overwritten(Lines(text), "", name, v1), Overwritten(Lines(text), "", name, v2);
    ReplacedLines(text, name, v1);
    OverwrittenValues(Lines(text), "", name, v1);
    OverwrittenValues(Lines(text), "", name, v2);
    if r1.Some? {
      OverwrittenTwice(Lines(text), "", name, v1, v2);
    } else {
      var added := ["[" + name.section + "]", Assignment("", name.key, v1), ""];
      var wanted := ["[" + name.section + "]", Assignment("", name.key, v2), ""];
      OverwrittenAppend(Lines(text), added, "", name, v2);
      AppendedOverwritten(SectionAfter(Lines(text), ""), name, v1, v2);
      ReplacedLines(text, name, v2);
      JoinSplit(Replaced(text, name, v2), '\n');
    }
  }
}
