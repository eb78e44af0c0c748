/** What the settings window shows for a file, with the names, the values and the defaults written out, next to
    what the daemon takes where the file says nothing: platform/macos/SettingsApp.swift and src/config/config.h. */
module ConfigReading {
  import opened TextLines
  import opened ConfigLines
  import opened SettingValues
  import opened ConfigStore
  import opened Stripping

  /** Where a setting stands in the file; what the window shows and what the daemon takes without it. */
  datatype Row = Row(section: string, key: string, shown: Value, taken: Value)

  function Manual(s: Setting): Row {
    match s
    case HotkeyMode => Row("hotkeys", "mode", Text("push_to_talk"), Text("push_to_talk"))
    case Trigger => Row("hotkeys", "trigger", Text("shift+super"), Text("shift+super"))
    case Cancel => Row("hotkeys", "cancel", Text("esc"), Text("esc"))
    case ModelSize => Row("model", "size", Text("distil-small.en"), Text("distil-large-v3"))
    case ModelDevice => Row("model", "device", Text("auto"), Text("cuda"))
    case ComputeType => Row("model", "compute_type", Text("bfloat16"), Text("float16"))
    case Language => Row("model", "language", Text("en"), Text("en"))
    case AutoPaste => Row("output", "auto_paste", Flag(true), Flag(true))
    case CopyToClipboard => Row("output", "also_copy_to_clipboard", Flag(true), Flag(true))
    case OutputMethod => Row("output", "method", Text("inject"), Text("inject"))
    case EndingAction => Row("output", "ending_action", Text("none"), Text("none"))
    case VadEnabled => Row("audio", "vad_enabled", Flag(true), Flag(true))
    case VadThreshold => Row("audio", "vad_threshold", Number(0.5), Number(0.5))
    case MuteOtherApps => Row("audio", "mute_other_apps", Flag(false), Flag(false))
    case FeedbackEnabled => Row("feedback", "enabled", Flag(true), Flag(true))
    case FeedbackVolume => Row("feedback", "volume", Number(0.3), Number(0.3))
    case TrayEnabled => Row("tray", "enabled", Flag(true), Flag(true))
    case LogLevel => Row("daemon", "log_level", Text("info"), Text("info"))
  }

  predicate OfModel(s: Setting) { s == ModelSize || s == ModelDevice || s == ComputeType }

  predicate IsList(s: Setting) { s == Trigger || s == Cancel }

  lemma ManualNames(s: Setting)
    ensures NameOf(s) == Name(Manual(s).section, Manual(s).key)
  {
  }

  lemma ManualDefaults(s: Setting)
    ensures Default(s) == Manual(s).shown
  {
  }

  lemma ManualKinds(s: Setting)
    ensures KindOf(s) == if Manual(s).shown.Flag? then FLAG
                         else if Manual(s).shown.Number? then NUMBER else if IsList(s) then LIST else TEXT
  {
  }

  lemma TakenFirst(s: Setting)
    requires s.HotkeyMode? || s.Trigger? || s.Cancel? || s.ModelSize? || s.ModelDevice? || s.ComputeType? || s.Language?
    ensures Manual(s).shown == Manual(s).taken <==> !OfModel(s)
  {
    assert "distil-small.en"[7] != "distil-large-v3"[7];
    assert "auto"[0] != "cuda"[0];
    assert "bfloat16"[0] != "float16"[0];
  }

  lemma TakenRest(s: Setting)
    requires !s.HotkeyMode? && !s.Trigger? && !s.Cancel? && !s.ModelSize? && !s.ModelDevice? && !s.ComputeType?
    requires !s.Language?
    ensures Manual(s).shown == Manual(s).taken && !OfModel(s)
  {
  }

  /** Window and daemon agree on what a file without the setting means, except for the three of the model. */
  lemma DefaultsAgree(s: Setting)
    ensures Manual(s).shown == Manual(s).taken <==> !OfModel(s)
  {
    hide *;
    if s.HotkeyMode? || s.Trigger? || s.Cancel? || s.ModelSize? || s.ModelDevice? || s.ComputeType? || s.Language? {
      TakenFirst(s);
    } else {
      TakenRest(s);
    }
  }

  // ---------------------------------------------------------------- nothing given

  /** The text says nothing about the setting. */
  predicate Missing(text: string, s: Setting) { ValuesIn(text, Name(Manual(s).section, Manual(s).key)) == [] }

  lemma ParsedNone(nums: Numbers, text: string, s: Setting)
    requires ValuesIn(text, NameOf(s)) == []
    ensures Parsed(nums, text)[s] == Default(s)
  {
    hide ValuesIn, NameOf, Default;
  }

  /** A setting the file does not give is shown by its default, which is what the daemon takes exactly if it is
      not one of the three of the model. */
  lemma MissingShown(nums: Numbers, text: string, s: Setting)
    requires Missing(text, s)
    ensures Parsed(nums, text)[s] == Manual(s).shown
    ensures Parsed(nums, text)[s] == Manual(s).taken <==> !OfModel(s)
  {
    ManualNames(s);
    ManualDefaults(s);
    hide NameOf, Default, Manual, ValuesIn, Parsed, OfModel;
    DefaultsAgree(s);
    ParsedNone(nums, text, s);
  }

  // ---------------------------------------------------------------- given

  /** Lines that give one setting, to be written behind a text. */
  function Given(section: string, key: string, raw: string): string {
    "\n[" + section + "]\n" + key + " = " + raw + "\n"
  }

  function Lying(s: Setting, raw: string): string { Given(Manual(s).section, Manual(s).key, raw) }

  lemma GivenValues(text: string, s: Setting, raw: string, n: Name)
    requires GoodValue(raw)
    ensures ValuesIn(text + Lying(s, raw), n) == ValuesIn(text, n) + (if n == NameOf(s) then [raw] else [])
  {
    ManualNames(s);
    GoodNames(s);
    var name := NameOf(s);
    assert Lying(s, raw) == NewSection(name, raw);
    hide NameOf, Manual, GoodName, GoodValue, Values, NewSection, Assignment, Lying;
    AppendedLines(text, name, raw);
    ValuesAppend(Lines(text), ["[" + name.section + "]", Assignment("", name.key, raw), ""], "", n);
    AppendedValues(SectionAfter(Lines(text), ""), name, raw, n);
  }

  /** Whatever stands in the text before, the last line decides. */
  lemma LastDecides(nums: Numbers, text: string, s: Setting, raw: string)
    requires GoodValue(raw)
    ensures var before := Parsed(nums, text);
            s in before && Parsed(nums, text + Lying(s, raw)) == before[s := Read(nums, s, before[s], raw)]
  {
    hide ValuesIn, NameOf, GoodValue, Lying, Read, ReadAll;
    var before, after := Parsed(nums, text), Parsed(nums, text + Lying(s, raw));
    forall t: Setting ensures after[t] == if t == s then Read(nums, s, before[s], raw) else before[t] {
      GivenValues(text, s, raw, NameOf(t));
      SettingAtNameOf(t);
      SettingAtNameOf(s);
      ReadAllSnoc(nums, t, ValuesIn(text, NameOf(t)), raw);
    }
  }

  lemma ReadText(nums: Numbers, s: Setting, current: Value, raw: string)
    requires Manual(s).shown.Text?
    ensures Read(nums, s, current, raw) == Text(if IsList(s) then ArrayText(raw) else Scalar(raw))
  {
    ManualKinds(s);
    hide ArrayText, Scalar, Manual, KindOf;
  }

  function SmallLetters(s: string): string {
    seq(|s|, i requires 0 <= i < |s| => if 'A' <= s[i] <= 'Z' then s[i] - 'A' + 'a' else s[i])
  }

  /** A flag is on exactly if it is written "true", in small letters or capitals. */
  lemma TruthIs(raw: string)
    requires Plain(raw)
    ensures Truth(raw) <==> SmallLetters(raw) == "true"
  {
    PlainReads(raw);
    hide Scalar, Plain;
    var small := SmallLetters(raw);
    if small == "true" {
      assert small[0] == 't' && small[1] == 'r' && small[2] == 'u' && small[3] == 'e';
    }
  }

  lemma ReadFlag(nums: Numbers, s: Setting, current: Value, raw: string)
    requires Manual(s).shown.Flag? && Plain(raw)
    ensures Read(nums, s, current, raw) == Flag(SmallLetters(raw) == "true")
  {
    ManualKinds(s);
    TruthIs(raw);
    hide Truth, Manual, KindOf, Plain, SmallLetters;
  }

  lemma ReadNumber(nums: Numbers, s: Setting, current: Value, raw: string)
    requires Manual(s).shown.Number? && Plain(raw)
    ensures Read(nums, s, current, raw)
            == match nums.read(raw) case Some(n) => Number(n) case None => current
  {
    ManualKinds(s);
    PlainReads(raw);
    hide Scalar, Manual, KindOf, Plain;
  }

  /** A text between apostrophes. */
  lemma TextGiven(nums: Numbers, text: string, s: Setting, v: string)
    requires Manual(s).shown.Text? && !IsList(s) && Quotable(v) && '\n' !in v
    ensures Parsed(nums, text + Lying(s, "'" + v + "'")) == Parsed(nums, text)[s := Text(v)]
  {
    hide *;
    QuotedPlain(v);
    LastDecides(nums, text, s, "'" + v + "'");
    ReadText(nums, s, Parsed(nums, text)[s], "'" + v + "'");
  }

  /** A flag; what is not "true" is off. */
  lemma FlagGiven(nums: Numbers, text: string, s: Setting, raw: string)
    requires Manual(s).shown.Flag? && Plain(raw) && '\n' !in raw
    ensures Parsed(nums, text + Lying(s, raw)) == Parsed(nums, text)[s := Flag(SmallLetters(raw) == "true")]
  {
    hide *;
    PlainGood(raw);
    LastDecides(nums, text, s, raw);
    ReadFlag(nums, s, Parsed(nums, text)[s], raw);
  }

  lemma SameAgain(d: Draft, s: Setting)
    requires s in d
    ensures d[s := d[s]] == d
  {
  }

  /** A number; what is none changes nothing. */
  lemma NumberGiven(nums: Numbers, text: string, s: Setting, raw: string)
    requires Manual(s).shown.Number? && Plain(raw) && '\n' !in raw
    ensures var before := Parsed(nums, text);
            Parsed(nums, text + Lying(s, raw))
            == match nums.read(raw) case Some(n) => before[s := Number(n)] case None => before
  {
    hide *;
    PlainGood(raw);
    LastDecides(nums, text, s, raw);
    ReadNumber(nums, s, Parsed(nums, text)[s], raw);
    SameAgain(Parsed(nums, text), s);
  }

  /** Items between apostrophes, with commas between them. */
  function Listed(items: seq<string>): string {
    if items == [] then "" else if |items| == 1 then "'" + items[0] + "'"
    else "'" + items[0] + "'" + ", " + Listed(items[1..])
  }

  predicate Writables(items: seq<string>) {
    && items != [] && CommaFree(items)
    && forall i :: 0 <= i < |items| ==> Listable(items[i]) && items[i] != "" && '\n' !in items[i]
  }

  lemma {:induction false} ListedAll(items: seq<string>)
    requires forall i :: 0 <= i < |items| ==> '\'' !in items[i] && '\n' !in items[i]
    ensures Listed(items) == JoinWith(QuotedAll(items), ", ") && '\n' !in Listed(items)
  {
    if items != [] {
      WithoutFacts(items[0], '\'');
      hide Without;
      ListedAll(items[1..]);
    }
  }

  lemma ListedReads(items: seq<string>)
    requires Writables(items)
    ensures var raw := "[ " + Listed(items) + " ]"; GoodValue(raw) && ArrayText(raw) == JoinWith(items, ", ")
  {
    forall i | 0 <= i < |items| ensures '\'' !in items[i] {
      assert Listable(items[i]);
    }
    ListedAll(items);
    hide Listable, Listed, NoBrackets, Pieces, QuotedAll, JoinWith;
    KeptUnchanged(items);
    BracketsGone(items);
    ArrayPieces(items);
    assert ArrayText("[ " + Listed(items) + " ]") == JoinWith(items, ", ");
    hide ArrayText;
    assert '\n' !in "[ " + Listed(items) + " ]";
  }

  /** A list of texts between brackets; the window shows its items in one line. */
  lemma ListGiven(nums: Numbers, text: string, s: Setting, items: seq<string>)
    requires IsList(s) && Writables(items)
    ensures Parsed(nums, text + Lying(s, "[ " + Listed(items) + " ]"))
            == Parsed(nums, text)[s := Text(JoinWith(items, ", "))]
  {
    assert Manual(s).shown.Text?;
    hide *;
    ListedReads(items);
    LastDecides(nums, text, s, "[ " + Listed(items) + " ]");
    ReadText(nums, s, Parsed(nums, text)[s], "[ " + Listed(items) + " ]");
  }

  // ---------------------------------------------------------------- saving without an edit

  lemma NothingSaid(nums: Numbers, s: Setting)
    ensures LastSaying(nums, s, []).None?
  {
  }

  lemma SavableComplete(nums: Numbers, d: Draft)
    requires Savable(nums, d)
    ensures Complete(d)
  {
    forall s: Setting ensures s in d && Typed(s, d[s]) {
      assert Writable(nums, s, d[s]);
    }
  }

  /** Loading and saving without an edit writes down every setting that was missing, as it is shown: for the three
      of the model this is not what the daemon took until then. */
  lemma UneditedSave(nums: Numbers, text: string, s: Setting)
    requires Missing(text, s) && Savable(nums, Parsed(nums, text))
    ensures var after := Saved(nums, text, Parsed(nums, text), SaveOrder());
            && !Missing(after, s) && Parsed(nums, after)[s] == Manual(s).shown
            && (Parsed(nums, after)[s] == Manual(s).taken <==> !OfModel(s))
  {
    ManualNames(s);
    hide NameOf, Manual, ValuesIn, Parsed, OfModel, Saved, SaveOrder, Render, LastSaying, Read, Savable;
    var d := Parsed(nums, text);
    SavableComplete(nums, d);
    MissingShown(nums, text, s);
    SavedSetting(nums, text, d, s);
    DuplicateReadsBack(nums, text, d, s);
    NothingSaid(nums, s);
    assert Tail([]) == [];
  }

  lemma MissingNone(text: string, s: Setting)
    requires Missing(text, s)
    ensures ValuesIn(text, NameOf(s)) == []
  {
    ManualNames(s);
    hide Manual, NameOf, ValuesIn;
  }

  lemma SizeManual()
    ensures Manual(ModelSize).shown == Text("distil-small.en") && Manual(ModelSize).taken == Text("distil-large-v3")
    ensures NameOf(ModelSize) == Name("model", "size")
  {
  }

  lemma RenderText(nums: Numbers, v: string)
    requires '\'' !in v
    ensures Render(nums, ModelSize, Text(v)) == "'" + v + "'"
  {
    WithoutFacts(v, '\'');
    hide Without;
  }

  lemma SizeText()
    ensures '\'' !in "distil-small.en" && "'" + "distil-small.en" + "'" == "'distil-small.en'"
  {
  }

  lemma NoTail()
    ensures Tail([]) == [] && forall raw: string :: [raw] + [] == [raw]
  {
  }

  /** So the model is swapped: a file that leaves it to the daemon names another one after a save. */
  lemma ModelSwapped(nums: Numbers, text: string)
    requires Missing(text, ModelSize) && Savable(nums, Parsed(nums, text))
    ensures ValuesIn(Saved(nums, text, Parsed(nums, text), SaveOrder()), Name("model", "size")) == ["'distil-small.en'"]
    ensures Manual(ModelSize).taken == Text("distil-large-v3")
  {
    SizeManual();
    hide *;
    SizeText();
    RenderText(nums, "distil-small.en");
    MissingNone(text, ModelSize);
    SavableComplete(nums, Parsed(nums, text));
    MissingShown(nums, text, ModelSize);
    SavedSetting(nums, text, Parsed(nums, text), ModelSize);
    NoTail();
  }
}
