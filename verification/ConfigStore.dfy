/** The settings window's store: `ConfigStore` of platform/macos/SettingsApp.swift. Loading reads a
    draft out of the file, saving writes its eighteen settings back one edit at a time. */
module ConfigStore {
  import opened Options
  import opened TextLines
  import opened ConfigLines
  import opened SettingValues
  import opened Stripping

  /** The fields of the draft. */
  datatype Setting =
    | HotkeyMode | Trigger | Cancel | ModelSize | ModelDevice | ComputeType | Language
    | AutoPaste | CopyToClipboard | OutputMethod | EndingAction | VadEnabled | VadThreshold
    | MuteOtherApps | FeedbackEnabled | FeedbackVolume | TrayEnabled | LogLevel

  datatype Kind = TEXT | LIST | FLAG | NUMBER

  datatype Value = Text(text: string) | Flag(on: bool) | Number(n: real)

  type Draft = map<Setting, Value>

  /** The platform's number formatting ("%.2f") and reading (`Double(_:)`). */
  datatype Numbers = Numbers(show: real -> string, read: string -> Option<real>)

  function NameOf(s: Setting): Name {
    match s
    case HotkeyMode => Name("hotkeys", "mode")
    case Trigger => Name("hotkeys", "trigger")
    case Cancel => Name("hotkeys", "cancel")
    case ModelSize => Name("model", "size")
    case ModelDevice => Name("model", "device")
    case ComputeType => Name("model", "compute_type")
    case Language => Name("model", "language")
    case AutoPaste => Name("output", "auto_paste")
    case CopyToClipboard => Name("output", "also_copy_to_clipboard")
    case OutputMethod => Name("output", "method")
    case EndingAction => Name("output", "ending_action")
    case VadEnabled => Name("audio", "vad_enabled")
    case VadThreshold => Name("audio", "vad_threshold")
    case MuteOtherApps => Name("audio", "mute_other_apps")
    case FeedbackEnabled => Name("feedback", "enabled")
    case FeedbackVolume => Name("feedback", "volume")
    case TrayEnabled => Name("tray", "enabled")
    case LogLevel => Name("daemon", "log_level")
  }

  function KindOf(s: Setting): Kind {
    match s
    case Trigger => LIST
    case Cancel => LIST
    case AutoPaste => FLAG
    case CopyToClipboard => FLAG
    case VadEnabled => FLAG
    case VadThreshold => NUMBER
    case MuteOtherApps => FLAG
    case FeedbackEnabled => FLAG
    case FeedbackVolume => NUMBER
    case TrayEnabled => FLAG
    case _ => TEXT
  }

  function Default(s: Setting): Value {
    match s
    case HotkeyMode => Text("push_to_talk")
    case Trigger => Text("shift+super")
    case Cancel => Text("esc")
    case ModelSize => Text("distil-small.en")
    case ModelDevice => Text("auto")
    case ComputeType => Text("bfloat16")
    case Language => Text("en")
    case AutoPaste => Flag(true)
    case CopyToClipboard => Flag(true)
    case OutputMethod => Text("inject")
    case EndingAction => Text("none")
    case VadEnabled => Flag(true)
    case VadThreshold => Number(0.5)
    case MuteOtherApps => Flag(false)
    case FeedbackEnabled => Flag(true)
    case FeedbackVolume => Number(0.3)
    case TrayEnabled => Flag(true)
    case LogLevel => Text("info")
  }

  /** The order in which `save` makes its edits. */
  function SaveOrder(): seq<Setting> {
    [HotkeyMode, Trigger, Cancel, ModelSize, ModelDevice, ComputeType, Language, AutoPaste, CopyToClipboard,
     OutputMethod, EndingAction, VadEnabled, VadThreshold, MuteOtherApps, FeedbackEnabled, FeedbackVolume,
     TrayEnabled, LogLevel]
  }

  /** The `switch` of `parse`. */
  function SettingAt(name: Name): Option<Setting> {
    var key := name.key;
    if name.section == "hotkeys" then
      if key == "mode" then Some(HotkeyMode) else if key == "trigger" then Some(Trigger)
      else if key == "cancel" then Some(Cancel) else None
    else if name.section == "model" then
      if key == "size" then Some(ModelSize) else if key == "device" then Some(ModelDevice)
      else if key == "compute_type" then Some(ComputeType) else if key == "language" then Some(Language) else None
    else if name.section == "output" then
      if key == "auto_paste" then Some(AutoPaste) else if key == "also_copy_to_clipboard" then Some(CopyToClipboard)
      else if key == "method" then Some(OutputMethod) else if key == "ending_action" then Some(EndingAction) else None
    else if name.section == "audio" then
      if key == "vad_enabled" then Some(VadEnabled) else if key == "vad_threshold" then Some(VadThreshold)
      else if key == "mute_other_apps" then Some(MuteOtherApps) else None
    else if name.section == "feedback" then
      if key == "enabled" then Some(FeedbackEnabled) else if key == "volume" then Some(FeedbackVolume) else None
    else if name.section == "tray" then
      if key == "enabled" then Some(TrayEnabled) else None
    else if name.section == "daemon" && key == "log_level" then Some(LogLevel)
    else None
  }

  lemma NameOfSettingAt(name: Name)
    ensures var s := SettingAt(name); s.Some? ==> NameOf(s.value) == name
  {
  }

  lemma SettingAtNameOf(s: Setting)
    ensures SettingAt(NameOf(s)) == Some(s)
  {
  }

  lemma SettingAtName(name: Name, s: Setting)
    ensures SettingAt(name) == Some(s) <==> NameOf(s) == name
  {
    hide *;
    NameOfSettingAt(name);
    SettingAtNameOf(s);
  }

  // ---------------------------------------------------------------- one setting

  predicate Typed(s: Setting, v: Value) {
    match KindOf(s) case FLAG => v.Flag? case NUMBER => v.Number? case _ => v.Text?
  }

  /** What a line gives to the setting; a number that cannot be read leaves it as it is. */
  function Read(nums: Numbers, s: Setting, current: Value, raw: string): Value {
    match KindOf(s)
    case TEXT => Text(Scalar(raw))
    case LIST => Text(ArrayText(raw))
    case FLAG => Flag(Truth(raw))
    case NUMBER => (match nums.read(Scalar(raw)) case Some(n) => Number(n) case None => current)
  }

  function ReadAll(nums: Numbers, s: Setting, raws: seq<string>): Value {
    if raws == [] then Default(s) else Read(nums, s, ReadAll(nums, s, raws[..|raws| - 1]), raws[|raws| - 1])
  }

  function Render(nums: Numbers, s: Setting, v: Value): string
    requires Typed(s, v)
  {
    match KindOf(s)
    case TEXT => Quoted(v.text)
    case LIST => ArrayValue(v.text)
    case FLAG => FlagText(v.on)
    case NUMBER => nums.show(v.n)
  }

  /** The values that can be written down. */
  predicate Writable(nums: Numbers, s: Setting, v: Value) {
    && Typed(s, v)
    && match KindOf(s)
       case TEXT => Quotable(v.text) && '\n' !in v.text
       case LIST => ListQuotable(v.text) && '\n' !in v.text
       case FLAG => true
       case NUMBER => Plain(nums.show(v.n)) && '\n' !in nums.show(v.n) && nums.read(nums.show(v.n)) == Some(v.n)
  }

  lemma {:induction false} ItemsChars(parts: seq<string>, c: char)
    requires forall i :: 0 <= i < |parts| ==> c !in parts[i]
    ensures forall i :: 0 <= i < |Items(parts)| ==> c !in Items(parts)[i]
  {
    hide Strip;
    if parts != [] {
      StripFacts(parts[0], Space);
      ItemsChars(parts[1..], c);
    }
  }

  lemma {:induction false} SplitChars(s: string, sep: char, c: char)
    requires c !in s
    ensures forall i :: 0 <= i < |SplitOn(s, sep)| ==> c !in SplitOn(s, sep)[i]
  {
    if s != "" { SplitChars(s[1..], sep, c); }
  }

  lemma {:induction false} JoinQuotedChars(items: seq<string>, c: char)
    requires forall i :: 0 <= i < |items| ==> c !in items[i]
    requires c != '\'' && c != ',' && c != ' '
    ensures c !in JoinWith(QuotedAll(items), ", ")
  {
    if items != [] {
      WithoutFacts(items[0], '\'');
      JoinQuotedChars(items[1..], c);
    }
  }

  lemma TextGood(v: string)
    requires '\n' !in v
    ensures GoodValue(Quoted(v))
  {
    WithoutFacts(v, '\'');
    hide Without;
  }

  lemma ListGood(v: string)
    requires '\n' !in v
    ensures GoodValue(ArrayValue(v))
  {
    hide Items, SplitOn, JoinWith, QuotedAll;
    SplitChars(v, ',', '\n');
    ItemsChars(SplitOn(v, ','), '\n');
    JoinQuotedChars(Items(SplitOn(v, ',')), '\n');
    var j := JoinWith(QuotedAll(Items(SplitOn(v, ','))), ", ");
    assert '\n' !in "[ " + j + " ]";
  }

  lemma FlagGood(on: bool)
    ensures GoodValue(FlagText(on))
  {
  }

  lemma PlainGood(shown: string)
    requires Plain(shown) && '\n' !in shown
    ensures GoodValue(shown)
  {
  }

  lemma WritableGood(nums: Numbers, s: Setting, v: Value)
    requires Writable(nums, s, v)
    ensures GoodValue(Render(nums, s, v))
  {
    hide GoodValue, Quotable, ListQuotable, Quoted, ArrayValue, Plain;
    match KindOf(s)
    case TEXT => TextGood(v.text);
    case LIST => ListGood(v.text);
    case FLAG => FlagGood(v.on);
    case NUMBER => PlainGood(nums.show(v.n));
  }

  /** A value that can be written down is read back, whatever was there before. */
  lemma WrittenReads(nums: Numbers, s: Setting, current: Value, v: Value)
    requires Writable(nums, s, v)
    ensures Read(nums, s, current, Render(nums, s, v)) == v
  {
    hide Quotable, ListQuotable, Scalar, ArrayText, Truth, Quoted, ArrayValue, FlagText, Plain;
    match KindOf(s)
    case TEXT => QuotedReads(v.text);
    case LIST => ListReads(v.text);
    case FLAG => FlagReads(v.on);
    case NUMBER => PlainReads(nums.show(v.n));
  }

  /** Small letters and underscores. */
  predicate Identifier(s: string) { s != "" && forall i :: 0 <= i < |s| ==> 'a' <= s[i] <= 'z' || s[i] == '_' }

  lemma IdentifierGood(name: Name)
    requires Identifier(name.section) && Identifier(name.key)
    ensures GoodName(name)
  {
  }

  lemma HotkeyNames(s: Setting)
    requires s.HotkeyMode? || s.Trigger? || s.Cancel? || s.ModelSize? || s.ModelDevice? || s.ComputeType? || s.Language?
    ensures Identifier(NameOf(s).section) && Identifier(NameOf(s).key)
  {
  }

  lemma OutputNames(s: Setting)
    requires s.AutoPaste? || s.CopyToClipboard? || s.OutputMethod? || s.EndingAction?
    ensures Identifier(NameOf(s).section) && Identifier(NameOf(s).key)
  {
  }

  lemma OtherNames(s: Setting)
    requires s.VadEnabled? || s.VadThreshold? || s.MuteOtherApps? || s.FeedbackEnabled? || s.FeedbackVolume?
             || s.TrayEnabled? || s.LogLevel?
    ensures Identifier(NameOf(s).section) && Identifier(NameOf(s).key)
  {
  }

  lemma GoodNames(s: Setting)
    ensures GoodName(NameOf(s))
  {
    hide *;
    if s.HotkeyMode? || s.Trigger? || s.Cancel? || s.ModelSize? || s.ModelDevice? || s.ComputeType? || s.Language? {
      HotkeyNames(s);
    } else if s.AutoPaste? || s.CopyToClipboard? || s.OutputMethod? || s.EndingAction? {
      OutputNames(s);
    } else {
      OtherNames(s);
    }
    IdentifierGood(NameOf(s));
  }

  // ---------------------------------------------------------------- the whole draft

  function Parsed(nums: Numbers, text: string): Draft {
    map s: Setting | true :: ReadAll(nums, s, ValuesIn(text, NameOf(s)))
  }

  predicate Complete(d: Draft) { forall s: Setting :: s in d && Typed(s, d[s]) }

  predicate Savable(nums: Numbers, d: Draft) { forall s: Setting :: s in d && Writable(nums, s, d[s]) }

  /** The text after the edits for the settings in `order`. */
  function Saved(nums: Numbers, text: string, d: Draft, order: seq<Setting>): string
    requires Complete(d)
  {
    if order == [] then text
    else
      var s := order[|order| - 1];
      Replaced(Saved(nums, text, d, order[..|order| - 1]), NameOf(s), Render(nums, s, d[s]))
  }

  predicate Distinct(order: seq<Setting>) { forall i, j :: 0 <= i < j < |order| ==> order[i] != order[j] }

  /** After the edits each edited setting has its new value first, and nothing else has changed. */
  lemma {:induction false} SavedValues(nums: Numbers, text: string, d: Draft, order: seq<Setting>, n: Name)
    requires Complete(d) && Savable(nums, d) && Distinct(order)
    ensures ValuesIn(Saved(nums, text, d, order), n)
            == match SettingAt(n)
               case Some(s) =>
                 if s in order then [Render(nums, s, d[s])] + Tail(ValuesIn(text, n)) else ValuesIn(text, n)
               case None => ValuesIn(text, n)
  {
    hide Writable, Replaced, ValuesIn, SettingAt, NameOf, GoodName, GoodValue, Render;
    if order != [] {
      var s, before := order[|order| - 1], order[..|order| - 1];
      SavedValues(nums, text, d, before, n);
      GoodNames(s);
      WritableGood(nums, s, d[s]);
      EditReads(Saved(nums, text, d, before), NameOf(s), Render(nums, s, d[s]), n);
      SettingAtName(n, s);
      assert order == before + [s];
      assert s !in before;
    }
  }

  function Position(s: Setting): nat {
    match s
    case HotkeyMode => 0 case Trigger => 1 case Cancel => 2 case ModelSize => 3 case ModelDevice => 4
    case ComputeType => 5 case Language => 6 case AutoPaste => 7 case CopyToClipboard => 8 case OutputMethod => 9
    case EndingAction => 10 case VadEnabled => 11 case VadThreshold => 12 case MuteOtherApps => 13
    case FeedbackEnabled => 14 case FeedbackVolume => 15 case TrayEnabled => 16 case LogLevel => 17
  }

  lemma AtPosition(s: Setting)
    ensures |SaveOrder()| == 18 && Position(s) < 18 && SaveOrder()[Position(s)] == s
  {
  }

  lemma PositionOf(i: nat)
    requires i < 18
    ensures |SaveOrder()| == 18 && Position(SaveOrder()[i]) == i
  {
  }

  /** Every setting is saved, once. */
  lemma AllSaved()
    ensures Distinct(SaveOrder()) && forall s: Setting :: s in SaveOrder()
  {
    hide SaveOrder, Position;
    forall s: Setting ensures s in SaveOrder() {
      AtPosition(s);
    }
    AtPosition(Trigger);
    forall i, j | 0 <= i < j < |SaveOrder()| ensures SaveOrder()[i] != SaveOrder()[j] {
      PositionOf(i);
      PositionOf(j);
    }
  }

  lemma SavedSetting(nums: Numbers, text: string, d: Draft, s: Setting)
    requires Complete(d) && Savable(nums, d)
    ensures var before := ValuesIn(text, NameOf(s));
            ValuesIn(Saved(nums, text, d, SaveOrder()), NameOf(s)) == [Render(nums, s, d[s])] + Tail(before)
  {
    hide Writable, ValuesIn, SettingAt, NameOf, Render, SaveOrder, Saved;
    AllSaved();
    SavedValues(nums, text, d, SaveOrder(), NameOf(s));
    SettingAtName(NameOf(s), s);
  }

  /** Saving and loading: with values that can be written down, into a text that gives no setting
      twice, all eighteen edits are read back together. */
  lemma SaveReadsBack(nums: Numbers, text: string, d: Draft)
    requires Complete(d) && Savable(nums, d) && forall s: Setting :: |ValuesIn(text, NameOf(s))| <= 1
    ensures Parsed(nums, Saved(nums, text, d, SaveOrder())) == d
  {
    hide Writable, ValuesIn, NameOf, Render, Read, SaveOrder, Saved;
    var after := Saved(nums, text, d, SaveOrder());
    forall s: Setting ensures ReadAll(nums, s, ValuesIn(after, NameOf(s))) == d[s] {
      SavedSetting(nums, text, d, s);
      var raw := Render(nums, s, d[s]);
      assert ValuesIn(after, NameOf(s)) == [raw];
      assert [raw][..0] == [];
      WrittenReads(nums, s, Default(s), d[s]);
    }
  }

  /** The line says something: only a number can fail to be one. */
  predicate Says(nums: Numbers, s: Setting, raw: string) {
    KindOf(s) == NUMBER ==> nums.read(Scalar(raw)).Some?
  }

  /** The last line that says something. */
  function LastSaying(nums: Numbers, s: Setting, raws: seq<string>): Option<string> {
    if raws == [] then None
    else if Says(nums, s, raws[|raws| - 1]) then Some(raws[|raws| - 1])
    else LastSaying(nums, s, raws[..|raws| - 1])
  }

  lemma SayingRead(nums: Numbers, s: Setting, current: Value, other: Value, raw: string)
    ensures Read(nums, s, current, raw) == if Says(nums, s, raw) then Read(nums, s, other, raw) else current
  {
    hide Scalar, ArrayText, Truth;
  }

  /** What is read after a first line: the last of the later lines that says something decides. */
  lemma {:induction false} ReadAfterFirst(nums: Numbers, s: Setting, first: string, v: Value, later: seq<string>)
    requires Read(nums, s, Default(s), first) == v
    ensures ReadAll(nums, s, [first] + later)
            == match LastSaying(nums, s, later) case Some(raw) => Read(nums, s, v, raw) case None => v
  {
    hide Read, Says;
    var all := [first] + later;
    if later == [] {
      assert all == [first] && [first][..0] == [];
    } else {
      var before, last := later[..|later| - 1], later[|later| - 1];
      assert all[..|all| - 1] == [first] + before;
      ReadAfterFirst(nums, s, first, v, before);
      SayingRead(nums, s, ReadAll(nums, s, [first] + before), v, last);
    }
  }

  /** With a setting given more than once: an edit is read back exactly when the last of the later
      lines that says something, if there is one, already said the same. */
  lemma DuplicateReadsBack(nums: Numbers, text: string, d: Draft, s: Setting)
    requires Complete(d) && Savable(nums, d)
    ensures var last := LastSaying(nums, s, Tail(ValuesIn(text, NameOf(s))));
            && Parsed(nums, Saved(nums, text, d, SaveOrder()))[s]
               == (match last case Some(raw) => Read(nums, s, d[s], raw) case None => d[s])
            && (Parsed(nums, Saved(nums, text, d, SaveOrder()))[s] == d[s]
                <==> last.None? || Read(nums, s, d[s], last.value) == d[s])
  {
    hide Writable, ValuesIn, NameOf, Render, SaveOrder, Saved, Read, Tail, LastSaying, ReadAll;
    SavedSetting(nums, text, d, s);
    WrittenReads(nums, s, Default(s), d[s]);
    ReadAfterFirst(nums, s, Render(nums, s, d[s]), d[s], Tail(ValuesIn(text, NameOf(s))));
  }

  /** A text that gives one setting twice. */
  function Twice(name: Name, a: string, b: string): string {
    "[" + name.section + "]\n" + name.key + " = " + a + "\n" + name.key + " = " + b
  }

  lemma TwiceLines(name: Name, a: string, b: string)
    requires GoodName(name) && GoodValue(a) && GoodValue(b)
    ensures Lines(Twice(name, a, b))
            == ["[" + name.section + "]", Assignment("", name.key, a), Assignment("", name.key, b)]
  {
    hide Classify, Trim;
    var header, first, second := "[" + name.section + "]", Assignment("", name.key, a), Assignment("", name.key, b);
    AssignmentReads("", name.key, a);
    AssignmentReads("", name.key, b);
    assert Twice(name, a, b) == header + ['\n'] + (first + ['\n'] + second);
    SplitAppend(header, '\n', first + ['\n'] + second);
    SplitAppend(first, '\n', second);
    SplitFree(header, '\n');
    SplitFree(first, '\n');
    SplitFree(second, '\n');
  }

  lemma TwiceValues(name: Name, a: string, b: string)
    requires GoodName(name) && GoodValue(a) && GoodValue(b)
    ensures ValuesIn(Twice(name, a, b), name) == [a, b]
  {
    TwiceLines(name, a, b);
    HeaderReads(name.section);
    AssignmentReads("", name.key, a);
    AssignmentReads("", name.key, b);
    var lines := ["[" + name.section + "]", Assignment("", name.key, a), Assignment("", name.key, b)];
    assert Indent("") == "";
    assert lines[1..][0] == lines[1] && lines[1..][1..][0] == lines[2] && lines[1..][1..][1..] == [];
    hide Classify, Assignment, GoodName, GoodValue, Indent, Overwritten, Lines, Twice;
    OverwrittenStep(lines, "", name, a);
    OverwrittenStep(lines[1..], name.section, name, a);
    OverwrittenStep(lines[1..][1..], name.section, name, a);
  }

  /** For a text that gives a setting twice, with anything on the two lines. */
  lemma TwiceReadsBack(nums: Numbers, d: Draft, s: Setting, a: string, b: string)
    requires Complete(d) && Savable(nums, d) && GoodValue(a) && GoodValue(b)
    ensures Parsed(nums, Saved(nums, Twice(NameOf(s), a, b), d, SaveOrder()))[s]
            == if Says(nums, s, b) then Read(nums, s, d[s], b) else d[s]
  {
    hide Complete, Savable, ValuesIn, NameOf, SaveOrder, Saved, Read, Twice, GoodName, GoodValue, Says;
    GoodNames(s);
    TwiceValues(NameOf(s), a, b);
    DuplicateReadsBack(nums, Twice(NameOf(s), a, b), d, s);
    assert Tail([a, b]) == [b] && [b][..0] == [];
    assert LastSaying(nums, s, []) == None;
  }

  lemma QuotedPlain(v: string)
    requires Quotable(v) && '\n' !in v
    ensures GoodValue("'" + v + "'") && Scalar("'" + v + "'") == v
  {
    WithoutFacts(v, '\'');
    assert Quoted(v) == "'" + v + "'";
    hide *;
    TextGood(v);
    QuotedReads(v);
  }

  lemma Modes()
    ensures Quotable("toggle") && '\n' !in "toggle" && "'" + "toggle" + "'" == "'toggle'"
    ensures Quotable("push_to_talk") && '\n' !in "push_to_talk" && "'" + "push_to_talk" + "'" == "'push_to_talk'"
  {
  }

  lemma Volumes()
    ensures GoodValue("0.5") && GoodValue("loud") && Plain("loud")
  {
  }

  lemma ModeRead(nums: Numbers, raw: string)
    ensures NameOf(HotkeyMode) == Name("hotkeys", "mode") && Says(nums, HotkeyMode, raw)
    ensures forall v :: Read(nums, HotkeyMode, v, raw) == Text(Scalar(raw))
  {
    hide Scalar;
  }

  lemma VolumeRead(nums: Numbers, raw: string)
    ensures NameOf(FeedbackVolume) == Name("feedback", "volume")
    ensures Says(nums, FeedbackVolume, raw) <==> nums.read(Scalar(raw)).Some?
  {
    hide Scalar;
  }

  /** The mode given twice, toggle last: push-to-talk is saved and toggle is loaded. */
  lemma LostEdit(nums: Numbers, d: Draft)
    requires Complete(d) && Savable(nums, d) && d[HotkeyMode] == Text("push_to_talk")
    ensures var text := Twice(Name("hotkeys", "mode"), "'push_to_talk'", "'toggle'");
            Parsed(nums, Saved(nums, text, d, SaveOrder()))[HotkeyMode] == Text("toggle")
  {
    hide *;
    Modes();
    QuotedPlain("toggle");
    QuotedPlain("push_to_talk");
    ModeRead(nums, "'toggle'");
    TwiceReadsBack(nums, d, HotkeyMode, "'push_to_talk'", "'toggle'");
  }

  /** The volume given twice, the second time as no number: the edit is read back. */
  lemma KeptEdit(nums: Numbers, d: Draft)
    requires Complete(d) && Savable(nums, d) && nums.read("loud").None?
    ensures var text := Twice(Name("feedback", "volume"), "0.5", "loud");
            Parsed(nums, Saved(nums, text, d, SaveOrder()))[FeedbackVolume] == d[FeedbackVolume]
  {
    hide *;
    Volumes();
    PlainReads("loud");
    VolumeRead(nums, "loud");
    TwiceReadsBack(nums, d, FeedbackVolume, "0.5", "loud");
  }

  // ---------------------------------------------------------------- the object

  datatype Status = Loaded | LoadFailed | SaveDone | SaveFailed

  /** The file system: what the file at the configured path holds, if it can be read, and whether
      it can be written. */
  datatype Disk = Disk(content: Option<string>, writable: bool)

  /** The line gives a value to the setting. */
  predicate Assigns(line: string, section: string, s: Setting) {
    Classify(line).Entry? && SettingAt(Name(section, Classify(line).key)) == Some(s)
  }

  lemma NothingRead(nums: Numbers)
    ensures forall s: Setting :: ReadAll(nums, s, Values([], "", NameOf(s))) == Default(s)
    ensures SectionAfter([], "") == ""
  {
    forall s: Setting ensures ReadAll(nums, s, Values([], "", NameOf(s))) == Default(s) {
      assert Values([], "", NameOf(s)) == [];
    }
    hide NameOf, Default, Read;
  }

  /** What one line gives to the setting. */
  lemma OneLine(line: string, section: string, s: Setting)
    ensures Values([line], section, NameOf(s)) == if Assigns(line, section, s) then [Classify(line).value] else []
    ensures SectionAfter([line], section) == (match Classify(line) case Header(h) => h case _ => section)
  {
    assert [line][1..] == [];
    if Classify(line).Entry? { SettingAtName(Name(section, Classify(line).key), s); }
    hide Classify, NameOf, SettingAt, Overwritten;
    OverwrittenStep([line], section, NameOf(s), "");
  }

  lemma ReadAllSnoc(nums: Numbers, s: Setting, raws: seq<string>, raw: string)
    ensures ReadAll(nums, s, raws + [raw]) == Read(nums, s, ReadAll(nums, s, raws), raw)
    ensures ReadAll(nums, s, raws + []) == ReadAll(nums, s, raws)
  {
    hide Read;
    assert (raws + [raw])[..|raws|] == raws;
    assert raws + [] == raws;
  }

  /** One round of the loop of `parse`. */
  lemma ReadLine(nums: Numbers, lines: seq<string>, i: nat, section: string, s: Setting)
    requires i < |lines| && section == SectionAfter(lines[..i], "")
    ensures SectionAfter(lines[..i + 1], "") == (match Classify(lines[i]) case Header(h) => h case _ => section)
    ensures var before := ReadAll(nums, s, Values(lines[..i], "", NameOf(s)));
            ReadAll(nums, s, Values(lines[..i + 1], "", NameOf(s)))
            == if Assigns(lines[i], section, s) then Read(nums, s, before, Classify(lines[i]).value) else before
  {
    OneLine(lines[i], section, s);
    hide Values, SectionAfter, Classify, NameOf, SettingAt, Read, ReadAll;
    var raws := Values(lines[..i], "", NameOf(s));
    assert lines[..i + 1] == lines[..i] + [lines[i]];
    ValuesAppend(lines[..i], [lines[i]], "", NameOf(s));
    ReadAllSnoc(nums, s, raws, if Assigns(lines[i], section, s) then Classify(lines[i]).value else "");
  }

  function After(done: seq<string>, rest: Option<seq<string>>): Option<seq<string>> {
    if rest.None? then None else Some(done + rest.value)
  }

  lemma AfterNothing(rest: Option<seq<string>>)
    ensures After([], rest) == rest
  {
    if rest.Some? { assert [] + rest.value == rest.value; }
  }

  /** One round of the loop of `replacing`. */
  lemma ScanLine(lines: seq<string>, i: nat, section: string, name: Name, value: string)
    requires i < |lines|
    ensures var c := match Classify(lines[i]) case Header(h) => h case _ => section;
            var hit := Classify(lines[i]).Entry? && section == name.section && Classify(lines[i]).key == name.key;
            After(lines[..i], Overwritten(lines[i..], section, name, value))
            == if hit then Some(lines[i := Assignment(Indent(lines[i]), name.key, value)])
               else After(lines[..i + 1], Overwritten(lines[i + 1..], c, name, value))
  {
    hide Classify, Assignment, Indent, Overwritten;
    var rest := lines[i..];
    assert rest[0] == lines[i] && rest[1..] == lines[i + 1..];
    OverwrittenStep(rest, section, name, value);
    var line := Assignment(Indent(lines[i]), name.key, value);
    assert lines[..i] + ([line] + lines[i + 1..]) == lines[i := line];
    assert lines[..i + 1] == lines[..i] + [lines[i]];
    var c := match Classify(lines[i]) case Header(h) => h case _ => section;
    var later := Overwritten(lines[i + 1..], c, name, value);
    if later.Some? { assert lines[..i] + ([lines[i]] + later.value) == lines[..i + 1] + later.value; }
  }

  lemma NoLines(lines: seq<string>, section: string, name: Name, value: string)
    ensures Overwritten(lines[|lines|..], section, name, value).None?
  {
  }

  class ConfigStore {
    const nums: Numbers
    var draft: Draft
    var originalText: string
    var status: Status
    var disk: Disk

    constructor (nums: Numbers, disk: Disk)
      ensures this.nums == nums && this.disk == disk
      ensures disk.content.Some? ==> draft == Parsed(nums, disk.content.value) && originalText == disk.content.value
      ensures disk.content.None? ==> draft == (map s: Setting | true :: Default(s)) && originalText == ""
    {
      this.nums, this.disk, originalText, status := nums, disk, "", LoadFailed;
      draft := map s: Setting | true :: Default(s);
      new;
      Load();
    }

    method Parse(text: string) returns (result: Draft)
      ensures result == Parsed(nums, text)
    {
      hide Classify, NameOf, SettingAt, Read, ReadAll, Values, SectionAfter;
      var lines := Lines(text);
      var section := "";
      result := map s: Setting | true :: Default(s);
      NothingRead(nums);
      assert lines[..0] == [];
      for i := 0 to |lines|
        invariant section == SectionAfter(lines[..i], "")
        invariant forall s: Setting :: s in result && result[s] == ReadAll(nums, s, Values(lines[..i], "", NameOf(s)))
      {
        ghost var before := result;
        forall s: Setting
          ensures SectionAfter(lines[..i + 1], "") == (match Classify(lines[i]) case Header(h) => h case _ => section)
          ensures ReadAll(nums, s, Values(lines[..i + 1], "", NameOf(s)))
                  == if Assigns(lines[i], section, s) then Read(nums, s, before[s], Classify(lines[i]).value)
                     else before[s]
        {
          ReadLine(nums, lines, i, section, s);
        }
        assert SectionAfter(lines[..i + 1], "") == (match Classify(lines[i]) case Header(h) => h case _ => section) by {
          ReadLine(nums, lines, i, section, Trigger);
        }
        match Classify(lines[i]) {
          case Header(header) =>
            section := header;
          case Entry(key, value) =>
            match SettingAt(Name(section, key)) {
              case Some(s) =>
                result := result[s := Read(nums, s, result[s], value)];
              case None =>
            }
          case Other =>
        }
      }
      assert lines[..|lines|] == lines;
    }

    method Replacing(name: Name, value: string, text: string) returns (result: string)
      ensures result == Replaced(text, name, value)
    {
      hide Classify, Assignment, Overwritten;
      var section := "";
      var lines := Lines(text);
      ghost var given := lines;
      assert given[0..] == given && given[..0] == [];
      AfterNothing(Overwritten(given, "", name, value));
      for i := 0 to |lines|
        invariant lines == given
        invariant Overwritten(given, "", name, value)
                  == After(given[..i], Overwritten(given[i..], section, name, value))
      {
        ScanLine(given, i, section, name, value);
        match Classify(lines[i]) {
          case Header(header) =>
            section := header;
          case Entry(key, _) =>
            if section == name.section && key == name.key {
              lines := lines[i := Assignment(Indent(lines[i]), name.key, value)];
              return JoinWith(lines, "\n");
            }
          case Other =>
        }
      }
      assert Overwritten(given[|given|..], section, name, value).None? by { NoLines(given, section, name, value); }
      result := text + NewSection(name, value);
    }

    method Load()
      modifies `draft, `originalText, `status
      ensures disk.content.Some? ==>
                draft == Parsed(nums, disk.content.value) && originalText == disk.content.value && status == Loaded
      ensures disk.content.None? ==> draft == old(draft) && originalText == old(originalText) && status == LoadFailed
    {
      if disk.content.None? {
        status := LoadFailed;
        return;
      }
      originalText := disk.content.value;
      draft := Parse(originalText);
      status := Loaded;
    }

    /** The edits go into the text that was loaded; the file and that text change together or not at all. */
    method Save()
      requires Complete(draft)
      modifies `originalText, `status, `disk
      ensures disk.writable == old(disk.writable)
      ensures disk.writable ==> originalText == Saved(nums, old(originalText), draft, SaveOrder())
                                && disk.content == Some(originalText) && status == SaveDone
      ensures !disk.writable ==> disk == old(disk) && originalText == old(originalText) && status == SaveFailed
    {
      hide SaveOrder, Replaced, Render;
      var text := originalText;
      var order := SaveOrder();
      for i := 0 to |order|
        modifies {}
        invariant text == Saved(nums, originalText, draft, order[..i])
      {
        var s := order[i];
        assert order[..i + 1][..i] == order[..i];
        text := Replacing(NameOf(s), Render(nums, s, draft[s]), text);
      }
      assert order[..|order|] == order;
      if !disk.writable {
        status := SaveFailed;
        return;
      }
      disk := disk.(content := Some(text));
      originalText := text;
      status := SaveDone;
    }
  }
}
