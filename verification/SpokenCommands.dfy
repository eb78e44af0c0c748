/** Spoken commands: a phrase such as "new line" that forms its own clause becomes a line
    break. A round deletes only words of its command, and leaves no clause that is this command; what all
    rounds together leave is the subject of module CommandRounds. */
module SpokenCommands {
  import opened SeqFacts
  import opened Ctype
  import opened WordSplit
  import opened WordEdits
  import opened PhraseSearch
  import opened Scan

  datatype Command = Command(phrase: string, replacement: string)

  const COMMANDS: seq<Command> := [
    Command("new paragraph", "\n\n"),
    Command("new line", "\n"),
    Command("newline", "\n")]

  predicate IsDelimiter(c: char) { c == ',' || c == '.' || c == ';' || c == ':' }

  /** The phrase at `p` opens its clause. */
  predicate LeftBoundary(h: string, p: nat)
    requires p <= |h|
  {
    var left := TrimEnd(h[..p]);
    left == "" || IsDelimiter(left[|left| - 1]) || left[|left| - 1] == '\n'
  }

  /** The phrase that ends at `e` closes its clause. */
  predicate RightBoundary(h: string, e: nat)
    requires e <= |h|
  {
    var right := SkipSpaces(h[e..]);
    right == "" || IsDelimiter(right[0]) || right[0] == '\n' || IsUpper(right[0])
  }

  predicate IsCommand(h: string, n: string, p: nat) {
    MatchAt(h, n, p) && LeftBoundary(h, p) && RightBoundary(h, p + |n|)
  }

  /** What follows a command: its trailing delimiter and the white space are gone. */
  function CommandTail(s: string): string {
    var r := SkipSpaces(s);
    if r != "" && IsDelimiter(r[0]) then SkipSpaces(r[1..]) else r
  }

  /** The text after the command at [p, e) has become a break. */
  function Broken(out: string, p: nat, e: nat, replacement: string): string
    requires p <= e <= |out|
  {
    TrimEnd(out[..p]) + replacement + CommandTail(out[e..])
  }

  /** What the proofs need of a command; the three commands have it. */
  predicate GoodCommand(cmd: Command) {
    match cmd
    case Command(phrase, replacement) =>
      && phrase != "" && replacement != ""
      && (forall i :: 0 <= i < |replacement| ==> replacement[i] == '\n')
      && (forall i :: 0 <= i < |phrase| ==> phrase[i] != '\n')
      && IsWordChar(phrase[0]) && IsWordChar(phrase[|phrase| - 1])
      && (forall d :: 0 < d < |phrase| && phrase[d] == phrase[0] ==> IsWordChar(phrase[d - 1]))
  }

  lemma GoodParagraph()
    ensures GoodCommand(Command("new paragraph", "\n\n"))
  {
  }

  lemma GoodLine()
    ensures GoodCommand(Command("new line", "\n"))
  {
  }

  lemma GoodNewline()
    ensures GoodCommand(Command("newline", "\n"))
  {
  }

  lemma CommandsAreGood(cmd: Command)
    requires cmd in COMMANDS
    ensures GoodCommand(cmd)
  {
    if cmd == COMMANDS[0] {
      GoodParagraph();
    } else if cmd == COMMANDS[1] {
      GoodLine();
    } else {
      GoodNewline();
    }
  }

  /** The end of the stretch a command erases: white space, one delimiter, white space. */
  method TailEnd(out: string, end: nat, right: nat) returns (eraseEnd: nat)
    requires end <= right <= |out| && SkipSpaces(out[end..]) == out[right..]
    ensures right <= eraseEnd <= |out| && CommandTail(out[end..]) == out[eraseEnd..]
  {
    eraseEnd := right;
    if eraseEnd < |out| && IsDelimiter(out[eraseEnd]) {
      DropDrop(out, right, 1);
      eraseEnd := ScanRight(out, eraseEnd + 1);
    }
  }

  /** One candidate: decides whether it is a command and, if so, writes the break. */
  method TryCommand(cmd: Command, out: string, p: nat) returns (hit: bool, out': string, pos': nat)
    requires cmd.phrase != "" && MatchAt(out, cmd.phrase, p)
    ensures hit == IsCommand(out, cmd.phrase, p)
    ensures !hit ==> out' == out && pos' == p + |cmd.phrase|
    ensures hit ==> out' == Broken(out, p, p + |cmd.phrase|, cmd.replacement)
    ensures hit ==> pos' == |TrimEnd(out[..p])| + |cmd.replacement|
  {
    var end := p + |cmd.phrase|;
    hide TrimEnd, SkipSpaces, MatchAt, CommandTail, IsDelimiter;
    var left := ScanLeft(out, p);
    var leftBoundary := left == 0 || IsDelimiter(out[left - 1]) || out[left - 1] == '\n';
    var right := ScanRight(out, end);
    var rightBoundary := right >= |out| || IsDelimiter(out[right]) || out[right] == '\n' || IsUpper(out[right]);
    hit := leftBoundary && rightBoundary;
    assert hit == IsCommand(out, cmd.phrase, p);
    if hit {
      var eraseEnd := TailEnd(out, end, right);
      out', pos' := out[..left] + cmd.replacement + out[eraseEnd..], left + |cmd.replacement|;
    } else {
      out', pos' := out, end;
    }
  }

  // ---------------------------------------------------------------- words

  lemma TailKeepsWords(s: string)
    ensures Words(CommandTail(s)) == Words(s) && |CommandTail(s)| <= |s|
  {
    var r := SkipSpaces(s);
    SkipSpacesFacts(s);
    SkipKeepsWords(s);
    if r != "" && IsDelimiter(r[0]) {
      WordsSkip(r, 1);
      SkipSpacesFacts(r[1..]);
      SkipKeepsWords(r[1..]);
    }
  }

  lemma BrokenEdit(out: string, p: nat, e: nat, left: string, replacement: string, tail: string)
    requires p < e <= |out| && left == TrimEnd(out[..p]) && tail == CommandTail(out[e..])
    requires Words(left + replacement) == Words(out[..p]) && Words(tail) == Words(out[e..])
    requires Breaks(left + replacement, tail) && |tail| <= |out| - e
    ensures Broken(out, p, e, replacement) == left + replacement + tail
    ensures EditedAt(out, p, e, [], left + replacement + tail, |left + replacement|)
    ensures |left + replacement + tail| - |left + replacement| < |out| - p
  {
    hide Words, TrimEnd, CommandTail, IsWordChar;
    DropConcat(left + replacement, tail);
  }

  lemma BreakIsGap(cmd: Command, left: string, tail: string)
    requires GoodCommand(cmd)
    ensures Words(left + cmd.replacement) == Words(left)
    ensures Breaks(left + cmd.replacement, tail)
    ensures cmd.phrase != ""
  {
    assert forall i :: 0 <= i < |cmd.replacement| ==> !IsWordChar(cmd.replacement[i]);
    WordsOfGap(cmd.replacement);
    WordsConcat(left, cmd.replacement);
  }

  lemma PhraseNotEmpty(cmd: Command)
    requires GoodCommand(cmd)
    ensures cmd.phrase != ""
  {
  }

  /** A break deletes the command's words and joins no others. */
  lemma BreakKeepsWords(cmd: Command, out: string, p: nat)
    requires GoodCommand(cmd) && MatchAt(out, cmd.phrase, p)
    ensures var out' := Broken(out, p, p + |cmd.phrase|, cmd.replacement);
            var pos' := |TrimEnd(out[..p])| + |cmd.replacement|;
            && EditedAt(out, p, p + |cmd.phrase|, [], out', pos')
            && |out'| - pos' < |out| - p
  {
    hide *;
    var e := p + |cmd.phrase|;
    var left, tail := TrimEnd(out[..p]), CommandTail(out[e..]);
    PhraseNotEmpty(cmd);
    BreakIsGap(cmd, left, tail);
    WordsTrimEnd(out[..p]);
    TailKeepsWords(out[e..]);
    DropConcat(left + cmd.replacement, tail);
    BrokenEdit(out, p, e, left, cmd.replacement, tail);
  }

  // ---------------------------------------------------------------- nothing is overlooked

  ghost predicate NoCommandBefore(out: string, n: string, pos: nat) {
    forall q: nat :: q < pos ==> !IsCommand(out, n, q)
  }

  lemma MatchChars(h: string, n: string, p: nat)
    requires MatchAt(h, n, p)
    ensures forall i :: p <= i < p + |n| ==> ToLower(h[i]) == n[i - p]
  {
    assert forall i :: p <= i < p + |n| ==> Lower(h)[p..p + |n|][i - p] == ToLower(h[i]);
  }

  /** Two occurrences of a command phrase never overlap. */
  lemma NoInnerMatch(cmd: Command, out: string, p: nat, q: nat)
    requires GoodCommand(cmd) && MatchAt(out, cmd.phrase, p) && p < q < p + |cmd.phrase|
    ensures !MatchAt(out, cmd.phrase, q)
  {
    var n, d := cmd.phrase, q - p;
    MatchChars(out, n, p);
    hide IsWordChar;
    assert n[d] == ToLower(out[q]) && n[d - 1] == ToLower(out[q - 1]);
    if MatchAt(out, n, q) {
      MatchChars(out, n, q);
    }
  }

  lemma SkippedCommand(cmd: Command, out: string, pos: nat, p: nat)
    requires GoodCommand(cmd) && NoCommandBefore(out, cmd.phrase, pos)
    requires forall q: nat :: pos <= q < p ==> !MatchAt(out, cmd.phrase, q)
    requires MatchAt(out, cmd.phrase, p) && !IsCommand(out, cmd.phrase, p)
    ensures NoCommandBefore(out, cmd.phrase, p + |cmd.phrase|)
  {
    forall q: nat | q < p + |cmd.phrase| ensures !IsCommand(out, cmd.phrase, q) {
      if p < q {
        NoInnerMatch(cmd, out, p, q);
      }
    }
  }

  lemma {:induction false} SkipCommonPrefix(a: string, b: string, j: nat)
    requires j < |a| && j < |b| && a[..j + 1] == b[..j + 1] && !IsSpace(a[j])
    ensures SkipSpaces(a) != "" && SkipSpaces(b) != "" && SkipSpaces(a)[0] == SkipSpaces(b)[0]
  {
    assert a[0] == a[..j + 1][0] && b[0] == b[..j + 1][0] && b[j] == b[..j + 1][j];
    if IsSpace(a[0]) {
      assert a[1..][..j] == a[..j + 1][1..] && b[1..][..j] == b[..j + 1][1..];
      SkipCommonPrefix(a[1..], b[1..], j - 1);
    }
  }

  lemma SliceOfPrefix(a: string, b: string, len: nat, i: nat, j: nat)
    requires len <= |a| && len <= |b| && a[..len] == b[..len] && i <= j <= len
    ensures a[i..j] == b[i..j]
  {
    assert a[i..j] == a[..len][i..j] && b[i..j] == b[..len][i..j];
  }

  lemma TakeOfDrop(a: string, e: nat, len: nat)
    requires e <= len <= |a|
    ensures a[e..][..len - e] == a[e..len]
  {
  }

  lemma SameMatch(n: string, a: string, b: string, len: nat, q: nat)
    requires len <= |a| && len <= |b| && a[..len] == b[..len] && q + |n| < len
    ensures MatchAt(a, n, q) == MatchAt(b, n, q)
  {
    var e := q + |n|;
    SliceOfPrefix(a, b, len, q, e);
    LowerSlice(a, q, e);
    LowerSlice(b, q, e);
    assert a[e] == a[..len][e] && b[e] == b[..len][e];
    if q > 0 { assert a[q - 1] == a[..len][q - 1] && b[q - 1] == b[..len][q - 1]; }
    hide IsWordChar;
  }

  lemma SameBoundaries(a: string, b: string, len: nat, q: nat, e: nat)
    requires 0 < len <= |a| && len <= |b| && a[..len] == b[..len] && IsDelimiter(a[len - 1])
    requires q <= e < len
    ensures LeftBoundary(a, q) == LeftBoundary(b, q) && RightBoundary(a, e) == RightBoundary(b, e)
  {
    SliceOfPrefix(a, b, len, 0, q);
    SliceOfPrefix(a, b, len, e, len);
    TakeOfDrop(a, e, len);
    TakeOfDrop(b, e, len);
    assert a[e..][len - 1 - e] == a[len - 1];
    SkipCommonPrefix(a[e..], b[e..], len - 1 - e);
    hide SkipSpaces, TrimEnd, IsDelimiter, IsSpace, IsUpper;
    assert a[..q] == b[..q];
  }

  /** Texts that agree up to a delimiter agree on the commands before it. */
  lemma SameCommands(n: string, a: string, b: string, len: nat, q: nat)
    requires 0 < len <= |a| && len <= |b| && a[..len] == b[..len] && IsDelimiter(a[len - 1])
    requires q + |n| < len
    ensures IsCommand(a, n, q) == IsCommand(b, n, q)
  {
    hide MatchAt, LeftBoundary, RightBoundary, IsDelimiter;
    SameMatch(n, a, b, len, q);
    SameBoundaries(a, b, len, q, q + |n|);
  }

  lemma MatchFits(h: string, n: string, q: nat)
    requires MatchAt(h, n, q)
    ensures q + |n| <= |h| && (q > 0 ==> !IsWordChar(h[q - 1]))
  {
    hide Lower;
  }

  /** No match reaches into a break. */
  lemma MatchMissesBreak(cmd: Command, left: string, tail: string, q: nat)
    requires GoodCommand(cmd) && q < |left| + |cmd.replacement|
    requires left != "" ==> !IsWordChar(left[|left| - 1])
    requires MatchAt(left + cmd.replacement + tail, cmd.phrase, q)
    ensures q + |cmd.phrase| < |left|
  {
    var n, out := cmd.phrase, left + cmd.replacement + tail;
    MatchChars(out, n, q);
    MatchFits(out, n, q);
    hide MatchAt;
    assert forall i :: |left| <= i < |left| + |cmd.replacement| ==> out[i] == cmd.replacement[i - |left|];
    var first, start, last := out[|left|], out[q], out[q + |n| - 1];
    assert left != "" ==> out[|left| - 1] == left[|left| - 1];
    assert last == out[q + |n| - 1] && ToLower(last) == n[|n| - 1];
  }

  lemma CommandWasThere(cmd: Command, out: string, left: string, tail: string, q: nat)
    requires GoodCommand(cmd) && |left| <= |out| && left == out[..|left|]
    requires left != "" ==> IsDelimiter(left[|left| - 1])
    requires q < |left| + |cmd.replacement| && IsCommand(left + cmd.replacement + tail, cmd.phrase, q)
    ensures IsCommand(out, cmd.phrase, q) && q < |left|
  {
    MatchMissesBreak(cmd, left, tail, q);
    var out' := left + (cmd.replacement + tail);
    DropConcat(left, cmd.replacement + tail);
    Assoc(left, cmd.replacement, tail);
    assert out[|left| - 1] == left[|left| - 1];
    hide MatchAt, LeftBoundary, RightBoundary, GoodCommand;
    SameCommands(cmd.phrase, out, out', |left|, q);
  }

  lemma CommandEdge(out: string, n: string, p: nat)
    requires IsCommand(out, n, p)
    ensures var left := TrimEnd(out[..p]);
            && |left| <= p && left == out[..|left|]
            && (left != "" ==> IsDelimiter(left[|left| - 1]))
  {
    TrimEndFacts(out[..p]);
  }

  /** Writing a break creates no command before the cursor. */
  lemma BreakLeavesNone(cmd: Command, out: string, p: nat)
    requires GoodCommand(cmd) && IsCommand(out, cmd.phrase, p) && NoCommandBefore(out, cmd.phrase, p)
    ensures NoCommandBefore(Broken(out, p, p + |cmd.phrase|, cmd.replacement), cmd.phrase,
                            |TrimEnd(out[..p])| + |cmd.replacement|)
  {
    var n, left, tail := cmd.phrase, TrimEnd(out[..p]), CommandTail(out[p + |cmd.phrase|..]);
    CommandEdge(out, n, p);
    hide TrimEnd, CommandTail, IsCommand, GoodCommand;
    forall q: nat | q < |left| + |cmd.replacement| ensures !IsCommand(left + cmd.replacement + tail, n, q) {
      if IsCommand(left + cmd.replacement + tail, n, q) {
        CommandWasThere(cmd, out, left, tail, q);
      }
    }
  }

  // ---------------------------------------------------------------- the pass

  ghost predicate NoCommand(out: string, n: string) {
    forall q: nat :: !IsCommand(out, n, q)
  }

  lemma MatchEndWords(out: string, n: string, p: nat)
    requires n != "" && MatchAt(out, n, p)
    ensures Words(out[..p + |n|]) == Words(out[..p]) + Words(out[p..p + |n|])
  {
    CutTake(out, p, p + |n|);
    assert Breaks(out[..p], out[p..p + |n|]);
    WordsConcat(out[..p], out[p..p + |n|]);
  }

  /** Stepping over a match keeps its words. */
  lemma SkipIsEdit(out: string, n: string, p: nat)
    requires n != "" && MatchAt(out, n, p)
    ensures EditedAt(out, p, p + |n|, Words(out[p..p + |n|]), out, p + |n|)
  {
    hide Words;
    MatchEndWords(out, n, p);
  }

  lemma NoneUpTo(out: string, n: string, pos: nat, p: nat)
    requires NoCommandBefore(out, n, pos)
    requires forall q: nat :: pos <= q < p ==> !MatchAt(out, n, q)
    ensures NoCommandBefore(out, n, p)
  {
  }

  lemma NoneLeft(out: string, n: string, pos: nat)
    requires NoCommandBefore(out, n, pos)
    requires forall q: nat :: pos <= q ==> !MatchAt(out, n, q)
    ensures NoCommand(out, n)
  {
  }

  /** The loop invariant of a command scan. */
  ghost predicate CommandScan(text: string, out: string, pos: nat, done: seq<string>, n: string) {
    && pos <= |out|
    && Progress(text, out, pos, done, Words(n), {[]})
    && NoCommandBefore(out, n, pos)
    && (NoCommand(text, n) ==> out == text)
  }

  lemma CommandSeen(cmd: Command, out: string, p: nat)
    requires GoodCommand(cmd) && IsCommand(out, cmd.phrase, p)
    ensures !NoCommand(out, cmd.phrase)
    ensures cmd.phrase != "" && MatchAt(out, cmd.phrase, p)
  {
  }

  lemma ScanUnfold(text: string, out: string, pos: nat, done: seq<string>, n: string)
    requires CommandScan(text, out, pos, done, n)
    ensures pos <= |out| && Progress(text, out, pos, done, Words(n), {[]})
    ensures NoCommandBefore(out, n, pos) && (NoCommand(text, n) ==> out == text)
  {
  }

  lemma ScanFold(text: string, out: string, pos: nat, done: seq<string>, n: string)
    requires Progress(text, out, pos, done, Words(n), {[]})
    requires NoCommandBefore(out, n, pos) && (NoCommand(text, n) ==> out == text)
    ensures CommandScan(text, out, pos, done, n)
  {
  }

  lemma CommandStep(cmd: Command, text: string, out: string, pos: nat, done: seq<string>, p: nat,
                    out': string, pos': nat)
    requires GoodCommand(cmd) && CommandScan(text, out, pos, done, cmd.phrase)
    requires pos <= p && IsCommand(out, cmd.phrase, p)
    requires forall q: nat :: pos <= q < p ==> !MatchAt(out, cmd.phrase, q)
    requires out' == Broken(out, p, p + |cmd.phrase|, cmd.replacement)
    requires pos' == |TrimEnd(out[..p])| + |cmd.replacement|
    ensures CommandScan(text, out', pos', Consumed(out, pos, done, p, p + |cmd.phrase|), cmd.phrase)
    ensures |out'| - pos' < |out| - pos
  {
    hide *;
    CommandSeen(cmd, out, p);
    ScanUnfold(text, out, pos, done, cmd.phrase);
    NoneUpTo(out, cmd.phrase, pos, p);
    BreakLeavesNone(cmd, out, p);
    BreakKeepsWords(cmd, out, p);
    EditProgress(text, out, pos, done, cmd.phrase, {[]}, p, [], out', pos');
    ScanFold(text, out', pos', Consumed(out, pos, done, p, p + |cmd.phrase|), cmd.phrase);
  }

  lemma NoCommandStep(cmd: Command, text: string, out: string, pos: nat, done: seq<string>, p: nat)
    requires GoodCommand(cmd) && CommandScan(text, out, pos, done, cmd.phrase)
    requires pos <= p && MatchAt(out, cmd.phrase, p) && !IsCommand(out, cmd.phrase, p)
    requires forall q: nat :: pos <= q < p ==> !MatchAt(out, cmd.phrase, q)
    ensures CommandScan(text, out, p + |cmd.phrase|, Consumed(out, pos, done, p, p + |cmd.phrase|), cmd.phrase)
  {
    hide *;
    PhraseNotEmpty(cmd);
    ScanUnfold(text, out, pos, done, cmd.phrase);
    SkippedCommand(cmd, out, pos, p);
    SkipIsEdit(out, cmd.phrase, p);
    EditProgress(text, out, pos, done, cmd.phrase, {[]}, p, Words(out[p..p + |cmd.phrase|]), out, p + |cmd.phrase|);
    ScanFold(text, out, p + |cmd.phrase|, Consumed(out, pos, done, p, p + |cmd.phrase|), cmd.phrase);
  }

  lemma CommandEnd(text: string, out: string, pos: nat, done: seq<string>, n: string)
    requires CommandScan(text, out, pos, done, n)
    requires forall q: nat :: pos <= q ==> !MatchAt(out, n, q)
    ensures Edited(Words(text), Words(out), Words(n), {[]})
    ensures NoCommand(out, n)
    ensures NoCommand(text, n) ==> out == text
  {
    NoneLeft(out, n, pos);
    ProgressEnd(text, out, pos, done, Words(n), {[]});
  }

  lemma ScanBegin(text: string, n: string)
    ensures CommandScan(text, text, 0, [], n)
  {
    ProgressStart(text, Words(n), {[]});
  }

  /** The whole scan from the cursor on: break at the first match if it is a command, else step
      over it. */
  function CommandPass(cmd: Command, out: string, pos: nat): string
    requires GoodCommand(cmd)
    decreases |out| - pos
  {
    var hit := FirstMatch(out, cmd.phrase, pos);
    if hit.None? then out
    else
      FirstMatchFacts(out, cmd.phrase, pos);
      var p := hit.value;
      if IsCommand(out, cmd.phrase, p) then
        BreakKeepsWords(cmd, out, p);
        CommandPass(cmd, Broken(out, p, p + |cmd.phrase|, cmd.replacement), |TrimEnd(out[..p])| + |cmd.replacement|)
      else CommandPass(cmd, out, p + |cmd.phrase|)
  }

  lemma CommandPassTurn(cmd: Command, out: string, pos: nat)
    requires GoodCommand(cmd)
    ensures FirstMatch(out, cmd.phrase, pos).None? ==> CommandPass(cmd, out, pos) == out
    ensures FirstMatch(out, cmd.phrase, pos).Some? ==>
              var p := FirstMatch(out, cmd.phrase, pos).value;
              && p + |cmd.phrase| <= |out|
              && CommandPass(cmd, out, pos)
                 == (if IsCommand(out, cmd.phrase, p)
                     then CommandPass(cmd, Broken(out, p, p + |cmd.phrase|, cmd.replacement),
                                      |TrimEnd(out[..p])| + |cmd.replacement|)
                     else CommandPass(cmd, out, p + |cmd.phrase|))
  {
    hide TrimEnd, CommandTail, Broken, Words, IsCommand, GoodCommand, MatchAt, FirstMatch;
    FirstMatchFacts(out, cmd.phrase, pos);
  }

  lemma {:induction false} CommandScanned(cmd: Command, text: string, out: string, pos: nat, done: seq<string>)
    requires GoodCommand(cmd) && CommandScan(text, out, pos, done, cmd.phrase)
    ensures Edited(Words(text), Words(CommandPass(cmd, out, pos)), Words(cmd.phrase), {[]})
    ensures NoCommand(CommandPass(cmd, out, pos), cmd.phrase)
    ensures NoCommand(text, cmd.phrase) ==> CommandPass(cmd, out, pos) == text
    decreases |out| - pos
  {
    hide *;
    PhraseNotEmpty(cmd);
    CommandPassTurn(cmd, out, pos);
    FirstMatchFacts(out, cmd.phrase, pos);
    var hit := FirstMatch(out, cmd.phrase, pos);
    if hit.None? {
      CommandEnd(text, out, pos, done, cmd.phrase);
    } else {
      var p := hit.value;
      var done' := Consumed(out, pos, done, p, p + |cmd.phrase|);
      if IsCommand(out, cmd.phrase, p) {
        var out', pos' := Broken(out, p, p + |cmd.phrase|, cmd.replacement), |TrimEnd(out[..p])| + |cmd.replacement|;
        CommandStep(cmd, text, out, pos, done, p, out', pos');
        CommandScanned(cmd, text, out', pos', done');
      } else {
        NoCommandStep(cmd, text, out, pos, done, p);
        CommandScanned(cmd, text, out, p + |cmd.phrase|, done');
      }
    }
  }

  /** The pass deletes only command words; afterwards no command is left, so a second pass would
      change nothing; and it touches no text that has none. */
  lemma CommandPassLaws(cmd: Command, text: string)
    requires GoodCommand(cmd)
    ensures Edited(Words(text), Words(CommandPass(cmd, text, 0)), Words(cmd.phrase), {[]})
    ensures NoCommand(CommandPass(cmd, text, 0), cmd.phrase)
    ensures NoCommand(text, cmd.phrase) <==> CommandPass(cmd, text, 0) == text
    ensures CommandPass(cmd, CommandPass(cmd, text, 0), 0) == CommandPass(cmd, text, 0)
  {
    hide *;
    ScanBegin(text, cmd.phrase);
    CommandScanned(cmd, text, text, 0, []);
    var once := CommandPass(cmd, text, 0);
    ScanBegin(once, cmd.phrase);
    CommandScanned(cmd, once, once, 0, []);
  }

  method ApplyCommand(cmd: Command, text: string) returns (out: string)
    requires GoodCommand(cmd)
    ensures out == CommandPass(cmd, text, 0)
  {
    hide *;
    out := text;
    var pos: nat := 0;
    PhraseNotEmpty(cmd);
    while true
      invariant CommandPass(cmd, out, pos) == CommandPass(cmd, text, 0)
      decreases |out| - pos
    {
      var hit := FindPhrase(out, cmd.phrase, pos);
      FirstMatchIs(out, cmd.phrase, pos, hit);
      CommandPassTurn(cmd, out, pos);
      if hit.None? { break; }
      BreakKeepsWords(cmd, out, hit.value);
      var isCommand;
      isCommand, out, pos := TryCommand(cmd, out, hit.value);
    }
  }

  /** `after` is `before` after each command in turn has deleted some occurrences of its words. */
  ghost predicate CommandsDeleted(before: seq<string>, after: seq<string>, commands: seq<Command>)
    decreases |commands|
  {
    if commands == [] then before == after
    else
      var k := |commands| - 1;
      exists mid ::
        && CommandsDeleted(before, mid, commands[..k])
        && Edited(mid, after, Words(commands[k].phrase), {[]})
  }

  /** One scan for each command, in order. */
  function AllCommandsPass(commands: seq<Command>, text: string): string
    requires forall cmd :: cmd in commands ==> GoodCommand(cmd)
    decreases |commands|
  {
    if commands == [] then text
    else
      var k := |commands| - 1;
      CommandPass(commands[k], AllCommandsPass(commands[..k], text), 0)
  }

  lemma GoodCommands()
    ensures forall cmd :: cmd in COMMANDS ==> GoodCommand(cmd)
  {
    forall cmd | cmd in COMMANDS ensures GoodCommand(cmd) {
      CommandsAreGood(cmd);
    }
  }

  /** `apply_spoken_commands`: the three commands in order. */
  function CommandsApplied(text: string): string {
    GoodCommands();
    AllCommandsPass(COMMANDS, text)
  }

  lemma {:induction false} AllCommandsWords(commands: seq<Command>, text: string)
    requires forall cmd :: cmd in commands ==> GoodCommand(cmd)
    ensures CommandsDeleted(Words(text), Words(AllCommandsPass(commands, text)), commands)
    ensures (forall cmd :: cmd in commands ==> NoCommand(text, cmd.phrase)) ==> AllCommandsPass(commands, text) == text
    decreases |commands|
  {
    hide GoodCommand, Words, NoCommand, CommandPass, Edited;
    if commands != [] {
      var k := |commands| - 1;
      AllCommandsWords(commands[..k], text);
      CommandPassLaws(commands[k], AllCommandsPass(commands[..k], text));
    }
  }

  lemma CommandsUnfold(text: string)
    ensures forall cmd :: cmd in COMMANDS ==> GoodCommand(cmd)
    ensures CommandsApplied(text) == AllCommandsPass(COMMANDS, text)
  {
    GoodCommands();
    hide GoodCommand, AllCommandsPass;
  }

  /** Spoken commands delete only words of commands, in three rounds, and a text without commands
      stays as it is. */
  lemma CommandsAppliedWords(text: string)
    ensures CommandsDeleted(Words(text), Words(CommandsApplied(text)), COMMANDS)
    ensures (forall cmd :: cmd in COMMANDS ==> NoCommand(text, cmd.phrase)) ==> CommandsApplied(text) == text
  {
    GoodCommands();
    CommandsUnfold(text);
    hide *;
    AllCommandsWords(COMMANDS, text);
  }

  method ApplyCommands(commands: seq<Command>, text: string) returns (out: string)
    requires forall cmd :: cmd in commands ==> GoodCommand(cmd)
    ensures out == AllCommandsPass(commands, text)
  {
    hide GoodCommand, CommandPass;
    out := text;
    for k := 0 to |commands|
      invariant out == AllCommandsPass(commands[..k], text)
    {
      out := ApplyCommand(commands[k], out);
      assert commands[..k + 1][..k] == commands[..k];
    }
    assert commands[..|commands|] == commands;
  }

  method ApplySpokenCommands(text: string) returns (out: string)
    ensures out == CommandsApplied(text)
  {
    CommandsUnfold(text);
    hide *;
    out := ApplyCommands(COMMANDS, text);
  }

  /** The pass invents no word. */
  lemma {:induction false} DeletedWordsAreOld(before: seq<string>, after: seq<string>, commands: seq<Command>)
    requires CommandsDeleted(before, after, commands)
    ensures forall w :: w in after ==> w in before
    decreases |commands|
  {
    if commands != [] {
      var k := |commands| - 1;
      var mid :| CommandsDeleted(before, mid, commands[..k]) && Edited(mid, after, Words(commands[k].phrase), {[]});
      DeletedWordsAreOld(before, mid, commands[..k]);
      DeletedAreOld(mid, after, Words(commands[k].phrase));
    }
  }
}
