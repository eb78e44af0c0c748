/** What each pass of the transcript pipeline does to a text, turn by turn, said of positions in the text:
    where a phrase stands, what a hole takes with it, when a command is a clause of its own and which break
    it leaves. The loops of the program are shown to do just this. */
module PassReading {
  import opened SeqFacts
  import opened Ctype
  import opened WordSplit
  import opened PhraseSearch
  import opened Scan
  import opened Passes
  import opened SpokenCommands
  import opened Typography

  // ---------------------------------------------------------------- where phrases stand

  /** ASCII letters and digits, apostrophe and hyphen. */
  predicate InWords(c: char) {
    'a' <= c <= 'z' || 'A' <= c <= 'Z' || '0' <= c <= '9' || c == '\'' || c == '-'
  }

  function Small(c: char): char { if 'A' <= c <= 'Z' then c - 'A' + 'a' else c }

  /** The phrase stands at p, case aside, and neither end is inside a word. */
  predicate Stands(h: string, n: string, p: nat) {
    && p + |n| <= |h| && (forall i :: 0 <= i < |n| ==> Small(h[p + i]) == n[i])
    && (p > 0 ==> !InWords(h[p - 1])) && (p + |n| < |h| ==> !InWords(h[p + |n|]))
  }

  ghost predicate StandsFirst(h: string, n: string, from: nat, p: nat) {
    from <= p && Stands(h, n, p) && forall q: nat :: from <= q < p ==> !Stands(h, n, q)
  }

  ghost predicate StandsBehind(h: string, n: string, from: nat) { exists p: nat :: from <= p && Stands(h, n, p) }

  /** White space from a to b, which reaches as far to the left as there is any. */
  predicate WhiteBefore(h: string, a: nat, b: nat) {
    a <= b <= |h| && (forall i :: a <= i < b ==> White(h[i])) && (a > 0 ==> !White(h[a - 1]))
  }

  /** Likewise to the right. */
  predicate WhiteAfter(h: string, a: nat, b: nat) {
    a <= b <= |h| && (forall i :: a <= i < b ==> White(h[i])) && (b < |h| ==> !White(h[b]))
  }

  // ---------------------------------------------------------------- dictionary and fillers

  /** The hole at [b, e) is widened to [l, r): white space on the left; on the right one comma or semicolon
      that follows directly, and then white space. */
  predicate HoleIs(h: string, b: nat, e: nat, l: nat, r: nat) {
    && e <= |h| && WhiteBefore(h, l, b)
    && WhiteAfter(h, if e < |h| && (h[e] == ',' || h[e] == ';') then e + 1 else e, r)
  }

  /** Closed with one space if something stands before it and a word after it. */
  predicate ClosedAt(h: string, l: nat, r: nat, h': string, pos': nat)
    requires l <= |h| && r <= |h|
  {
    var glue := if l > 0 && r < |h| && InWords(h[r]) then " " else "";
    h' == h[..l] + glue + h[r..] && pos' == l + |glue|
  }

  ghost predicate HoleClosed(h: string, b: nat, e: nat, h': string, pos': nat) {
    exists l: nat, r: nat :: HoleIs(h, b, e, l, r) && ClosedAt(h, l, r, h', pos')
  }

  /** The replacement, with a capital if it is written small and what it replaces begins with a capital. */
  predicate Spliced(to: string, h: string, b: nat, e: nat, h': string, pos': nat) {
    && to != "" && b < e <= |h|
    && var first := if 'a' <= to[0] <= 'z' && 'A' <= h[b] <= 'Z' then to[0] - 'a' + 'A' else to[0];
       h' == h[..b] + ([first] + to[1..]) + h[e..] && pos' == b + |to|
  }

  /** One turn: the first occurrence from the cursor on is deleted or replaced. */
  ghost predicate Turn(n: string, to: string, h: string, pos: nat, h': string, pos': nat) {
    exists b: nat ::
      StandsFirst(h, n, pos, b)
      && if to == "" then HoleClosed(h, b, b + |n|, h', pos') else Spliced(to, h, b, b + |n|, h', pos')
  }

  predicate Nearer(h: string, pos: nat, h': string, pos': nat) { |h'| - pos' < |h| - pos }

  /** Turn after turn, until the phrase does not stand behind the cursor any more. */
  ghost predicate Scanned(n: string, to: string, h: string, pos: nat, out: string)
    decreases |h| - pos
  {
    if StandsBehind(h, n, pos) then
      exists h': string, pos': nat ::
        Turn(n, to, h, pos, h', pos') && Nearer(h, pos, h', pos') && |h| - pos >= 0 && Scanned(n, to, h', pos', out)
    else out == h
  }

  datatype Edit = Edit(phrase: string, to: string)

  /** One scan for each edit, in order. */
  ghost predicate AllScanned(edits: seq<Edit>, h: string, out: string)
    decreases |edits|
  {
    if edits == [] then out == h
    else
      var k := |edits| - 1;
      exists mid :: AllScanned(edits[..k], h, mid) && Scanned(edits[k].phrase, edits[k].to, mid, 0, out)
  }

  function Smalls(s: string): string { seq(|s|, i requires 0 <= i < |s| => Small(s[i])) }

  function EntryEdits(entries: seq<DictionaryEntry>): seq<Edit> {
    seq(|entries|, i requires 0 <= i < |entries| => Edit(Smalls(entries[i].from), entries[i].to))
  }

  function FillerEdits(): seq<Edit> {
    [Edit("um", ""), Edit("uh", ""), Edit("uhm", ""), Edit("erm", ""), Edit("hmm", ""), Edit("mhm", "")]
  }

  // ---------------------------------------------------------------- spoken commands

  predicate Delimits(c: char) { c in ",.;:" }

  /** White space around [b, e) reaches from l to r, and what lies beyond bounds a clause: nothing, or
      punctuation, or on the right a capital. */
  predicate OwnClause(h: string, b: nat, e: nat, l: nat, r: nat) {
    && WhiteBefore(h, l, b) && WhiteAfter(h, e, r)
    && (l == 0 || Delimits(h[l - 1])) && (r == |h| || Delimits(h[r]) || 'A' <= h[r] <= 'Z')
  }

  ghost predicate IsClause(h: string, b: nat, e: nat) { exists l: nat, r: nat :: OwnClause(h, b, e, l, r) }

  /** The break takes the place of the clause, of one delimiter behind it and of the white space. */
  predicate BrokenAt(h: string, r: nat, t: nat) {
    if r < |h| && Delimits(h[r]) then WhiteAfter(h, r + 1, t) else t == r
  }

  ghost predicate BreakWritten(h: string, b: nat, e: nat, brk: string, h': string, pos': nat) {
    exists l: nat, r: nat, t: nat ::
      && OwnClause(h, b, e, l, r) && BrokenAt(h, r, t) && l <= |h| && t <= |h|
      && h' == h[..l] + brk + h[t..] && pos' == l + |brk|
  }

  ghost predicate CommandTurn(phrase: string, brk: string, h: string, pos: nat, h': string, pos': nat) {
    exists b: nat ::
      StandsFirst(h, phrase, pos, b)
      && if IsClause(h, b, b + |phrase|) then BreakWritten(h, b, b + |phrase|, brk, h', pos')
         else h' == h && pos' == b + |phrase|
  }

  ghost predicate CommandScanned(phrase: string, brk: string, h: string, pos: nat, out: string)
    decreases |h| - pos
  {
    if StandsBehind(h, phrase, pos) then
      exists h': string, pos': nat ::
        && CommandTurn(phrase, brk, h, pos, h', pos') && Nearer(h, pos, h', pos') && |h| - pos >= 0
        && CommandScanned(phrase, brk, h', pos', out)
    else out == h
  }

  /** A paragraph is two line feeds, a line is one. */
  ghost predicate AllCommandsScanned(h: string, out: string) {
    exists a, b ::
      && CommandScanned("new paragraph", "\n\n", h, 0, a) && CommandScanned("new line", "\n", a, 0, b)
      && CommandScanned("newline", "\n", b, 0, out)
  }

  // ---------------------------------------------------------------- the program does this

  lemma ClassesAre(c: char)
    ensures InWords(c) == IsWordChar(c) && Small(c) == ToLower(c)
    ensures White(c) == IsSpace(c) && Delimits(c) == IsDelimiter(c)
  {
  }

  lemma StandsIs(h: string, n: string, p: nat)
    ensures Stands(h, n, p) <==> MatchAt(h, n, p)
  {
    if p + |n| <= |h| {
      var low := Lower(h);
      var part := low[p..p + |n|];
      forall i | 0 <= i < |n| ensures part[i] == Small(h[p + i]) { assert part[i] == low[p + i]; }
    }
  }

  lemma StandsFirstIs(h: string, n: string, from: nat, p: nat)
    requires from <= p && MatchAt(h, n, p) && forall q: nat :: from <= q < p ==> !MatchAt(h, n, q)
    ensures StandsFirst(h, n, from, p)
  {
    hide Stands, MatchAt;
    StandsIs(h, n, p);
    forall q: nat | from <= q < p ensures !Stands(h, n, q) { StandsIs(h, n, q); }
  }

  lemma StandsBehindIs(h: string, n: string, from: nat)
    ensures StandsBehind(h, n, from) <==> exists p: nat :: from <= p && MatchAt(h, n, p)
  {
    hide Stands, MatchAt;
    if p: nat :| from <= p && Stands(h, n, p) { StandsIs(h, n, p); }
    if p: nat :| from <= p && MatchAt(h, n, p) { StandsIs(h, n, p); }
  }

  lemma TrimmedWhite(h: string, b: nat)
    requires b <= |h|
    ensures var l := |TrimEnd(h[..b])|; WhiteBefore(h, l, b) && h[..l] == TrimEnd(h[..b])
  {
    TrimEndFacts(h[..b]);
    var l := |TrimEnd(h[..b])|;
    assert h[..b][..l] == h[..l];
    assert forall i :: 0 <= i < b ==> h[..b][i] == h[i];
    hide TrimEnd;
  }

  lemma SpacesAreWhite(h: string, a: nat, b: nat)
    requires a <= b <= |h| && (forall i :: a <= i < b ==> IsSpace(h[i])) && (b < |h| ==> !IsSpace(h[b]))
    ensures WhiteAfter(h, a, b)
  {
    forall i | a <= i < b ensures White(h[i]) {
      ClassesAre(h[i]);
    }
    if b < |h| { ClassesAre(h[b]); }
    hide White, IsSpace;
  }

  lemma SkippedAt(h: string, e: nat, n: nat)
    requires e + n <= |h|
    ensures h[e..][n..] == h[e + n..] && (e + n < |h| ==> h[e + n..][0] == h[e + n])
    ensures forall i :: e <= i < e + n ==> h[i] == h[e..][i - e]
  {
  }

  lemma SkippedWhite(h: string, e: nat)
    requires e <= |h|
    ensures var rest := SkipSpaces(h[e..]);
            |rest| <= |h| - e && WhiteAfter(h, e, |h| - |rest|) && h[|h| - |rest|..] == rest
  {
    SkipSpacesFacts(h[e..]);
    hide *;
    var n := |h| - e - |SkipSpaces(h[e..])|;
    SkippedAt(h, e, n);
    SpacesAreWhite(h, e, e + n);
  }

  lemma HoleTailWhite(h: string, e: nat)
    requires e <= |h|
    ensures var rest := HoleTail(h[e..]);
            |rest| <= |h| && h[|h| - |rest|..] == rest
            && WhiteAfter(h, if e < |h| && (h[e] == ',' || h[e] == ';') then e + 1 else e, |h| - |rest|)
  {
    if e < |h| && (h[e] == ',' || h[e] == ';') {
      assert h[e..][1..] == h[e + 1..];
      SkippedWhite(h, e + 1);
    } else {
      SkippedWhite(h, e);
    }
    hide SkipSpaces, White;
  }

  /** A deletion closes its hole. */
  lemma DeletionCloses(h: string, b: nat, e: nat)
    requires b < e <= |h|
    ensures var (h', pos') := RewriteAt("", h, b, e); HoleClosed(h, b, e, h', pos')
  {
    var left, right := TrimEnd(h[..b]), HoleTail(h[e..]);
    TrimmedWhite(h, b);
    HoleTailWhite(h, e);
    var l, r := |left|, |h| - |right|;
    assert HoleIs(h, b, e, l, r) by { hide WhiteBefore, WhiteAfter; }
    if l > 0 { assert left[l - 1] == h[l - 1] && !White(h[l - 1]); }
    if right != "" { assert right[0] == h[r]; ClassesAre(right[0]); }
    hide TrimEnd, HoleTail, HoleIs, WhiteBefore, WhiteAfter, IsWordChar, InWords;
    var (h', pos') := RewriteAt("", h, b, e);
    assert ClosedAt(h, l, r, h', pos');
  }

  lemma ReplacementSpliced(to: string, h: string, b: nat, e: nat)
    requires to != "" && b < e <= |h|
    ensures var (h', pos') := RewriteAt(to, h, b, e); Spliced(to, h, b, e, h', pos')
  {
    hide TrimEnd, HoleTail;
    assert [to[0]] + to[1..] == to;
  }

  lemma TurnIs(n: string, to: string, h: string, pos: nat, b: nat, h': string, pos': nat)
    requires StandsFirst(h, n, pos, b)
    requires if to == "" then HoleClosed(h, b, b + |n|, h', pos') else Spliced(to, h, b, b + |n|, h', pos')
    ensures Turn(n, to, h, pos, h', pos')
  {
    hide StandsFirst, HoleClosed, Spliced;
  }

  lemma NearerIs(h: string, pos: nat, b: nat, h': string, pos': nat)
    requires pos <= b && |h'| - pos' < |h| - b
    ensures Nearer(h, pos, h', pos')
  {
  }

  lemma DeletionTurns(n: string, h: string, pos: nat, b: nat)
    requires n != "" && StandsFirst(h, n, pos, b) && b + |n| <= |h|
    ensures var r := RewriteAt("", h, b, b + |n|); Turn(n, "", h, pos, r.0, r.1)
  {
    hide *;
    DeletionCloses(h, b, b + |n|);
    var r := RewriteAt("", h, b, b + |n|);
    TurnIs(n, "", h, pos, b, r.0, r.1);
  }

  lemma ReplacementTurns(n: string, to: string, h: string, pos: nat, b: nat)
    requires n != "" && to != "" && StandsFirst(h, n, pos, b) && b + |n| <= |h|
    ensures var r := RewriteAt(to, h, b, b + |n|); Turn(n, to, h, pos, r.0, r.1)
  {
    hide *;
    ReplacementSpliced(to, h, b, b + |n|);
    var r := RewriteAt(to, h, b, b + |n|);
    TurnIs(n, to, h, pos, b, r.0, r.1);
  }

  lemma RewriteTurns(n: string, to: string, h: string, pos: nat, b: nat)
    requires n != "" && b + |n| <= |h| && StandsFirst(h, n, pos, b)
    ensures var r := RewriteAt(to, h, b, b + |n|); Turn(n, to, h, pos, r.0, r.1) && Nearer(h, pos, r.0, r.1)
  {
    assert pos <= b;
    hide *;
    RewriteShrinks(to, h, b, b + |n|);
    var r := RewriteAt(to, h, b, b + |n|);
    NearerIs(h, pos, b, r.0, r.1);
    if to == "" { DeletionTurns(n, h, pos, b); } else { ReplacementTurns(n, to, h, pos, b); }
  }

  /** The scan of the program is this scan. */
  lemma {:induction false} ScanReads(n: string, to: string, h: string, pos: nat)
    requires n != ""
    ensures Scanned(n, to, h, pos, RewritePass(n, to, h, pos))
    decreases |h| - pos
  {
    hide MatchAt, RewriteAt, Turn, Nearer, StandsBehind;
    StandsBehindIs(h, n, pos);
    FirstMatchFacts(h, n, pos);
    RewriteTurn(n, to, h, pos);
    var hit := FirstMatch(h, n, pos);
    if hit.Some? {
      var b := hit.value;
      StandsFirstIs(h, n, pos, b);
      RewriteTurns(n, to, h, pos, b);
      RewriteShrinks(to, h, b, b + |n|);
      var (h', pos') := RewriteAt(to, h, b, b + |n|);
      ScanReads(n, to, h', pos');
    }
  }

  lemma SmallsAre(s: string)
    ensures Smalls(s) == Lower(s)
  {
  }

  lemma LowerNotEmpty(s: string)
    requires s != ""
    ensures Lower(s) != ""
  {
  }

  lemma {:induction false} DictionaryReads(entries: seq<DictionaryEntry>, h: string)
    requires forall e :: e in entries ==> e.from != ""
    ensures AllScanned(EntryEdits(entries), h, DictionaryPass(entries, h))
    decreases |entries|
  {
    hide Scanned, RewritePass, Lower, Smalls;
    if entries != [] {
      var k := |entries| - 1;
      DictionaryReads(entries[..k], h);
      assert EntryEdits(entries)[..k] == EntryEdits(entries[..k]);
      SmallsAre(entries[k].from);
      LowerNotEmpty(entries[k].from);
      ScanReads(Lower(entries[k].from), entries[k].to, DictionaryPass(entries[..k], h), 0);
    }
  }

  lemma FillerEdit(k: nat)
    requires k < 6
    ensures |FILLERS| == 6 && |FillerEdits()| == 6 && FillerEdits()[k] == Edit(FILLERS[k], "") && FILLERS[k] != ""
  {
  }

  lemma {:induction false} FillersRead(k: nat, h: string)
    requires k <= 6 == |FILLERS|
    ensures |FillerEdits()| == 6 && AllScanned(FillerEdits()[..k], h, FillerPass(k, h))
  {
    hide Scanned, RewritePass, FillerEdits;
    FillerEdit(0);
    if k > 0 {
      FillersRead(k - 1, h);
      FillerEdit(k - 1);
      assert FillerEdits()[..k][..k - 1] == FillerEdits()[..k - 1];
      ScanReads(FILLERS[k - 1], "", FillerPass(k - 1, h), 0);
    }
  }

  lemma OneWhite(h: string, b: nat, e: nat, l: nat, l': nat, r: nat, r': nat)
    requires WhiteBefore(h, l, b) && WhiteBefore(h, l', b) && WhiteAfter(h, e, r) && WhiteAfter(h, e, r')
    ensures l == l' && r == r'
  {
    hide White;
  }

  /** Where the white space before b begins. */
  function LeftEnd(h: string, b: nat): nat
    requires b <= |h|
  {
    |TrimEnd(h[..b])|
  }

  /** Where the white space from e on ends. */
  function RightEnd(h: string, e: nat): nat
    requires e <= |h|
  {
    SkipSpacesFacts(h[e..]);
    |h| - |SkipSpaces(h[e..])|
  }

  /** Where the text goes on behind a command. */
  function TailStart(h: string, e: nat): nat
    requires e <= |h|
  {
    var r := RightEnd(h, e);
    if r < |h| && IsDelimiter(h[r]) then RightEnd(h, r + 1) else r
  }

  lemma RightEndIs(h: string, e: nat)
    requires e <= |h|
    ensures var r := RightEnd(h, e); WhiteAfter(h, e, r) && h[r..] == SkipSpaces(h[e..])
  {
    SkippedWhite(h, e);
    hide SkipSpaces;
  }

  lemma LeftIs(h: string, b: nat)
    requires b <= |h|
    ensures var l := LeftEnd(h, b);
            && WhiteBefore(h, l, b) && h[..l] == TrimEnd(h[..b])
            && (LeftBoundary(h, b) <==> l == 0 || Delimits(h[l - 1]))
  {
    TrimmedWhite(h, b);
    var left := TrimEnd(h[..b]);
    var l := |left|;
    if l > 0 {
      assert left[l - 1] == h[l - 1];
      ClassesAre(h[l - 1]);
      assert !White(h[l - 1]);
    }
    hide TrimEnd, Delimits, IsDelimiter;
  }

  lemma RightIs(h: string, e: nat)
    requires e <= |h|
    ensures var r := RightEnd(h, e);
            && WhiteAfter(h, e, r)
            && (RightBoundary(h, e) <==> r == |h| || Delimits(h[r]) || 'A' <= h[r] <= 'Z')
  {
    RightEndIs(h, e);
    var right := SkipSpaces(h[e..]);
    var r := RightEnd(h, e);
    hide RightEnd;
    if r < |h| {
      assert right[0] == h[r];
      ClassesAre(h[r]);
      assert !White(h[r]);
    }
    hide SkipSpaces, Delimits, IsDelimiter;
  }

  lemma TailIs(h: string, e: nat)
    requires e <= |h|
    ensures var r, t := RightEnd(h, e), TailStart(h, e);
            t <= |h| && BrokenAt(h, r, t) && h[t..] == CommandTail(h[e..])
  {
    RightEndIs(h, e);
    var r := RightEnd(h, e);
    if r < |h| {
      assert h[r..][0] == h[r] && h[r..][1..] == h[r + 1..];
      ClassesAre(h[r]);
      RightEndIs(h, r + 1);
    }
    hide SkipSpaces, RightEnd, WhiteAfter, IsDelimiter, Delimits;
  }

  /** When the phrase forms its own clause. */
  lemma ClauseIs(h: string, b: nat, e: nat)
    requires b <= e <= |h|
    ensures IsClause(h, b, e) <==> LeftBoundary(h, b) && RightBoundary(h, e)
    ensures LeftBoundary(h, b) && RightBoundary(h, e) ==> OwnClause(h, b, e, LeftEnd(h, b), RightEnd(h, e))
  {
    LeftIs(h, b);
    RightIs(h, e);
    var l, r := LeftEnd(h, b), RightEnd(h, e);
    hide TrimEnd, LeftEnd, RightEnd, Delimits, LeftBoundary, RightBoundary, WhiteBefore, WhiteAfter;
    if LeftBoundary(h, b) && RightBoundary(h, e) { assert OwnClause(h, b, e, l, r); }
    if IsClause(h, b, e) {
      var i: nat, j: nat :| OwnClause(h, b, e, i, j);
      OneWhite(h, b, e, i, l, j, r);
    }
  }

  lemma BrokenIs(h: string, b: nat, e: nat, brk: string)
    requires b <= e <= |h|
    ensures LeftEnd(h, b) <= |h| && TailStart(h, e) <= |h|
    ensures Broken(h, b, e, brk) == h[..LeftEnd(h, b)] + brk + h[TailStart(h, e)..]
    ensures |TrimEnd(h[..b])| == LeftEnd(h, b)
  {
    LeftIs(h, b);
    TailIs(h, e);
    hide TrimEnd, CommandTail, TailStart, LeftBoundary, BrokenAt, WhiteBefore;
  }

  lemma BreakIs(h: string, b: nat, e: nat, brk: string, l: nat, r: nat, t: nat, h': string)
    requires OwnClause(h, b, e, l, r) && BrokenAt(h, r, t) && l <= |h| && t <= |h| && h' == h[..l] + brk + h[t..]
    ensures IsClause(h, b, e) && BreakWritten(h, b, e, brk, h', l + |brk|)
  {
    hide OwnClause, BrokenAt;
  }

  lemma BreakAt(h: string, b: nat, e: nat, brk: string)
    requires b <= e <= |h| && LeftBoundary(h, b) && RightBoundary(h, e)
    ensures IsClause(h, b, e) && BreakWritten(h, b, e, brk, Broken(h, b, e, brk), LeftEnd(h, b) + |brk|)
  {
    hide *;
    ClauseIs(h, b, e);
    TailIs(h, e);
    BrokenIs(h, b, e, brk);
    BreakIs(h, b, e, brk, LeftEnd(h, b), RightEnd(h, e), TailStart(h, e), Broken(h, b, e, brk));
  }

  lemma CommandParts(cmd: Command, h: string, b: nat)
    requires IsCommand(h, cmd.phrase, b)
    ensures b + |cmd.phrase| <= |h| && LeftBoundary(h, b) && RightBoundary(h, b + |cmd.phrase|)
  {
    assert MatchAt(h, cmd.phrase, b);
    hide LeftBoundary, RightBoundary;
  }

  lemma BreakReads(cmd: Command, h: string, b: nat)
    requires IsCommand(h, cmd.phrase, b)
    ensures b + |cmd.phrase| <= |h|
    ensures var e := b + |cmd.phrase|;
            var h' := Broken(h, b, e, cmd.replacement);
            IsClause(h, b, e) && BreakWritten(h, b, e, cmd.replacement, h', LeftEnd(h, b) + |cmd.replacement|)
  {
    CommandParts(cmd, h, b);
    hide *;
    BreakAt(h, b, b + |cmd.phrase|, cmd.replacement);
  }

  lemma CommandIs(cmd: Command, h: string, b: nat)
    requires MatchAt(h, cmd.phrase, b)
    ensures b + |cmd.phrase| <= |h|
    ensures IsCommand(h, cmd.phrase, b) <==> LeftBoundary(h, b) && RightBoundary(h, b + |cmd.phrase|)
  {
    hide LeftBoundary, RightBoundary;
  }

  lemma BreakTurns(phrase: string, brk: string, h: string, pos: nat, b: nat, h': string, pos': nat)
    requires StandsFirst(h, phrase, pos, b) && IsClause(h, b, b + |phrase|)
    requires BreakWritten(h, b, b + |phrase|, brk, h', pos')
    ensures CommandTurn(phrase, brk, h, pos, h', pos')
  {
    hide StandsFirst, IsClause, BreakWritten;
  }

  lemma NoBreakTurns(phrase: string, brk: string, h: string, pos: nat, b: nat)
    requires StandsFirst(h, phrase, pos, b) && !IsClause(h, b, b + |phrase|)
    ensures CommandTurn(phrase, brk, h, pos, h, b + |phrase|)
  {
    hide StandsFirst, IsClause, BreakWritten;
  }

  lemma CommandTurns(cmd: Command, h: string, pos: nat, b: nat)
    requires GoodCommand(cmd) && pos <= b && MatchAt(h, cmd.phrase, b)
    requires forall q: nat :: pos <= q < b ==> !MatchAt(h, cmd.phrase, q)
    ensures b + |cmd.phrase| <= |h|
    ensures if IsCommand(h, cmd.phrase, b)
            then CommandTurn(cmd.phrase, cmd.replacement, h, pos, Broken(h, b, b + |cmd.phrase|, cmd.replacement),
                             LeftEnd(h, b) + |cmd.replacement|)
            else CommandTurn(cmd.phrase, cmd.replacement, h, pos, h, b + |cmd.phrase|)
  {
    hide *;
    CommandIs(cmd, h, b);
    StandsFirstIs(h, cmd.phrase, pos, b);
    ClauseIs(h, b, b + |cmd.phrase|);
    if IsCommand(h, cmd.phrase, b) {
      BreakReads(cmd, h, b);
      BreakTurns(cmd.phrase, cmd.replacement, h, pos, b, Broken(h, b, b + |cmd.phrase|, cmd.replacement),
                 LeftEnd(h, b) + |cmd.replacement|);
    } else {
      NoBreakTurns(cmd.phrase, cmd.replacement, h, pos, b);
    }
  }

  lemma {:induction false} CommandReads(cmd: Command, h: string, pos: nat)
    requires GoodCommand(cmd)
    ensures CommandScanned(cmd.phrase, cmd.replacement, h, pos, CommandPass(cmd, h, pos))
    decreases |h| - pos
  {
    hide GoodCommand, MatchAt, IsCommand, Broken, CommandTurn, StandsBehind, TrimEnd;
    PhraseNotEmpty(cmd);
    StandsBehindIs(h, cmd.phrase, pos);
    FirstMatchFacts(h, cmd.phrase, pos);
    CommandPassTurn(cmd, h, pos);
    var hit := FirstMatch(h, cmd.phrase, pos);
    if hit.Some? {
      var b := hit.value;
      CommandTurns(cmd, h, pos, b);
      if IsCommand(h, cmd.phrase, b) {
        BreakKeepsWords(cmd, h, b);
        CommandReads(cmd, Broken(h, b, b + |cmd.phrase|, cmd.replacement), |TrimEnd(h[..b])| + |cmd.replacement|);
      } else {
        CommandReads(cmd, h, b + |cmd.phrase|);
      }
    }
  }

  lemma ThreePasses(h: string)
    ensures (forall cmd :: cmd in COMMANDS ==> GoodCommand(cmd)) && |COMMANDS| == 3
    ensures COMMANDS[0] in COMMANDS && COMMANDS[1] in COMMANDS && COMMANDS[2] in COMMANDS
    ensures CommandsApplied(h)
         == CommandPass(COMMANDS[2], CommandPass(COMMANDS[1], CommandPass(COMMANDS[0], h, 0), 0), 0)
  {
    CommandsUnfold(h);
    hide GoodCommand, CommandPass, CommandsApplied;
    assert COMMANDS[..2][..1] == COMMANDS[..1] && COMMANDS[..1][..0] == [];
    assert COMMANDS == COMMANDS[..2] + [COMMANDS[2]];
    assert AllCommandsPass([], h) == h;
    assert AllCommandsPass(COMMANDS[..1], h) == CommandPass(COMMANDS[0], h, 0);
    assert AllCommandsPass(COMMANDS[..2], h) == CommandPass(COMMANDS[1], AllCommandsPass(COMMANDS[..1], h), 0);
  }

  lemma CommandsRead(h: string)
    ensures AllCommandsScanned(h, CommandsApplied(h))
  {
    GoodCommands();
    assert COMMANDS[0] in COMMANDS && COMMANDS[1] in COMMANDS && COMMANDS[2] in COMMANDS;
    var a := CommandPass(COMMANDS[0], h, 0);
    var b := CommandPass(COMMANDS[1], a, 0);
    ThreePasses(h);
    hide CommandPass, CommandScanned, GoodCommand, CommandsApplied;
    CommandReads(COMMANDS[0], h, 0);
    CommandReads(COMMANDS[1], a, 0);
    CommandReads(COMMANDS[2], b, 0);
  }

  // ---------------------------------------------------------------- only this

  lemma FirstOnly(h: string, n: string, from: nat, p: nat, q: nat)
    requires StandsFirst(h, n, from, p) && StandsFirst(h, n, from, q)
    ensures p == q
  {
    hide Stands;
  }

  lemma HoleOnly(h: string, b: nat, e: nat, x: string, p: nat, y: string, q: nat)
    requires b <= e && HoleClosed(h, b, e, x, p) && HoleClosed(h, b, e, y, q)
    ensures x == y && p == q
  {
    var l: nat, r: nat :| HoleIs(h, b, e, l, r) && ClosedAt(h, l, r, x, p);
    var i: nat, j: nat :| HoleIs(h, b, e, i, j) && ClosedAt(h, i, j, y, q);
    OneWhite(h, b, if e < |h| && (h[e] == ',' || h[e] == ';') then e + 1 else e, l, i, r, j);
    hide WhiteBefore, WhiteAfter, InWords;
  }

  lemma TurnOnly(n: string, to: string, h: string, pos: nat, x: string, p: nat, y: string, q: nat)
    requires Turn(n, to, h, pos, x, p) && Turn(n, to, h, pos, y, q)
    ensures x == y && p == q
  {
    hide StandsFirst, HoleClosed;
    var b: nat :| StandsFirst(h, n, pos, b)
      && if to == "" then HoleClosed(h, b, b + |n|, x, p) else Spliced(to, h, b, b + |n|, x, p);
    var c: nat :| StandsFirst(h, n, pos, c)
      && if to == "" then HoleClosed(h, c, c + |n|, y, q) else Spliced(to, h, c, c + |n|, y, q);
    FirstOnly(h, n, pos, b, c);
    if to == "" { HoleOnly(h, b, b + |n|, x, p, y, q); }
  }

  lemma NearerBy(h: string, pos: nat, h': string, pos': nat)
    requires Nearer(h, pos, h', pos')
    ensures |h'| - pos' < |h| - pos
  {
  }

  lemma {:induction false} ScannedOnly(n: string, to: string, h: string, pos: nat, out: string, out': string)
    requires Scanned(n, to, h, pos, out) && Scanned(n, to, h, pos, out')
    ensures out == out'
    decreases |h| - pos
  {
    hide Turn, Nearer, StandsBehind;
    if StandsBehind(h, n, pos) {
      var x: string, p: nat :|
        Turn(n, to, h, pos, x, p) && Nearer(h, pos, x, p) && |h| - pos >= 0 && Scanned(n, to, x, p, out);
      var y: string, q: nat :|
        Turn(n, to, h, pos, y, q) && Nearer(h, pos, y, q) && |h| - pos >= 0 && Scanned(n, to, y, q, out');
      TurnOnly(n, to, h, pos, x, p, y, q);
      NearerBy(h, pos, x, p);
      ScannedOnly(n, to, x, p, out, out');
    }
  }

  lemma {:induction false} AllScannedOnly(edits: seq<Edit>, h: string, out: string, out': string)
    requires AllScanned(edits, h, out) && AllScanned(edits, h, out')
    ensures out == out'
    decreases |edits|
  {
    hide Scanned;
    if edits != [] {
      var k := |edits| - 1;
      var mid :| AllScanned(edits[..k], h, mid) && Scanned(edits[k].phrase, edits[k].to, mid, 0, out);
      var mid' :| AllScanned(edits[..k], h, mid') && Scanned(edits[k].phrase, edits[k].to, mid', 0, out');
      AllScannedOnly(edits[..k], h, mid, mid');
      ScannedOnly(edits[k].phrase, edits[k].to, mid, 0, out, out');
    }
  }

  lemma OneAfter(h: string, e: nat, r: nat, r': nat)
    requires WhiteAfter(h, e, r) && WhiteAfter(h, e, r')
    ensures r == r'
  {
    hide White;
  }

  lemma BreakOnly(h: string, b: nat, e: nat, brk: string, x: string, p: nat, y: string, q: nat)
    requires b <= e && BreakWritten(h, b, e, brk, x, p) && BreakWritten(h, b, e, brk, y, q)
    ensures x == y && p == q
  {
    var l: nat, r: nat, t: nat :| OwnClause(h, b, e, l, r) && BrokenAt(h, r, t) && l <= |h| && t <= |h|
      && x == h[..l] + brk + h[t..] && p == l + |brk|;
    var i: nat, j: nat, u: nat :| OwnClause(h, b, e, i, j) && BrokenAt(h, j, u) && i <= |h| && u <= |h|
      && y == h[..i] + brk + h[u..] && q == i + |brk|;
    hide Delimits;
    OneWhite(h, b, e, l, i, r, j);
    if r < |h| && Delimits(h[r]) { OneAfter(h, r + 1, t, u); }
  }

  lemma CommandTurnOnly(phrase: string, brk: string, h: string, pos: nat, x: string, p: nat, y: string, q: nat)
    requires CommandTurn(phrase, brk, h, pos, x, p) && CommandTurn(phrase, brk, h, pos, y, q)
    ensures x == y && p == q
  {
    hide StandsFirst, IsClause, BreakWritten;
    var b: nat :| StandsFirst(h, phrase, pos, b)
      && if IsClause(h, b, b + |phrase|) then BreakWritten(h, b, b + |phrase|, brk, x, p)
         else x == h && p == b + |phrase|;
    var c: nat :| StandsFirst(h, phrase, pos, c)
      && if IsClause(h, c, c + |phrase|) then BreakWritten(h, c, c + |phrase|, brk, y, q)
         else y == h && q == c + |phrase|;
    FirstOnly(h, phrase, pos, b, c);
    if IsClause(h, b, b + |phrase|) { BreakOnly(h, b, b + |phrase|, brk, x, p, y, q); }
  }

  lemma {:induction false} CommandScannedOnly(phrase: string, brk: string, h: string, pos: nat, out: string,
                                              out': string)
    requires CommandScanned(phrase, brk, h, pos, out) && CommandScanned(phrase, brk, h, pos, out')
    ensures out == out'
    decreases |h| - pos
  {
    hide CommandTurn, Nearer, StandsBehind;
    if StandsBehind(h, phrase, pos) {
      var x: string, p: nat :|
        CommandTurn(phrase, brk, h, pos, x, p) && Nearer(h, pos, x, p) && |h| - pos >= 0
        && CommandScanned(phrase, brk, x, p, out);
      var y: string, q: nat :|
        CommandTurn(phrase, brk, h, pos, y, q) && Nearer(h, pos, y, q) && |h| - pos >= 0
        && CommandScanned(phrase, brk, y, q, out');
      CommandTurnOnly(phrase, brk, h, pos, x, p, y, q);
      NearerBy(h, pos, x, p);
      CommandScannedOnly(phrase, brk, x, p, out, out');
    }
  }

  lemma AllCommandsOnly(h: string, out: string, out': string)
    requires AllCommandsScanned(h, out) && AllCommandsScanned(h, out')
    ensures out == out'
  {
    hide CommandScanned;
    var a, b :| CommandScanned("new paragraph", "\n\n", h, 0, a) && CommandScanned("new line", "\n", a, 0, b)
      && CommandScanned("newline", "\n", b, 0, out);
    var c, d :| CommandScanned("new paragraph", "\n\n", h, 0, c) && CommandScanned("new line", "\n", c, 0, d)
      && CommandScanned("newline", "\n", d, 0, out');
    CommandScannedOnly("new paragraph", "\n\n", h, 0, a, c);
    CommandScannedOnly("new line", "\n", a, 0, b, d);
    CommandScannedOnly("newline", "\n", b, 0, out, out');
  }
}
