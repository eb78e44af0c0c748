/** What `normalize` does to a text, character by character, in terms of the text alone: which characters
    stay, where one space stands, and which letters are raised. No text but the result is like this. */
module Typography {
  import opened Ctype
  import opened Normalizer

  /** A character other than space and tab, and whether a space or tab stands directly before it. */
  datatype Mark = Mark(c: char, spaced: bool)

  /** The marks of a text; `spaced`: a space or tab has just been read. */
  function Marks(spaced: bool, s: string): seq<Mark>
    decreases s
  {
    if s == "" then []
    else if s[0] == ' ' || s[0] == '\t' then Marks(true, s[1..])
    else [Mark(s[0], spaced)] + Marks(false, s[1..])
  }

  /** Space, \t, \n, \v, \f and \r. */
  predicate White(c: char) { c == ' ' || '\t' <= c <= '\r' }

  /** A space stands before mark k of the result: a blank stood there, the mark is not the first of its
      line, and it is neither closing punctuation nor a line feed. */
  predicate Separated(m: seq<Mark>, k: nat)
    requires k < |m|
  {
    m[k].spaced && k > 0 && m[k - 1].c != '\n' && m[k].c !in ",.!?;:\n"
  }

  predicate OpensFrom(m: seq<Mark>, j: nat, k: nat)
    requires k <= |m|
  {
    && j <= k && (j == 0 || m[j - 1].c in ".!?\n")
    && forall i :: j <= i < k ==> White(m[i].c) || m[i].c == '"' || m[i].c == '\''
  }

  /** Mark k begins a sentence: only white space and quotes stand between it and a full stop, an
      exclamation or question mark, a line feed or the beginning. */
  ghost predicate Opens(m: seq<Mark>, k: nat)
    requires k <= |m|
  {
    exists j: nat :: OpensFrom(m, j, k)
  }

  /** The character at mark k of the result: a small letter that begins a sentence is raised. */
  ghost function Raised(m: seq<Mark>, k: nat): char
    requires k < |m|
  {
    if Opens(m, k) && 'a' <= m[k].c <= 'z' then m[k].c - 'a' + 'A' else m[k].c
  }

  predicate SingleAt(s: string, i: nat)
    requires i < |s|
  {
    s[i] != '\t' && (s[i] == ' ' ==> |s| > i + 1 && s[i + 1] != ' ')
  }

  /** No tabs, and every space stands alone and before something. */
  predicate SingleSpaces(s: string) { forall i :: 0 <= i < |s| ==> SingleAt(s, i) }

  /** The first n marks are those up to the last that is not white space. */
  predicate UpTo(m: seq<Mark>, n: nat) {
    n <= |m| && (forall k :: n <= k < |m| ==> White(m[k].c)) && (n > 0 ==> !White(m[n - 1].c))
  }

  /** What `normalize` is for. */
  ghost predicate Normalizes(text: string, out: string) {
    var m, r := Marks(false, text), Marks(false, out);
    && SingleSpaces(out) && UpTo(m, |r|)
    && forall k :: 0 <= k < |r| ==> r[k] == Mark(Raised(m, k), Separated(m, k))
  }

  // ---------------------------------------------------------------- one text only

  lemma SingleTail(s: string, n: nat)
    requires SingleSpaces(s) && n <= |s|
    ensures SingleSpaces(s[n..])
  {
    var t := s[n..];
    forall i | 0 <= i < |t| ensures SingleAt(t, i) {
      assert SingleAt(s, n + i);
    }
  }

  lemma MarksHead(spaced: bool, s: string)
    requires s != "" && s[0] != ' ' && s[0] != '\t'
    ensures Marks(spaced, s) == [Mark(s[0], spaced)] + Marks(false, s[1..])
  {
  }

  /** The first mark of a text with single spaces. */
  lemma FirstMark(s: string)
    requires SingleSpaces(s) && s != ""
    ensures var n := if s[0] == ' ' then 1 else 0;
            n < |s| && Marks(false, s) == [Mark(s[n], n == 1)] + Marks(false, s[n + 1..])
  {
    assert SingleAt(s, 0);
    if s[0] == ' ' {
      assert SingleAt(s, 1);
      assert s[1..][0] == s[1];
      MarksHead(true, s[1..]);
      assert s[1..][1..] == s[2..];
    } else {
      MarksHead(false, s);
    }
  }

  lemma NoMarks(s: string)
    requires SingleSpaces(s)
    ensures Marks(false, s) == [] <==> s == ""
  {
    if s != "" { FirstMark(s); }
  }

  lemma {:induction false} MarksDetermine(s: string, t: string)
    requires SingleSpaces(s) && SingleSpaces(t) && Marks(false, s) == Marks(false, t)
    ensures s == t
    decreases |s|
  {
    hide SingleSpaces, Marks;
    if s == "" || t == "" {
      NoMarks(s);
      NoMarks(t);
    } else {
      FirstMark(s);
      FirstMark(t);
      var n, k := if s[0] == ' ' then 1 else 0, if t[0] == ' ' then 1 else 0;
      assert Marks(false, s)[0] == Mark(s[n], n == 1) && Marks(false, t)[0] == Mark(t[k], k == 1);
      assert Marks(false, s)[1..] == Marks(false, s[n + 1..]) && Marks(false, t)[1..] == Marks(false, t[k + 1..]);
      SingleTail(s, n + 1);
      SingleTail(t, n + 1);
      MarksDetermine(s[n + 1..], t[n + 1..]);
      assert s == s[..n + 1] + s[n + 1..] && t == t[..n + 1] + t[n + 1..];
      assert s[..n + 1] == t[..n + 1];
    }
  }

  lemma UpToOne(m: seq<Mark>, n: nat, k: nat)
    requires UpTo(m, n) && UpTo(m, k)
    ensures n == k
  {
  }

  // ---------------------------------------------------------------- collapsing

  /** The marks with the spaces that stay; `edge`: nothing, or a line feed, stands before. */
  function Kept(edge: bool, m: seq<Mark>): seq<Mark>
    decreases m
  {
    if m == [] then []
    else [Mark(m[0].c, m[0].spaced && !edge && m[0].c !in ",.!?;:\n")] + Kept(m[0].c == '\n', m[1..])
  }

  lemma {:induction false} KeptAt(edge: bool, m: seq<Mark>, k: nat)
    requires k < |m|
    ensures |Kept(edge, m)| == |m|
    ensures Kept(edge, m)[k].c == m[k].c
    ensures Kept(edge, m)[k].spaced
            <==> m[k].spaced && (if k == 0 then !edge else m[k - 1].c != '\n') && m[k].c !in ",.!?;:\n"
    decreases m
  {
    if k == 0 {
      if |m| > 1 { KeptAt(m[0].c == '\n', m[1..], 0); }
    } else {
      KeptAt(m[0].c == '\n', m[1..], k - 1);
    }
  }

  lemma {:induction false} BlanksUnmarked(s: string)
    ensures Marks(true, AfterBlanks(s)) == Marks(true, s)
  {
    if s != "" && IsBlank(s[0]) { BlanksUnmarked(s[1..]); }
  }

  lemma KeptHead(edge: bool, c: char, spaced: bool, m: seq<Mark>)
    ensures Kept(edge, [Mark(c, spaced)] + m) == [Mark(c, spaced && !edge && c !in ",.!?;:\n")] + Kept(c == '\n', m)
  {
    assert ([Mark(c, spaced)] + m)[1..] == m;
  }

  /** A space in front changes the first mark only. */
  lemma SpaceMarks(s: string)
    requires s != "" && !IsBlank(s[0])
    ensures Marks(false, " " + s) == [Mark(s[0], true)] + Marks(false, s)[1..]
    ensures Marks(false, s) != [] && Marks(false, s)[0] == Mark(s[0], false)
  {
    assert (" " + s)[1..] == s;
  }

  lemma {:induction false} CollapseMarks(edge: bool, s: string)
    ensures Marks(false, Collapse(edge, s)) == Kept(edge, Marks(false, s))
    decreases |s|
  {
    if s == "" {
    } else if IsBlank(s[0]) {
      var rest := AfterBlanks(s[1..]);
      BlanksUnmarked(s[1..]);
      AfterBlanksFacts(s[1..]);
      assert Marks(false, s) == Marks(true, rest);
      CollapseMarks(edge, rest);
      CollapseMarks(false, rest);
      if rest != "" {
        MarksHead(true, rest);
        MarksHead(false, rest);
        KeptHead(edge, rest[0], true, Marks(false, rest[1..]));
        KeptHead(edge, rest[0], false, Marks(false, rest[1..]));
        KeptHead(false, rest[0], false, Marks(false, rest[1..]));
        CollapseHead(false, rest);
        SpaceMarks(Collapse(false, rest));
      }
    } else {
      CollapseMarks(s[0] == '\n', s[1..]);
      var out := [s[0]] + Collapse(s[0] == '\n', s[1..]);
      assert out[1..] == Collapse(s[0] == '\n', s[1..]);
      KeptHead(edge, s[0], false, Marks(false, s[1..]));
    }
  }

  // ---------------------------------------------------------------- trimming

  lemma {:induction false} MarksSnoc(spaced: bool, s: string, c: char)
    ensures |Marks(spaced, s + [c])| == |Marks(spaced, s)| + (if c == ' ' || c == '\t' then 0 else 1)
    ensures Marks(spaced, s + [c])[..|Marks(spaced, s)|] == Marks(spaced, s)
    ensures c != ' ' && c != '\t' ==> Marks(spaced, s + [c])[|Marks(spaced, s)|].c == c
    decreases s
  {
    if s == "" {
      assert s + [c] == [c] && [c][1..] == "";
    } else {
      assert (s + [c])[1..] == s[1..] + [c];
      MarksSnoc(s[0] == ' ' || s[0] == '\t', s[1..], c);
    }
  }

  lemma {:induction false} TrimMarks(s: string)
    ensures var m, r := Marks(false, s), Marks(false, TrimEnd(s));
            UpTo(m, |r|) && r == m[..|r|]
  {
    if s != "" {
      var init, c := s[..|s| - 1], s[|s| - 1];
      assert s == init + [c];
      MarksSnoc(false, init, c);
      if IsSpace(c) {
        TrimMarks(init);
        var m, r := Marks(false, s), Marks(false, TrimEnd(init));
        assert m[..|Marks(false, init)|][..|r|] == m[..|r|];
        assert forall k :: 0 <= k < |Marks(false, init)| ==> m[k] == Marks(false, init)[k];
      }
    }
  }

  // ---------------------------------------------------------------- capitalising

  function RaisedFrom(next: bool, m: seq<Mark>): seq<Mark>
    decreases m
  {
    if m == [] then []
    else [Mark(if next then ToUpper(m[0].c) else m[0].c, m[0].spaced)] + RaisedFrom(NextCapital(next, m[0].c), m[1..])
  }

  lemma RaisedHead(next: bool, c: char, spaced: bool, m: seq<Mark>)
    ensures RaisedFrom(next, [Mark(c, spaced)] + m)
         == [Mark(if next then ToUpper(c) else c, spaced)] + RaisedFrom(NextCapital(next, c), m)
  {
    assert ([Mark(c, spaced)] + m)[1..] == m;
  }

  lemma {:induction false} CapitalizeMarks(next: bool, spaced: bool, s: string)
    ensures Marks(spaced, Capitalize(next, s)) == RaisedFrom(next, Marks(spaced, s))
    decreases |s|
  {
    if s != "" {
      var out := Capitalize(next, s);
      assert out[1..] == Capitalize(NextCapital(next, s[0]), s[1..]);
      CapitalizeMarks(NextCapital(next, s[0]), s[0] == ' ' || s[0] == '\t', s[1..]);
      if s[0] != ' ' && s[0] != '\t' { RaisedHead(next, s[0], spaced, Marks(false, s[1..])); }
    }
  }

  /** Whether the next letter is to be raised, after the first k marks. */
  function NextAfter(m: seq<Mark>, k: nat): bool
    requires k <= |m|
  {
    if k == 0 then true else NextCapital(NextAfter(m, k - 1), m[k - 1].c)
  }

  lemma OpensNext(m: seq<Mark>, k: nat)
    requires 0 < k <= |m|
    ensures Opens(m, k) <==> NextCapital(Opens(m, k - 1), m[k - 1].c)
  {
    var c := m[k - 1].c;
    if Opens(m, k) {
      var j: nat :| OpensFrom(m, j, k);
      if j < k {
        assert White(c) || c == '"' || c == '\'';
        assert OpensFrom(m, j, k - 1);
      }
    }
    if Opens(m, k - 1) && !EndsSentence(c) && (IsSpace(c) || IsQuote(c)) {
      var j: nat :| OpensFrom(m, j, k - 1);
      assert OpensFrom(m, j, k);
    }
    if EndsSentence(c) { assert OpensFrom(m, k, k); }
  }

  lemma {:induction false} NextOpens(m: seq<Mark>, k: nat)
    requires k <= |m|
    ensures NextAfter(m, k) <==> Opens(m, k)
  {
    if k == 0 {
      assert OpensFrom(m, 0, 0);
    } else {
      NextOpens(m, k - 1);
      OpensNext(m, k);
    }
  }

  lemma {:induction false} RaisedFromAt(m: seq<Mark>, d: nat, k: nat)
    requires d + k < |m|
    ensures |RaisedFrom(NextAfter(m, d), m[d..])| == |m| - d
    ensures RaisedFrom(NextAfter(m, d), m[d..])[k]
         == Mark(if NextAfter(m, d + k) then ToUpper(m[d + k].c) else m[d + k].c, m[d + k].spaced)
    decreases |m| - d
  {
    hide NextCapital;
    assert m[d..] == [m[d]] + m[d + 1..];
    RaisedHead(NextAfter(m, d), m[d].c, m[d].spaced, m[d + 1..]);
    if d + 1 < |m| {
      RaisedFromAt(m, d + 1, if k > 0 then k - 1 else 0);
    }
  }

  // ---------------------------------------------------------------- all three steps

  /** Sentences begin at the same marks in a text with the same characters. */
  lemma SameOpens(m: seq<Mark>, r: seq<Mark>, k: nat)
    requires k <= |m| && k <= |r| && forall i :: 0 <= i < k ==> m[i].c == r[i].c
    ensures Opens(m, k) ==> Opens(r, k)
  {
    if Opens(m, k) {
      var j: nat :| OpensFrom(m, j, k);
      assert OpensFrom(r, j, k);
    }
  }

  lemma CutMarks(m: seq<Mark>, c: seq<Mark>, t: seq<Mark>)
    requires |c| == |m| && (forall k :: 0 <= k < |m| ==> c[k].c == m[k].c) && UpTo(c, |t|) && t == c[..|t|]
    ensures |t| <= |m| && UpTo(m, |t|) && forall k :: 0 <= k < |t| ==> t[k] == c[k]
  {
  }

  lemma MarkIs(m: seq<Mark>, c: Mark, t: seq<Mark>, k: nat)
    requires k < |m| && k < |t| && c == Mark(m[k].c, Separated(m, k)) && t[k] == c
    requires Opens(t, k) <==> Opens(m, k)
    ensures Mark(Raised(t, k), t[k].spaced) == Mark(Raised(m, k), Separated(m, k))
  {
    hide Opens, Separated;
  }

  lemma RaisedMarks(t: seq<Mark>)
    ensures var r := RaisedFrom(true, t);
            |r| == |t| && forall k :: 0 <= k < |t| ==> r[k] == Mark(Raised(t, k), t[k].spaced)
  {
    assert t[0..] == t;
    forall k | 0 <= k < |t|
      ensures |RaisedFrom(true, t)| == |t| && RaisedFrom(true, t)[k] == Mark(Raised(t, k), t[k].spaced)
    {
      RaisedFromAt(t, 0, k);
      NextOpens(t, k);
    }
    hide Opens;
  }

  lemma CollapsedMarks(m: seq<Mark>, c: seq<Mark>)
    requires c == Kept(true, m)
    ensures |c| == |m| && forall k :: 0 <= k < |m| ==> c[k] == Mark(m[k].c, Separated(m, k))
  {
    forall k | 0 <= k < |m| ensures |c| == |m| && c[k] == Mark(m[k].c, Separated(m, k)) { KeptAt(true, m, k); }
  }

  lemma NormalizedMarks(text: string)
    ensures var m, r := Marks(false, text), Marks(false, Normalized(text));
            UpTo(m, |r|) && forall k :: 0 <= k < |r| ==> r[k] == Mark(Raised(m, k), Separated(m, k))
  {
    var m := Marks(false, text);
    var collapsed := Collapse(true, text);
    var c, t := Marks(false, collapsed), Marks(false, TrimEnd(collapsed));
    CollapseMarks(true, text);
    TrimMarks(collapsed);
    CapitalizeMarks(true, false, TrimEnd(collapsed));
    var r := Marks(false, Normalized(text));
    assert r == RaisedFrom(true, t) && c == Kept(true, m);
    hide *;
    CollapsedMarks(m, c);
    CutMarks(m, c, t);
    RaisedMarks(t);
    forall k | 0 <= k < |t| ensures r[k] == Mark(Raised(m, k), Separated(m, k)) {
      SameOpens(t, m, k);
      SameOpens(m, t, k);
      MarkIs(m, c[k], t, k);
    }
  }

  lemma NormalSingle(s: string)
    requires NormalForm(s)
    ensures SingleSpaces(s)
  {
    forall i | 0 <= i < |s| ensures SingleAt(s, i) {
      var next := i + 1;
      assert next < |s| && s[next] == ' ' ==> s[next - 1] != ' ' && s[next - 1] == s[i];
    }
  }

  /** The result of `normalize` is exactly the text that is made from the given one in this way. */
  lemma NormalizedExactly(text: string, out: string)
    ensures out == Normalized(text) <==> Normalizes(text, out)
  {
    NormalizedMarks(text);
    NormalizedIsNormal(text);
    NormalSingle(Normalized(text));
    hide Marks, Normalized, Separated, Opens, SingleSpaces;
    if Normalizes(text, out) {
      UpToOne(Marks(false, text), |Marks(false, out)|, |Marks(false, Normalized(text))|);
      assert Marks(false, out) == Marks(false, Normalized(text));
      MarksDetermine(out, Normalized(text));
    }
  }
}
