/** The last stage of the transcript pipeline: white space and capitalisation repair.
    `normalize` is idempotent; its fixed points are the texts in an explicit normal form;
    it keeps every word and every printing character up to case. */
module Normalizer {
  import opened SeqFacts
  import opened Ctype
  import opened WordSplit

  predicate IsBlank(c: char) { c == ' ' || c == '\t' }

  /** Characters before which a run of blanks is dropped. */
  predicate ClosesUp(c: char) {
    c == ',' || c == '.' || c == '!' || c == '?' || c == ';' || c == ':' || c == '\n'
  }

  predicate EndsSentence(c: char) { c == '.' || c == '!' || c == '?' || c == '\n' }

  predicate IsQuote(c: char) { c == '"' || c == '\'' }

  // ---------------------------------------------------------------- the three steps as functions

  /** What lies behind the run of blanks at the front of `s`. */
  function AfterBlanks(s: string): (r: string)
    ensures |r| <= |s|
  {
    if s != "" && IsBlank(s[0]) then AfterBlanks(s[1..]) else s
  }

  /** Runs of blanks become one space, or nothing at the edge of a line and before closing
      punctuation. `atEdge`: nothing, or a line break, has been written just before. */
  function Collapse(atEdge: bool, s: string): string
    decreases |s|
  {
    if s == "" then ""
    else if IsBlank(s[0]) then
      var rest := AfterBlanks(s[1..]);
      if atEdge || (rest != "" && ClosesUp(rest[0])) then Collapse(atEdge, rest)
      else " " + Collapse(false, rest)
    else [s[0]] + Collapse(s[0] == '\n', s[1..])
  }

  /** Whether the next letter is capitalised after the character `c`. */
  function NextCapital(next: bool, c: char): bool {
    if IsAlpha(c) then false
    else if EndsSentence(c) then true
    else if IsSpace(c) || IsQuote(c) then next
    else false
  }

  function Capitalize(next: bool, s: string): string
    decreases |s|
  {
    if s == "" then ""
    else [if next then ToUpper(s[0]) else s[0]] + Capitalize(NextCapital(next, s[0]), s[1..])
  }

  function Normalized(s: string): string {
    Capitalize(true, TrimEnd(Collapse(true, s)))
  }

  // ---------------------------------------------------------------- the normal form

  /** Blanks stand only where they separate: no tabs, no space at the edge of a line, no two
      spaces in a row, no space before closing punctuation. */
  predicate Spaced(atEdge: bool, s: string) {
    && (forall i :: 0 <= i < |s| ==> s[i] != '\t')
    && (s != "" && s[0] == ' ' ==> !atEdge)
    && (forall i :: 0 < i < |s| && s[i] == ' ' ==> s[i - 1] != ' ' && s[i - 1] != '\n')
    && (forall i :: 0 < i < |s| && s[i - 1] == ' ' ==> !ClosesUp(s[i]))
  }

  /** A letter written after `prefix` begins a sentence: only white space and quotes stand
      between it and the end of the previous sentence. */
  predicate BeginsSentence(prefix: string)
    decreases |prefix|
  {
    prefix == "" || (var c := prefix[|prefix| - 1];
                     EndsSentence(c) || ((IsSpace(c) || IsQuote(c)) && BeginsSentence(prefix[..|prefix| - 1])))
  }

  /** Every sentence begins with a capital, if it begins with a letter. */
  predicate Capitalized(s: string) {
    forall i :: 0 <= i < |s| && IsLower(s[i]) ==> !BeginsSentence(s[..i])
  }

  predicate NormalForm(s: string) {
    && Spaced(true, s)
    && (s != "" ==> !IsSpace(s[|s| - 1]))
    && Capitalized(s)
  }

  // ---------------------------------------------------------------- collapsing

  lemma {:induction false} AfterBlanksFacts(s: string)
    ensures AfterBlanks(s) != "" ==> !IsBlank(AfterBlanks(s)[0])
  {
    if s != "" && IsBlank(s[0]) {
      AfterBlanksFacts(s[1..]);
    }
  }

  lemma {:induction false} CollapseHead(atEdge: bool, s: string)
    requires s != "" && !IsBlank(s[0])
    ensures Collapse(atEdge, s) != "" && Collapse(atEdge, s)[0] == s[0]
  {
  }

  lemma SpacedCons(atEdge: bool, c: char, s: string)
    requires c != '\t' && (c == ' ' ==> !atEdge)
    requires Spaced(c == ' ' || c == '\n', s)
    requires c == ' ' && s != "" ==> !ClosesUp(s[0])
    ensures Spaced(atEdge, [c] + s)
  {
  }

  lemma {:induction false} CollapseIsSpaced(atEdge: bool, s: string)
    ensures Spaced(atEdge, Collapse(atEdge, s))
    decreases |s|
  {
    if s == "" {
    } else if IsBlank(s[0]) {
      var rest := AfterBlanks(s[1..]);
      AfterBlanksFacts(s[1..]);
      if atEdge || (rest != "" && ClosesUp(rest[0])) {
        CollapseIsSpaced(atEdge, rest);
      } else {
        CollapseIsSpaced(false, rest);
        if rest != "" { CollapseHead(false, rest); }
        SpacedCons(atEdge, ' ', Collapse(false, rest));
      }
    } else {
      CollapseIsSpaced(s[0] == '\n', s[1..]);
      SpacedCons(atEdge, s[0], Collapse(s[0] == '\n', s[1..]));
    }
  }

  lemma SpacedTail(atEdge: bool, s: string)
    requires Spaced(atEdge, s) && s != ""
    ensures Spaced(s[0] == '\n', s[1..])
  {
    var t := s[1..];
    assert forall i :: 0 <= i < |t| ==> t[i] == s[i + 1];
  }

  lemma {:induction false} CollapseKeepsSpaced(atEdge: bool, s: string)
    requires Spaced(atEdge, s)
    ensures Collapse(atEdge, s) == s
    decreases |s|
  {
    if s != "" {
      assert s[0] == ' ' && |s| > 1 ==> s[1] != ' ' && s[1] != '\t' && !ClosesUp(s[1]);
      SpacedTail(atEdge, s);
      CollapseKeepsSpaced(s[0] == '\n', s[1..]);
    }
  }

  lemma SpacedPrefix(atEdge: bool, s: string, k: nat)
    requires Spaced(atEdge, s) && k <= |s|
    ensures Spaced(atEdge, s[..k])
  {
  }

  // ---------------------------------------------------------------- capitalising

  /** Only lower-case letters may change, and only into their capitals. */
  predicate Recased(s: string, r: string) {
    |r| == |s| && forall i :: 0 <= i < |s| ==> r[i] == s[i] || (IsLower(s[i]) && r[i] == ToUpper(s[i]))
  }

  lemma {:induction false} CapitalizeRecases(next: bool, s: string)
    ensures Recased(s, Capitalize(next, s))
    decreases |s|
  {
    if s != "" {
      var next' := NextCapital(next, s[0]);
      CapitalizeRecases(next', s[1..]);
      var t, r := s[1..], Capitalize(next', s[1..]);
      assert forall i :: 0 < i < |s| ==> s[i] == t[i - 1] && Capitalize(next, s)[i] == r[i - 1];
    }
  }

  lemma RecasedLower(s: string, r: string)
    requires Recased(s, r)
    ensures Lower(r) == Lower(s)
  {
    assert forall i :: 0 <= i < |s| ==> ToLower(r[i]) == ToLower(s[i]);
  }

  lemma RecasedSpaced(s: string, r: string, atEdge: bool)
    requires Recased(s, r) && Spaced(atEdge, s)
    ensures Spaced(atEdge, r)
    ensures s != "" && !IsSpace(s[|s| - 1]) ==> !IsSpace(r[|r| - 1])
  {
    assert forall i :: 0 <= i < |s| ==> (r[i] == ' ' <==> s[i] == ' ') && (r[i] == '\t' <==> s[i] == '\t')
                                        && (r[i] == '\n' <==> s[i] == '\n') && (ClosesUp(r[i]) <==> ClosesUp(s[i]));
  }

  lemma BeginsNext(prefix: string, c: char)
    ensures NextCapital(BeginsSentence(prefix), c) == BeginsSentence(prefix + [c])
  {
    assert (prefix + [c])[..|prefix|] == prefix;
  }

  /** `s`, written after `prefix`, has its sentences capitalised. */
  predicate CapitalizedAfter(prefix: string, s: string) {
    forall i :: 0 <= i < |s| && IsLower(s[i]) ==> !BeginsSentence(prefix + s[..i])
  }

  lemma CapitalizedTail(prefix: string, c: char, s: string)
    ensures CapitalizedAfter(prefix, [c] + s)
       <==> ((IsLower(c) ==> !BeginsSentence(prefix)) && CapitalizedAfter(prefix + [c], s))
  {
    var w := [c] + s;
    hide BeginsSentence;
    assert prefix + w[..0] == prefix;
    forall i | 0 <= i < |s| ensures w[i + 1] == s[i] && prefix + w[..i + 1] == prefix + [c] + s[..i] {
      assert w[..i + 1] == [c] + s[..i];
    }
    if CapitalizedAfter(prefix, w) {
      assert w[0] == c;
      forall i | 0 <= i < |s| && IsLower(s[i]) ensures !BeginsSentence(prefix + [c] + s[..i]) {
        assert IsLower(w[i + 1]);
      }
    }
    if (IsLower(c) ==> !BeginsSentence(prefix)) && CapitalizedAfter(prefix + [c], s) {
      forall i | 0 <= i < |w| && IsLower(w[i]) ensures !BeginsSentence(prefix + w[..i]) {
        if i > 0 { assert w[i] == s[i - 1]; }
      }
    }
  }

  lemma {:induction false} CapitalizeCapitalizes(prefix: string, s: string)
    ensures CapitalizedAfter(prefix, Capitalize(BeginsSentence(prefix), s))
    decreases |s|
  {
    if s != "" {
      var c := if BeginsSentence(prefix) then ToUpper(s[0]) else s[0];
      BeginsNext(prefix, c);
      assert NextCapital(BeginsSentence(prefix), s[0]) == BeginsSentence(prefix + [c]);
      CapitalizeCapitalizes(prefix + [c], s[1..]);
      CapitalizedTail(prefix, c, Capitalize(BeginsSentence(prefix + [c]), s[1..]));
    }
  }

  lemma {:induction false} CapitalizeKeeps(prefix: string, s: string)
    requires CapitalizedAfter(prefix, s)
    ensures Capitalize(BeginsSentence(prefix), s) == s
    decreases |s|
  {
    if s != "" {
      BeginsNext(prefix, s[0]);
      assert s == [s[0]] + s[1..];
      CapitalizedTail(prefix, s[0], s[1..]);
      CapitalizeKeeps(prefix + [s[0]], s[1..]);
    }
  }

  lemma CapitalizedAfterNothing(s: string)
    ensures CapitalizedAfter("", s) <==> Capitalized(s)
  {
    assert forall i :: 0 <= i < |s| ==> "" + s[..i] == s[..i];
  }

  // ---------------------------------------------------------------- the laws of normalize

  lemma NormalizedIsNormal(s: string)
    ensures NormalForm(Normalized(s))
  {
    var c, t := Collapse(true, s), TrimEnd(Collapse(true, s));
    CollapseIsSpaced(true, s);
    TrimEndFacts(c);
    SpacedPrefix(true, c, |t|);
    CapitalizeRecases(true, t);
    RecasedSpaced(t, Normalized(s), true);
    CapitalizeCapitalizes("", t);
    CapitalizedAfterNothing(Normalized(s));
  }

  lemma NormalIsFixed(s: string)
    requires NormalForm(s)
    ensures Normalized(s) == s
  {
    CollapseKeepsSpaced(true, s);
    TrimEndUnique(s, |s|);
    CapitalizedAfterNothing(s);
    CapitalizeKeeps("", s);
  }

  /** The fixed points of `normalize` are exactly the texts in normal form. */
  lemma FixedPoints(s: string)
    ensures Normalized(s) == s <==> NormalForm(s)
  {
    NormalizedIsNormal(s);
    if NormalForm(s) { NormalIsFixed(s); }
  }

  lemma NormalizeIdempotent(s: string)
    ensures Normalized(Normalized(s)) == Normalized(s)
  {
    NormalizedIsNormal(s);
    NormalIsFixed(Normalized(s));
  }

  // ---------------------------------------------------------------- what normalize keeps

  /** The characters of `s` other than white space. */
  function Ink(s: string): string {
    if s == "" then "" else (if IsSpace(s[0]) then "" else [s[0]]) + Ink(s[1..])
  }

  lemma {:induction false} InkConcat(a: string, b: string)
    ensures Ink(a + b) == Ink(a) + Ink(b)
  {
    if a == "" {
      assert a + b == b;
    } else {
      assert (a + b)[1..] == a[1..] + b;
      InkConcat(a[1..], b);
    }
  }

  lemma {:induction false} InkOfSpace(s: string)
    requires forall i :: 0 <= i < |s| ==> IsSpace(s[i])
    ensures Ink(s) == ""
  {
    if s != "" { InkOfSpace(s[1..]); }
  }

  lemma InkTrimEnd(s: string)
    ensures Ink(TrimEnd(s)) == Ink(s)
  {
    TrimEndFacts(s);
    var n := |TrimEnd(s)|;
    Cut(s, n);
    InkOfSpace(s[n..]);
    InkConcat(s[..n], s[n..]);
  }

  lemma {:induction false} InkAfterBlanks(s: string)
    ensures Ink(AfterBlanks(s)) == Ink(s)
  {
    if s != "" && IsBlank(s[0]) { InkAfterBlanks(s[1..]); }
  }

  lemma {:induction false} InkCollapse(atEdge: bool, s: string)
    ensures Ink(Collapse(atEdge, s)) == Ink(s)
    decreases |s|
  {
    if s == "" {
    } else if IsBlank(s[0]) {
      var rest := AfterBlanks(s[1..]);
      InkAfterBlanks(s[1..]);
      if atEdge || (rest != "" && ClosesUp(rest[0])) {
        InkCollapse(atEdge, rest);
      } else {
        InkCollapse(false, rest);
        assert (" " + Collapse(false, rest))[1..] == Collapse(false, rest);
      }
    } else {
      InkCollapse(s[0] == '\n', s[1..]);
      assert ([s[0]] + Collapse(s[0] == '\n', s[1..]))[1..] == Collapse(s[0] == '\n', s[1..]);
    }
  }

  lemma LowerCons(c: char, s: string)
    ensures Lower([c] + s) == [ToLower(c)] + Lower(s)
  {
  }

  lemma {:induction false} InkRecased(s: string, r: string)
    requires Recased(s, r)
    ensures Lower(Ink(r)) == Lower(Ink(s))
  {
    if s != "" {
      assert forall i :: 0 <= i < |s| - 1 ==> s[1..][i] == s[i + 1] && r[1..][i] == r[i + 1];
      InkRecased(s[1..], r[1..]);
      assert ToLower(r[0]) == ToLower(s[0]) && IsSpace(r[0]) == IsSpace(s[0]);
      LowerCons(r[0], Ink(r[1..]));
      LowerCons(s[0], Ink(s[1..]));
    }
  }

  /** No printing character is lost, added or moved; only case may change. */
  lemma NormalizeKeepsInk(s: string)
    ensures Lower(Ink(Normalized(s))) == Lower(Ink(s))
  {
    var t := TrimEnd(Collapse(true, s));
    InkCollapse(true, s);
    InkTrimEnd(Collapse(true, s));
    CapitalizeRecases(true, t);
    InkRecased(t, Normalized(s));
  }

  // ---------------------------------------------------------------- words

  lemma {:induction false} AfterBlanksWords(s: string)
    ensures Words(AfterBlanks(s)) == Words(s)
  {
    if s != "" && IsBlank(s[0]) { AfterBlanksWords(s[1..]); }
  }

  /** A run of word characters is copied as it stands. */
  lemma {:induction false} CollapseWord(atEdge: bool, s: string, n: nat)
    requires 0 < n <= |s| && forall i :: 0 <= i < n ==> IsWordChar(s[i])
    ensures Collapse(atEdge, s) == s[..n] + Collapse(false, s[n..])
  {
    var tail := Collapse(false, s[1..]);
    assert Collapse(atEdge, s) == [s[0]] + tail;
    if n == 1 {
      assert s[..1] == [s[0]];
    } else {
      CollapseWord(false, s[1..], n - 1);
      assert s[1..][n - 1..] == s[n..] && s[..n] == [s[0]] + s[1..][..n - 1];
    }
  }

  /** Inside a line, the collapsed text begins with a gap if the text does. */
  lemma {:induction false} CollapseGapFirst(s: string)
    requires s != "" ==> !IsWordChar(s[0])
    ensures Collapse(false, s) != "" ==> !IsWordChar(Collapse(false, s)[0])
    decreases |s|
  {
    if s != "" && IsBlank(s[0]) {
      var rest := AfterBlanks(s[1..]);
      if rest != "" && ClosesUp(rest[0]) { CollapseGapFirst(rest); }
    }
  }

  lemma GapCons(c: char, s: string)
    requires !IsWordChar(c)
    ensures Words([c] + s) == Words(s)
  {
    assert ([c] + s)[1..] == s;
  }

  lemma {:induction false} CollapseWords(atEdge: bool, s: string)
    ensures Words(Collapse(atEdge, s)) == Words(s)
    decreases |s|
  {
    if s == "" {
    } else if IsWordChar(s[0]) {
      var n := RunLength(s);
      CollapseWord(atEdge, s, n);
      CollapseWords(false, s[n..]);
      CollapseGapFirst(s[n..]);
      var tail := Collapse(false, s[n..]);
      assert IsWord(s[..n]);
      hide *;
      WordsOfWord(s[..n]);
      WordsConcat(s[..n], tail);
    } else if IsBlank(s[0]) {
      var rest := AfterBlanks(s[1..]);
      AfterBlanksWords(s[1..]);
      if atEdge || (rest != "" && ClosesUp(rest[0])) {
        CollapseWords(atEdge, rest);
      } else {
        CollapseWords(false, rest);
        GapCons(' ', Collapse(false, rest));
      }
    } else {
      CollapseWords(s[0] == '\n', s[1..]);
      GapCons(s[0], Collapse(s[0] == '\n', s[1..]));
    }
  }

  /** `normalize` neither merges, splits, drops nor invents a word. */
  lemma NormalizeKeepsWords(s: string)
    ensures LowerAll(Words(Normalized(s))) == LowerAll(Words(s))
  {
    var c, t := Collapse(true, s), TrimEnd(Collapse(true, s));
    CollapseWords(true, s);
    WordsTrimEnd(c);
    CapitalizeRecases(true, t);
    RecasedLower(t, Normalized(s));
    WordsByLower(Normalized(s), t);
  }
}
