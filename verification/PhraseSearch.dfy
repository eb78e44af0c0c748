/** Whole-phrase search and the erasing of a "spoken hole":
    `find_phrase` and `erase_word_hole` of the transcript pipeline. */
module PhraseSearch {
  import opened Options
  import opened SeqFacts
  import opened Ctype
  import opened WordSplit

  // ---------------------------------------------------------------- searching

  predicate OccursAt(h: string, n: string, p: nat) {
    p + |n| <= |h| && h[p..p + |n|] == n
  }

  /** `n` (lower case) stands in `h` at `p`, case aside, and is not part of a longer word. */
  predicate MatchAt(h: string, n: string, p: nat)
    ensures MatchAt(h, n, p) ==> p + |n| <= |h|
  {
    && OccursAt(Lower(h), n, p)
    && (p == 0 || !IsWordChar(h[p - 1]))
    && (p + |n| == |h| || !IsWordChar(h[p + |n|]))
  }

  /** std::string::find */
  function Find(h: string, n: string, from: nat): (r: Option<nat>)
    ensures r.Some? ==> from <= r.value && OccursAt(h, n, r.value)
    ensures forall q: nat :: from <= q && (r.Some? ==> q < r.value) ==> !OccursAt(h, n, q)
    decreases |h| - from
  {
    if from + |n| > |h| then None
    else if OccursAt(h, n, from) then Some(from)
    else Find(h, n, from + 1)
  }

  /** The first match at or after `from`. */
  function FirstMatch(h: string, n: string, from: nat): Option<nat>
    decreases |h| - from
  {
    if from > |h| then None
    else if MatchAt(h, n, from) then Some(from)
    else FirstMatch(h, n, from + 1)
  }

  lemma {:induction false} FirstMatchIs(h: string, n: string, from: nat, r: Option<nat>)
    requires r.Some? ==> from <= r.value && MatchAt(h, n, r.value)
    requires forall q: nat :: from <= q && (r.Some? ==> q < r.value) ==> !MatchAt(h, n, q)
    ensures FirstMatch(h, n, from) == r
    decreases |h| - from
  {
    hide MatchAt;
    if from <= |h| && !MatchAt(h, n, from) {
      FirstMatchIs(h, n, from + 1, r);
    }
  }

  lemma {:induction false} FirstMatchFacts(h: string, n: string, from: nat)
    ensures var r := FirstMatch(h, n, from);
            && (r.Some? ==> from <= r.value && MatchAt(h, n, r.value))
            && forall q: nat :: from <= q && (r.Some? ==> q < r.value) ==> !MatchAt(h, n, q)
    decreases |h| - from
  {
    hide MatchAt;
    if from <= |h| && !MatchAt(h, n, from) {
      FirstMatchFacts(h, n, from + 1);
    }
  }

  method FindPhrase(haystack: string, lowerNeedle: string, from: nat) returns (r: Option<nat>)
    ensures lowerNeedle == "" ==> r == None
    ensures r.Some? ==> from <= r.value && MatchAt(haystack, lowerNeedle, r.value)
    ensures lowerNeedle != "" ==>
              forall q: nat :: from <= q && (r.Some? ==> q < r.value) ==> !MatchAt(haystack, lowerNeedle, q)
  {
    if lowerNeedle == "" { return None; }
    var lowerHay := Lower(haystack);
    var pos := from;
    while true
      invariant from <= pos
      invariant forall q: nat :: from <= q < pos ==> !MatchAt(haystack, lowerNeedle, q)
      decreases |haystack| - pos
    {
      var hit := Find(lowerHay, lowerNeedle, pos);
      if hit.None? { return None; }
      pos := hit.value;
      var startOk := pos == 0 || !IsWordChar(haystack[pos - 1]);
      var end := pos + |lowerNeedle|;
      var endOk := end >= |haystack| || !IsWordChar(haystack[end]);
      if startOk && endOk { return Some(pos); }
      pos := pos + 1;
    }
  }

  /** No word crosses either end of a match, nor the place where the search began. */
  lemma MatchBreaks(out: string, n: string, pos: nat, p: nat)
    requires n != "" && pos <= p && MatchAt(out, n, p)
    requires Breaks(out[..pos], out[pos..])
    ensures Breaks(out[..pos], out[pos..p])
    ensures Breaks(out[pos..p], out[p..p + |n|] + out[p + |n|..])
    ensures Breaks(out[p..p + |n|], out[p + |n|..])
    ensures Breaks(out[..p], out[p..]) && Breaks(out[..p + |n|], out[p + |n|..])
    ensures Lower(out[p..p + |n|]) == n
  {
    assert Lower(out[p..p + |n|]) == Lower(out)[p..p + |n|];
    if pos < p {
      assert out[pos..p][0] == out[pos..][0];
    }
  }

  lemma SplitAt(out: string, pos: nat, p: nat, e: nat)
    requires pos <= p <= e <= |out|
    requires Breaks(out[..pos], out[pos..p])
    requires Breaks(out[pos..p], out[p..e] + out[e..]) && Breaks(out[p..e], out[e..])
    ensures Words(out[pos..]) == Words(out[pos..p]) + Words(out[p..e]) + Words(out[e..])
    ensures Words(out[..p]) == Words(out[..pos]) + Words(out[pos..p])
  {
    hide *;
    CutDrop(out, pos, p);
    CutDrop(out, p, e);
    WordsConcat3(out[pos..p], out[p..e], out[e..]);
    CutTake(out, pos, p);
    WordsConcat(out[..pos], out[pos..p]);
  }

  /** A match splits the word list of the text around it. */
  lemma MatchSplits(out: string, n: string, pos: nat, p: nat)
    requires n != "" && pos <= p && MatchAt(out, n, p)
    requires Breaks(out[..pos], out[pos..])
    ensures Words(out[pos..]) == Words(out[pos..p]) + Words(out[p..p + |n|]) + Words(out[p + |n|..])
    ensures Words(out[..p]) == Words(out[..pos]) + Words(out[pos..p])
  {
    assert p + |n| <= |out|;
    hide *;
    MatchBreaks(out, n, pos, p);
    SplitAt(out, pos, p, p + |n|);
  }

  lemma WordsLike(m: string, n: string)
    requires Lower(m) == n
    ensures LowerAll(Words(m)) == Words(n)
  {
    WordsOfLower(m);
  }

  lemma MatchIsPhrase(out: string, n: string, p: nat)
    requires n != "" && MatchAt(out, n, p)
    ensures LowerAll(Words(out[p..p + |n|])) == Words(n)
  {
    MatchBreaks(out, n, p, p);
    WordsLike(out[p..p + |n|], n);
  }

  lemma LowerSlice(s: string, a: nat, b: nat)
    requires a <= b <= |s|
    ensures Lower(s)[a..b] == Lower(s[a..b])
  {
  }

  lemma WordAtEdges(s: string, i: nat, w: string)
    requires IsWord(w) && i + |w| <= |s| && s[i..i + |w|] == w
    ensures IsWordChar(s[i]) && IsWordChar(s[i + |w| - 1])
  {
    assert s[i] == w[0] && s[i + |w| - 1] == w[|w| - 1];
  }

  lemma MatchHere(out: string, n: string, pos: nat, p: nat, i: nat, w: string)
    requires IsWord(w) && Lower(w) == n && pos <= p <= |out|
    requires Breaks(out[..pos], out[pos..])
    requires p == |out| || p == pos || !IsWordChar(out[p - 1])
    requires i + |w| <= p - pos && out[pos..p][i..i + |w|] == w
    requires i == 0 || !IsWordChar(out[pos..p][i - 1])
    requires i + |w| == p - pos || !IsWordChar(out[pos..p][i + |w|])
    ensures MatchAt(out, n, pos + i) && pos + i < p
  {
    var q, s := pos + i, out[pos..p];
    SliceOfSlice(out, pos, p, i, |w|);
    LowerSlice(out, q, q + |w|);
    WordAtEdges(s, i, w);
    assert s[i] == out[q] && s[i + |w| - 1] == out[q + |w| - 1];
    hide IsWordChar, IsWord;
    if i == 0 && pos > 0 {
      assert out[..pos][pos - 1] == out[q - 1] && out[pos..][0] == out[q];
    }
  }

  /** A one-word phrase that was not found between `pos` and `p` is none of the words there. */
  lemma NoMatchNoWord(out: string, n: string, pos: nat, p: nat, w: string)
    requires IsWord(n) && pos <= p <= |out|
    requires Breaks(out[..pos], out[pos..])
    requires p == |out| || p == pos || !IsWordChar(out[p - 1])
    requires forall q: nat :: pos <= q < p ==> !MatchAt(out, n, q)
    requires w in Words(out[pos..p])
    ensures Lower(w) != n
  {
    WordsAreWords(out[pos..p]);
    var i := WordOccurs(out[pos..p], w);
    if Lower(w) == n {
      MatchHere(out, n, pos, p, i, w);
    }
  }

  // ---------------------------------------------------------------- spoken holes

  /** What is left of the text behind a hole: one comma or semicolon and the following white
      space are gone. */
  function HoleTail(s: string): string {
    SkipSpaces(if s != "" && (s[0] == ',' || s[0] == ';') then s[1..] else s)
  }

  lemma HoleTailShrinks(s: string)
    ensures |HoleTail(s)| <= |s|
  {
    SkipSpacesFacts(if s != "" && (s[0] == ',' || s[0] == ';') then s[1..] else s);
  }

  /** The space put between the two sides of a hole when a word follows. */
  function Glue(left: string, right: string): string {
    if right != "" && IsWordChar(right[0]) && left != "" && left[|left| - 1] != '\n' then " " else ""
  }

  /** Moves left over white space. */
  method ScanLeft(out: string, from: nat) returns (left: nat)
    requires from <= |out|
    ensures left <= from && TrimEnd(out[..from]) == out[..left]
  {
    left := from;
    while left > 0 && IsSpace(out[left - 1])
      invariant left <= from
      invariant forall i :: left <= i < from ==> IsSpace(out[i])
    {
      left := left - 1;
    }
    TrimEndUnique(out[..from], left);
    TakeTake(out, left, from);
  }

  /** Moves right over white space. */
  method ScanRight(out: string, from: nat) returns (right: nat)
    requires from <= |out|
    ensures from <= right <= |out| && SkipSpaces(out[from..]) == out[right..]
  {
    right := from;
    while right < |out| && IsSpace(out[right])
      invariant from <= right <= |out|
      invariant forall i :: from <= i < right ==> IsSpace(out[i])
    {
      right := right + 1;
    }
    SkipSpacesUnique(out[from..], right - from);
    DropDrop(out, from, right - from);
  }

  /** The end of the hole: one comma or semicolon, then white space. */
  method HoleEnd(out: string, last: nat) returns (end: nat)
    requires last <= |out|
    ensures last <= end <= |out| && HoleTail(out[last..]) == out[end..]
  {
    if last < |out| && (out[last] == ',' || out[last] == ';') {
      DropDrop(out, last, 1);
      end := ScanRight(out, last + 1);
    } else {
      end := ScanRight(out, last);
    }
  }

  method EraseWordHole(out: string, first: nat, last: nat) returns (r: string, pos: nat)
    requires first <= last <= |out|
    ensures pos <= |r|
    ensures r[pos..] == HoleTail(out[last..])
    ensures r[..pos] == TrimEnd(out[..first]) + Glue(TrimEnd(out[..first]), HoleTail(out[last..]))
  {
    hide HoleTail, TrimEnd, IsWordChar;
    var end := HoleEnd(out, last);
    var begin := ScanLeft(out, first);
    var glue := "";
    var wordAfter := end < |out| && IsWordChar(out[end]);
    if wordAfter && begin > 0 && out[begin - 1] != '\n' {
      glue := " ";
    }
    assert glue == Glue(out[..begin], out[end..]);
    DropConcat(out[..begin] + glue, out[end..]);
    r := out[..begin] + glue + out[end..];
    pos := begin + |glue|;
  }

  lemma GlueBreaks(a: string, b: string)
    requires a != "" ==> !IsSpace(a[|a| - 1])
    ensures Breaks(a + Glue(a, b), b)
  {
  }

  lemma GluedWords(a: string, g: string)
    requires g == "" || g == " "
    ensures Words(a + g) == Words(a)
  {
    WordsOfGap(g);
    WordsConcat(a, g);
  }

  lemma SkipKeepsWords(s: string)
    ensures Words(SkipSpaces(s)) == Words(s)
  {
    SkipSpacesFacts(s);
    WordsSkip(s, |s| - |SkipSpaces(s)|);
  }

  lemma WordsHoleTail(s: string)
    ensures Words(HoleTail(s)) == Words(s)
  {
    var t := if s != "" && (s[0] == ',' || s[0] == ';') then s[1..] else s;
    WordsSkip(s, |s| - |t|);
    SkipKeepsWords(t);
  }

  /** Whatever stood in the hole, closing it keeps every word on both sides and joins none. */
  lemma HoleKeepsWords(left: string, right: string)
    ensures Words(TrimEnd(left) + Glue(TrimEnd(left), HoleTail(right))) == Words(left)
    ensures Words(HoleTail(right)) == Words(right)
    ensures Breaks(TrimEnd(left) + Glue(TrimEnd(left), HoleTail(right)), HoleTail(right))
  {
    var a, b := TrimEnd(left), HoleTail(right);
    TrimEndFacts(left);
    GluedWords(a, Glue(a, b));
    WordsTrimEnd(left);
    WordsHoleTail(right);
    GlueBreaks(a, b);
  }
}
