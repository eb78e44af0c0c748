/** The three rounds of the spoken commands together. A break written in a later round may open the clause
    of an earlier command, which then survives. When this happens is settled exactly, in terms of the text
    that is given. */
module CommandRounds {
  import opened SeqFacts
  import opened Ctype
  import opened WordSplit
  import opened PhraseSearch
  import opened SpokenCommands

  /** The phrases, in the order of their rounds. */
  function Phrase(i: nat): string {
    if i == 0 then "new paragraph" else if i == 1 then "new line" else "newline"
  }

  /** Where the text before q ends, its trailing white space aside. */
  function Edge(x: string, q: nat): (e: nat)
    requires q <= |x|
    ensures e <= q
  {
    TrimEndFacts(x[..q]);
    |TrimEnd(x[..q])|
  }

  /** Phrase i ends at e and is removed in round i, if the rounds before k are over: it closes its clause,
      and by then it opens one. */
  predicate LinkRec(x: string, k: nat, i: nat, e: nat)
    decreases e, 0
  {
    && 0 < |Phrase(i)| <= e <= |x|
    && MatchAt(x, Phrase(i), e - |Phrase(i)|) && RightBoundary(x, e) && OpenRec(x, k, i, e - |Phrase(i)|)
  }

  predicate OpenRec(x: string, k: nat, j: nat, q: nat)
    requires q <= |x|
    decreases q, 1
  {
    LeftBoundary(x, q) || exists i: nat :: k <= i <= j && LinkRec(x, k, i, Edge(x, q))
  }

  predicate Link(x: string, k: nat, i: nat, e: nat) { LinkRec(x, k, i, e) }

  /** What stands at q opens a clause by the end of round j: there is a boundary on its left, or a phrase
      that is removed in one of the rounds from k to j. */
  predicate Open(x: string, k: nat, j: nat, q: nat)
    requires q <= |x|
  {
    OpenRec(x, k, j, q)
  }

  /** Phrase a at q opens its clause too late: after round a. */
  predicate TooLate(x: string, k: nat, a: nat, q: nat) {
    && MatchAt(x, Phrase(a), q) && RightBoundary(x, q + |Phrase(a)|) && Open(x, k, 2, q)
    && (k <= a ==> !Open(x, k, a, q))
  }

  ghost predicate Survives(x: string, k: nat, a: nat) { exists q: nat :: TooLate(x, k, a, q) }

  // ---------------------------------------------------------------- phrases

  /** Letters and single spaces between them. */
  predicate PhraseChar(c: char) { 'a' <= c <= 'z' || c == ' ' }

  lemma PhraseFacts(i: nat)
    ensures var n := Phrase(i);
            && |n| > 0 && n[0] == 'n' && forall d :: 0 <= d < |n| ==> PhraseChar(n[d])
  {
  }

  lemma PhrasesDiffer(a: nat, b: nat)
    requires a < 3 && b < 3 && a != b
    ensures exists d :: 0 <= d < |Phrase(a)| && d < |Phrase(b)| && Phrase(a)[d] != Phrase(b)[d]
  {
    assert Phrase(0)[4] == 'p' && Phrase(1)[4] == 'l';
    assert Phrase(0)[3] == ' ' && Phrase(1)[3] == ' ' && Phrase(2)[3] == 'l';
    var d := if a == 2 || b == 2 then 3 else 4;
    assert Phrase(a)[d] != Phrase(b)[d];
  }

  lemma GoodPhrase(i: nat)
    requires i < 3
    ensures |COMMANDS| == 3 && COMMANDS[i].phrase == Phrase(i) && GoodCommand(COMMANDS[i])
  {
    CommandsAreGood(COMMANDS[i]);
    hide GoodCommand;
  }

  // ---------------------------------------------------------------- one break

  /** The text x' is x with the command B at p replaced by a break: what lies before l is as it was, and
      what lies from r on now begins at l'. */
  predicate Cut(x: string, x': string, n: string, p: nat, l: nat, r: nat, l': nat) {
    && l <= p && p + |n| <= r <= |x| && 0 < r && l < l' <= |x'|
    && x[..l] == x'[..l] && x[r..] == x'[l'..]
    && (l > 0 ==> IsDelimiter(x[l - 1]))
    && (forall i :: l <= i < p ==> IsSpace(x[i]))
    && (forall i :: l <= i < l' ==> x'[i] == '\n')
    && (forall i :: p + |n| <= i < r ==> IsSpace(x[i]) || IsDelimiter(x[i]))
    && (r < |x| ==> !IsSpace(x[r]) && !IsWordChar(x[r - 1]))
    && (LeftBoundary(x, r) || Edge(x, r) == p + |n|)
  }

  lemma CutAt(x: string, x': string, n: string, p: nat, l: nat, r: nat, l': nat)
    requires Cut(x, x', n, p, l, r, l')
    ensures forall i :: 0 <= i < l ==> x[i] == x'[i]
    ensures forall i :: r <= i < |x| ==> i - r + l' < |x'| && x[i] == x'[i - r + l']
    ensures |x'| == |x| - r + l'
  {
    forall i | 0 <= i < l ensures x[i] == x'[i] { assert x[..l][i] == x'[..l][i]; }
    assert |x[r..]| == |x'[l'..]|;
    forall i | r <= i < |x| ensures x[i] == x'[i - r + l'] { assert x[r..][i - r] == x'[l'..][i - r]; }
  }

  /** A phrase covers neither delimiters nor white space other than the space inside it. */
  lemma MatchPhrase(x: string, a: nat, q: nat)
    requires MatchAt(x, Phrase(a), q)
    ensures q + |Phrase(a)| <= |x| && |Phrase(a)| > 0 && ToLower(x[q]) == 'n'
    ensures forall i :: q <= i < q + |Phrase(a)| ==> !IsDelimiter(x[i])
  {
    var m := Phrase(a);
    PhraseFacts(a);
    MatchChars(x, m, q);
    hide Phrase, MatchAt;
    forall i | q <= i < q + |m| ensures !IsDelimiter(x[i]) {
      assert PhraseChar(m[i - q]) && ToLower(x[i]) == m[i - q];
    }
  }

  lemma SameChars(x: string, p: nat, a: nat, k: nat)
    requires MatchAt(x, Phrase(k), p) && MatchAt(x, Phrase(a), p)
    ensures forall d :: 0 <= d < |Phrase(a)| && d < |Phrase(k)| ==> Phrase(a)[d] == Phrase(k)[d]
  {
    MatchChars(x, Phrase(a), p);
    MatchChars(x, Phrase(k), p);
    hide Phrase, MatchAt;
    forall d | 0 <= d < |Phrase(a)| && d < |Phrase(k)| ensures Phrase(a)[d] == Phrase(k)[d] {
      assert ToLower(x[p + d]) == Phrase(a)[d];
    }
  }

  lemma TwoPhrases(x: string, p: nat, a: nat, k: nat)
    requires a < 3 && k < 3 && MatchAt(x, Phrase(k), p) && MatchAt(x, Phrase(a), p)
    ensures a == k
  {
    hide *;
    SameChars(x, p, a, k);
    if a != k { PhrasesDiffer(a, k); }
  }

  lemma LowerWord(c: char)
    ensures IsWordChar(ToLower(c)) == IsWordChar(c)
  {
  }

  lemma InsideCommand(x: string, k: nat, p: nat, a: nat, q: nat)
    requires k < 3 && a < 3 && MatchAt(x, Phrase(k), p) && p < q < p + |Phrase(k)|
    ensures !MatchAt(x, Phrase(a), q)
  {
    var n, d := Phrase(k), q - p;
    GoodPhrase(k);
    PhraseFacts(a);
    PhraseFacts(k);
    assert n[d] == 'n' ==> IsWordChar(n[d - 1]);
    hide GoodCommand, Phrase, IsWordChar;
    MatchChars(x, n, p);
    if MatchAt(x, Phrase(a), q) {
      MatchChars(x, Phrase(a), q);
      assert n[d] == ToLower(x[q]) == 'n' && n[d - 1] == ToLower(x[q - 1]);
      LowerWord(x[q - 1]);
    }
  }

  /** A phrase lies on one side of the cut, or is the command itself. */
  lemma NoCross(x: string, x': string, k: nat, p: nat, l: nat, r: nat, l': nat, a: nat, q: nat)
    requires k < 3 && a < 3 && MatchAt(x, Phrase(k), p) && Cut(x, x', Phrase(k), p, l, r, l')
    requires MatchAt(x, Phrase(a), q)
    ensures q + |Phrase(a)| < l || q >= r || (q == p && a == k)
  {
    MatchPhrase(x, a, q);
    if p < q < p + |Phrase(k)| {
      InsideCommand(x, k, p, a, q);
    } else if q == p && a != k {
      TwoPhrases(x, p, a, k);
    }
    hide Phrase, LeftBoundary, Edge, MatchAt;
  }

  lemma NoCrossAfter(x: string, x': string, n: string, p: nat, l: nat, r: nat, l': nat, a: nat, q: nat)
    requires Cut(x, x', n, p, l, r, l') && MatchAt(x', Phrase(a), q)
    ensures q + |Phrase(a)| < l || q >= l'
  {
    MatchPhrase(x', a, q);
    CutAt(x, x', n, p, l, r, l');
    hide Phrase, LeftBoundary, Edge, MatchAt;
    assert l > 0 ==> IsDelimiter(x'[l - 1]);
  }

  // ---------------------------------------------------------------- the same before and after the break

  predicate StartsWord(x: string, q: nat)
    requires q <= |x|
  {
    q == 0 || !IsWordChar(x[q - 1])
  }

  predicate EndsWord(x: string, e: nat)
    requires e <= |x|
  {
    e == |x| || !IsWordChar(x[e])
  }

  /** A match depends on the stretch it covers and on whether words begin and end there. */
  lemma MatchShift(x: string, x': string, m: string, q: nat, q': nat)
    requires q + |m| <= |x| && q' + |m| <= |x'| && x[q..q + |m|] == x'[q'..q' + |m|]
    requires StartsWord(x, q) == StartsWord(x', q') && EndsWord(x, q + |m|) == EndsWord(x', q' + |m|)
    ensures MatchAt(x, m, q) == MatchAt(x', m, q')
  {
    LowerSlice(x, q, q + |m|);
    LowerSlice(x', q', q' + |m|);
    hide IsWordChar, Lower;
  }

  lemma SameRightLow(x: string, x': string, n: string, p: nat, l: nat, r: nat, l': nat, e: nat)
    requires Cut(x, x', n, p, l, r, l') && e < l
    ensures e <= |x| && e <= |x'| && RightBoundary(x, e) == RightBoundary(x', e)
  {
    CutAt(x, x', n, p, l, r, l');
    SliceOfPrefix(x, x', l, e, l);
    assert !IsSpace(x[l - 1]);
    hide LeftBoundary, Edge, IsSpace, IsDelimiter, IsWordChar, IsUpper, SkipSpaces;
    TakeOfDrop(x, e, l);
    TakeOfDrop(x', e, l);
    SkipCommonPrefix(x[e..], x'[e..], l - 1 - e);
  }

  lemma SameWordsLow(x: string, x': string, n: string, p: nat, l: nat, r: nat, l': nat, q: nat, e: nat)
    requires Cut(x, x', n, p, l, r, l') && q <= e < l
    ensures e < |x| && e < |x'| && x[q..e] == x'[q..e]
    ensures StartsWord(x, q) == StartsWord(x', q) && EndsWord(x, e) == EndsWord(x', e)
  {
    CutAt(x, x', n, p, l, r, l');
    SliceOfPrefix(x, x', l, q, e);
    hide LeftBoundary, Edge, IsSpace, IsDelimiter, IsWordChar;
  }

  lemma SameMatchLow(x: string, x': string, n: string, p: nat, l: nat, r: nat, l': nat, a: nat, q: nat)
    requires Cut(x, x', n, p, l, r, l') && q + |Phrase(a)| < l
    ensures q + |Phrase(a)| <= |x| && q + |Phrase(a)| <= |x'|
    ensures MatchAt(x, Phrase(a), q) == MatchAt(x', Phrase(a), q)
    ensures RightBoundary(x, q + |Phrase(a)|) == RightBoundary(x', q + |Phrase(a)|)
  {
    hide *;
    var e := q + |Phrase(a)|;
    SameWordsLow(x, x', n, p, l, r, l', q, e);
    SameRightLow(x, x', n, p, l, r, l', e);
    MatchShift(x, x', Phrase(a), q, q);
  }

  lemma SlicesHigh(x: string, x': string, r: nat, l': nat, q: nat, e: nat)
    requires r <= |x| && l' <= |x'| && x[r..] == x'[l'..] && r <= q <= e <= |x|
    ensures q - r + l' <= e - r + l' <= |x'|
    ensures x[q..e] == x'[q - r + l'..e - r + l'] && x[e..] == x'[e - r + l'..]
  {
    assert |x[r..]| == |x'[l'..]|;
    forall i | r <= i < |x| ensures x[i] == x'[i - r + l'] {
      assert x[r..][i - r] == x'[l'..][i - r];
    }
  }

  lemma SameWordsHigh(x: string, x': string, n: string, p: nat, l: nat, r: nat, l': nat, q: nat)
    requires Cut(x, x', n, p, l, r, l') && r <= q <= |x| && r < |x|
    ensures 0 <= q - r + l' <= |x'|
    ensures StartsWord(x, q) == StartsWord(x', q - r + l') && EndsWord(x, q) == EndsWord(x', q - r + l')
  {
    CutAt(x, x', n, p, l, r, l');
    assert !IsWordChar('\n');
    var q' := q - r + l';
    assert q > r ==> x[q - 1] == x'[q' - 1];
    assert q == r ==> x'[q' - 1] == '\n' && !IsWordChar(x[q - 1]);
    assert q < |x| ==> x[q] == x'[q'];
    hide IsWordChar, LeftBoundary, Edge, Cut;
  }

  lemma CutSlices(x: string, x': string, n: string, p: nat, l: nat, r: nat, l': nat)
    requires Cut(x, x', n, p, l, r, l')
    ensures l <= p && p + |n| <= r <= |x| && l < l' <= |x'| && x[r..] == x'[l'..] && |x'| == |x| - r + l'
  {
    assert |x[r..]| == |x'[l'..]|;
    hide LeftBoundary, Edge;
  }

  lemma SameRight(x: string, x': string, e: nat, e': nat)
    requires e <= |x| && e' <= |x'| && x[e..] == x'[e'..]
    ensures RightBoundary(x, e) == RightBoundary(x', e')
  {
  }

  lemma SameMatchHigh(x: string, x': string, n: string, p: nat, l: nat, r: nat, l': nat, a: nat, q: nat)
    requires Cut(x, x', n, p, l, r, l') && r <= q && q + |Phrase(a)| <= |x| && |Phrase(a)| > 0
    ensures 0 <= q - r + l' && q - r + l' + |Phrase(a)| <= |x'|
    ensures MatchAt(x, Phrase(a), q) == MatchAt(x', Phrase(a), q - r + l')
    ensures RightBoundary(x, q + |Phrase(a)|) == RightBoundary(x', q - r + l' + |Phrase(a)|)
  {
    hide *;
    var e := q + |Phrase(a)|;
    CutSlices(x, x', n, p, l, r, l');
    SlicesHigh(x, x', r, l', q, e);
    SameWordsHigh(x, x', n, p, l, r, l', q);
    SameWordsHigh(x, x', n, p, l, r, l', e);
    MatchShift(x, x', Phrase(a), q, q - r + l');
    SameRight(x, x', e, e - r + l');
  }

  /** White space behind a position that is none. */
  lemma EdgeIs(x: string, q: nat, e: nat)
    requires e <= q <= |x| && (e > 0 ==> !IsSpace(x[e - 1])) && forall i :: e <= i < q ==> IsSpace(x[i])
    ensures Edge(x, q) == e
  {
    TrimEndUnique(x[..q], e);
  }

  lemma EdgeFacts(x: string, q: nat)
    requires q <= |x|
    ensures var e := Edge(x, q);
            && (e > 0 ==> !IsSpace(x[e - 1])) && (forall i :: e <= i < q ==> IsSpace(x[i]))
            && (LeftBoundary(x, q) <==> e == 0 || IsDelimiter(x[e - 1]))
  {
    TrimEndFacts(x[..q]);
    hide TrimEnd;
  }

  lemma SameEdgeLow(x: string, x': string, n: string, p: nat, l: nat, r: nat, l': nat, q: nat)
    requires Cut(x, x', n, p, l, r, l') && q <= l
    ensures Edge(x, q) == Edge(x', q) && LeftBoundary(x, q) == LeftBoundary(x', q)
  {
    SliceOfPrefix(x, x', l, 0, q);
    assert x[..q] == x'[..q];
  }

  lemma SameEdgeHigh(x: string, x': string, n: string, p: nat, l: nat, r: nat, l': nat, q: nat)
    requires Cut(x, x', n, p, l, r, l') && r < q <= |x|
    ensures Edge(x, q) > r && q - r + l' <= |x'| && Edge(x', q - r + l') == Edge(x, q) - r + l'
    ensures LeftBoundary(x, q) == LeftBoundary(x', q - r + l')
  {
    CutAt(x, x', n, p, l, r, l');
    EdgeFacts(x, q);
    hide LeftBoundary, Edge, IsSpace, IsDelimiter;
    var e := Edge(x, q);
    assert e > r;
    EdgeIs(x', q - r + l', e - r + l');
    EdgeFacts(x', q - r + l');
  }

  /** The break itself is a boundary for what follows it. */
  lemma BreakOpens(x: string, x': string, n: string, p: nat, l: nat, r: nat, l': nat)
    requires Cut(x, x', n, p, l, r, l')
    ensures LeftBoundary(x', l') && LeftBoundary(x, p)
  {
    CutAt(x, x', n, p, l, r, l');
    assert l > 0 ==> !IsSpace(x[l - 1]);
    EdgeIs(x', l', l);
    EdgeIs(x, p, l);
    EdgeFacts(x', l');
    EdgeFacts(x, p);
    hide LeftBoundary, Edge;
  }

  // ---------------------------------------------------------------- what is open stays open

  lemma LinkUnfold(x: string, k: nat, i: nat, e: nat)
    ensures Link(x, k, i, e) <==> 0 < |Phrase(i)| <= e <= |x| && MatchAt(x, Phrase(i), e - |Phrase(i)|)
                                  && RightBoundary(x, e) && Open(x, k, i, e - |Phrase(i)|)
  {
    hide Phrase, MatchAt, RightBoundary, LeftBoundary, Edge;
  }

  lemma OpenUnfold(x: string, k: nat, j: nat, q: nat)
    requires q <= |x|
    ensures Open(x, k, j, q) <==> LeftBoundary(x, q) || exists i: nat :: k <= i <= j && Link(x, k, i, Edge(x, q))
  {
    hide Phrase, MatchAt, RightBoundary, LeftBoundary;
    var e := Edge(x, q);
    assert OpenRec(x, k, j, q) <==> LeftBoundary(x, q) || exists i: nat :: k <= i <= j && LinkRec(x, k, i, e);
    assert forall i: nat :: Link(x, k, i, e) <==> LinkRec(x, k, i, e);
  }

  lemma {:induction false} OpenLow(x: string, x': string, k: nat, p: nat, l: nat, r: nat, l': nat, j: nat, q: nat)
    requires Cut(x, x', Phrase(k), p, l, r, l') && q < l
    ensures q <= |x| && q <= |x'| && Open(x, k, j, q) == Open(x', k, j, q)
    decreases q
  {
    hide *;
    CutSlices(x, x', Phrase(k), p, l, r, l');
    SameEdgeLow(x, x', Phrase(k), p, l, r, l', q);
    OpenUnfold(x, k, j, q);
    OpenUnfold(x', k, j, q);
    var e := Edge(x, q);
    forall i: nat ensures Link(x, k, i, e) == Link(x', k, i, e) {
      LinkUnfold(x, k, i, e);
      LinkUnfold(x', k, i, e);
      if 0 < |Phrase(i)| <= e {
        SameMatchLow(x, x', Phrase(k), p, l, r, l', i, e - |Phrase(i)|);
        OpenLow(x, x', k, p, l, r, l', i, e - |Phrase(i)|);
      }
    }
  }

  /** The command at p is removed in its round, so what follows it is open. */
  lemma OpenBehind(x: string, x': string, k: nat, p: nat, l: nat, r: nat, l': nat, j: nat)
    requires k <= j && |Phrase(k)| > 0 && Cut(x, x', Phrase(k), p, l, r, l')
    requires MatchAt(x, Phrase(k), p) && RightBoundary(x, p + |Phrase(k)|)
    ensures r <= |x| && l' <= |x'| && Open(x, k, j, r) && Open(x', k, j, l')
  {
    BreakOpens(x, x', Phrase(k), p, l, r, l');
    assert LeftBoundary(x, r) || Edge(x, r) == p + |Phrase(k)|;
    hide *;
    CutSlices(x, x', Phrase(k), p, l, r, l');
    OpenUnfold(x, k, k, p);
    LinkUnfold(x, k, k, p + |Phrase(k)|);
    OpenUnfold(x, k, j, r);
    OpenUnfold(x', k, j, l');
  }

  /** A phrase that ends behind the break begins behind it. */
  lemma LinkHigh(x: string, x': string, k: nat, p: nat, l: nat, r: nat, l': nat, i: nat, e: nat)
    requires k < 3 && i < 3 && Cut(x, x', Phrase(k), p, l, r, l') && MatchAt(x, Phrase(k), p) && r < e <= |x|
    ensures |Phrase(i)| <= e && MatchAt(x, Phrase(i), e - |Phrase(i)|) ==> e - |Phrase(i)| >= r
    ensures 0 <= e - r + l'
    ensures |Phrase(i)| <= e - r + l' && MatchAt(x', Phrase(i), e - r + l' - |Phrase(i)|) ==> e - |Phrase(i)| >= r
  {
    hide *;
    CutSlices(x, x', Phrase(k), p, l, r, l');
    if |Phrase(i)| <= e && MatchAt(x, Phrase(i), e - |Phrase(i)|) {
      NoCross(x, x', k, p, l, r, l', i, e - |Phrase(i)|);
    }
    if |Phrase(i)| <= e - r + l' && MatchAt(x', Phrase(i), e - r + l' - |Phrase(i)|) {
      NoCrossAfter(x, x', Phrase(k), p, l, r, l', i, e - r + l' - |Phrase(i)|);
    }
  }

  lemma {:induction false} OpenHigh(x: string, x': string, k: nat, p: nat, l: nat, r: nat, l': nat, j: nat, q: nat)
    requires k <= j < 3 && Cut(x, x', Phrase(k), p, l, r, l') && r <= q <= |x|
    requires MatchAt(x, Phrase(k), p) && RightBoundary(x, p + |Phrase(k)|)
    ensures 0 <= q - r + l' <= |x'| && Open(x, k, j, q) == Open(x', k, j, q - r + l')
    decreases q
  {
    hide *;
    CutSlices(x, x', Phrase(k), p, l, r, l');
    PhraseFacts(k);
    if q == r {
      OpenBehind(x, x', k, p, l, r, l', j);
    } else {
      SameEdgeHigh(x, x', Phrase(k), p, l, r, l', q);
      OpenUnfold(x, k, j, q);
      OpenUnfold(x', k, j, q - r + l');
      var e, e' := Edge(x, q), Edge(x, q) - r + l';
      forall i: nat | k <= i <= j ensures Link(x, k, i, e) == Link(x', k, i, e') {
        LinkUnfold(x, k, i, e);
        LinkUnfold(x', k, i, e');
        LinkHigh(x, x', k, p, l, r, l', i, e);
        PhraseFacts(i);
        if |Phrase(i)| <= e && r <= e - |Phrase(i)| {
          OpenHigh(x, x', k, p, l, r, l', i, e - |Phrase(i)|);
          SameMatchHigh(x, x', Phrase(k), p, l, r, l', i, e - |Phrase(i)|);
        }
      }
    }
  }

  // ---------------------------------------------------------------- a break is a cut

  /** Between the phrase and what is kept lies white space, or white space around one delimiter. */
  predicate TailGap(s: string, k: nat)
    requires k <= |s|
  {
    || (forall i :: 0 <= i < k ==> IsSpace(s[i]))
    || exists d :: 0 <= d < k && IsDelimiter(s[d]) && (forall i :: 0 <= i < k && i != d ==> IsSpace(s[i]))
  }

  lemma SkipFrom(s: string, d: nat)
    requires d <= |s|
    ensures var k := |s| - |SkipSpaces(s[d..])|;
            && d <= k <= |s| && SkipSpaces(s[d..]) == s[k..] && (k < |s| ==> !IsSpace(s[k]))
            && forall i :: d <= i < k ==> IsSpace(s[i])
  {
    SkipSpacesFacts(s[d..]);
    hide SkipSpaces, IsSpace;
    var n := |s| - d - |SkipSpaces(s[d..])|;
    DropDrop(s, d, n);
    forall i | d <= i < d + n ensures IsSpace(s[i]) {
      assert s[d..][i - d] == s[i];
    }
  }

  /** White space, one delimiter, white space. */
  lemma GapAround(s: string, d: nat, k: nat)
    requires d < k <= |s| && IsDelimiter(s[d])
    requires (forall i :: 0 <= i < d ==> IsSpace(s[i])) && (forall i :: d < i < k ==> IsSpace(s[i]))
    ensures TailGap(s, k)
  {
    hide IsSpace, IsDelimiter;
  }

  lemma TailIsSkips(s: string)
    ensures var d := |s| - |SkipSpaces(s)|;
            && 0 <= d <= |s| && SkipSpaces(s) == s[d..]
            && CommandTail(s) == if d < |s| && IsDelimiter(s[d]) then SkipSpaces(s[d + 1..]) else s[d..]
  {
    SkipFrom(s, 0);
    assert s[0..] == s;
    var d := |s| - |SkipSpaces(s)|;
    if d < |s| {
      assert s[d..][0] == s[d];
      DropDrop(s, d, 1);
    }
    hide SkipSpaces, IsSpace, IsDelimiter;
  }

  lemma TailFacts(s: string)
    ensures var t := CommandTail(s);
            && |t| <= |s| && t == s[|s| - |t|..] && (t != "" ==> !IsSpace(t[0])) && TailGap(s, |s| - |t|)
            && (t == s && s != "" ==> !IsSpace(s[0]) && !IsDelimiter(s[0]))
  {
    TailIsSkips(s);
    SkipFrom(s, 0);
    assert s[0..] == s;
    hide SkipSpaces, IsSpace, IsDelimiter, CommandTail;
    var d := |s| - |SkipSpaces(s)|;
    if d < |s| && IsDelimiter(s[d]) {
      SkipFrom(s, d + 1);
      GapAround(s, d, |s| - |CommandTail(s)|);
      hide TailGap;
    }
  }

  lemma GapEdge(x: string, e: nat, r: nat)
    requires 0 < e <= r <= |x| && !IsSpace(x[e - 1]) && TailGap(x[e..], r - e)
    ensures LeftBoundary(x, r) || Edge(x, r) == e
    ensures forall i :: e <= i < r ==> IsSpace(x[i]) || IsDelimiter(x[i])
  {
    var s := x[e..];
    assert forall i :: e <= i < r ==> s[i - e] == x[i];
    if forall i :: 0 <= i < r - e ==> IsSpace(s[i]) {
      EdgeIs(x, r, e);
    } else {
      var d :| 0 <= d < r - e && IsDelimiter(s[d]) && (forall i :: 0 <= i < r - e && i != d ==> IsSpace(s[i]));
      EdgeIs(x, r, e + d + 1);
      EdgeFacts(x, r);
      assert x[e + d] == s[d];
    }
  }

  lemma BrokenIs(x: string, p: nat, e: nat, replacement: string)
    requires p <= e <= |x|
    ensures Broken(x, p, e, replacement) == TrimEnd(x[..p]) + replacement + CommandTail(x[e..])
  {
  }

  lemma BreakSlices(left: string, replacement: string, tail: string)
    ensures var x' := left + replacement + tail;
            && x'[..|left|] == left && x'[|left| + |replacement|..] == tail
            && forall i :: |left| <= i < |left| + |replacement| ==> x'[i] == replacement[i - |left|]
  {
    DropConcat(left, replacement + tail);
    Assoc(left, replacement, tail);
    DropConcat(left + replacement, tail);
  }

  lemma CutIntro(x: string, x': string, n: string, p: nat, l: nat, r: nat, replacement: string)
    requires l <= p && p + |n| <= r <= |x| && 0 < r && replacement != "" && l + |replacement| <= |x'|
    requires x[..l] == x'[..l] && x[r..] == x'[l + |replacement|..] && (l > 0 ==> IsDelimiter(x[..l][l - 1]))
    requires forall i :: l <= i < p ==> IsSpace(x[..p][i])
    requires forall i :: 0 <= i < |replacement| ==> replacement[i] == '\n'
    requires forall i :: l <= i < l + |replacement| ==> x'[i] == replacement[i - l]
    requires forall i :: p + |n| <= i < r ==> IsSpace(x[i]) || IsDelimiter(x[i])
    requires r < |x| ==> !IsSpace(x[r]) && !IsWordChar(x[r - 1])
    requires LeftBoundary(x, r) || Edge(x, r) == p + |n|
    ensures Cut(x, x', n, p, l, r, l + |replacement|)
  {
    hide IsSpace, IsDelimiter, IsWordChar, LeftBoundary, Edge;
    assert forall i :: l <= i < p ==> x[i] == x[..p][i];
  }

  lemma LastIsWord(cmd: Command, x: string, p: nat)
    requires GoodCommand(cmd) && MatchAt(x, cmd.phrase, p)
    ensures var e := p + |cmd.phrase|; 0 < e <= |x| && !IsSpace(x[e - 1])
    ensures cmd.replacement != "" && forall i :: 0 <= i < |cmd.replacement| ==> cmd.replacement[i] == '\n'
  {
    MatchChars(x, cmd.phrase, p);
    var e := p + |cmd.phrase|;
    assert ToLower(x[e - 1]) == cmd.phrase[|cmd.phrase| - 1];
    LowerWord(x[e - 1]);
  }

  /** Something is erased behind a command, unless it stands at the end. */
  lemma NoWordBehind(cmd: Command, x: string, p: nat)
    requires IsCommand(x, cmd.phrase, p)
    ensures var e := p + |cmd.phrase|; CommandTail(x[e..]) == x[e..] ==> x[e..] == ""
  {
    var s := x[p + |cmd.phrase|..];
    TailFacts(s);
    SkipSpacesFacts(s);
    if s != "" {
      assert s[0] == x[p + |cmd.phrase|];
      assert !IsSpace(s[0]) ==> SkipSpaces(s) == s;
    }
  }

  lemma CommandParts(cmd: Command, x: string, p: nat)
    requires GoodCommand(cmd) && IsCommand(x, cmd.phrase, p)
    ensures var e := p + |cmd.phrase|;
            && 0 < e <= |x| && !IsSpace(x[e - 1]) && MatchAt(x, cmd.phrase, p) && RightBoundary(x, e)
            && (CommandTail(x[e..]) == x[e..] ==> x[e..] == "")
            && cmd.replacement != "" && forall i :: 0 <= i < |cmd.replacement| ==> cmd.replacement[i] == '\n'
  {
    LastIsWord(cmd, x, p);
    NoWordBehind(cmd, x, p);
    hide GoodCommand, MatchAt, RightBoundary, LeftBoundary, CommandTail, IsSpace;
  }

  lemma GapIsNoWord(x: string, e: nat, r: nat)
    requires e <= r <= |x| && forall i :: e <= i < r ==> IsSpace(x[i]) || IsDelimiter(x[i])
    ensures r > e ==> !IsWordChar(x[r - 1])
  {
  }

  lemma EndOfEnd(x: string, e: nat, t: string)
    requires e <= |x| && |t| <= |x[e..]| && t == x[e..][|x[e..]| - |t|..]
    ensures e <= |x| - |t| <= |x| && x[|x| - |t|..] == t && (t != "" ==> t[0] == x[|x| - |t|])
    ensures |x[e..]| - |t| == |x| - |t| - e && (t == x[e..] <==> |x| - |t| == e)
  {
    DropDrop(x, e, |x| - e - |t|);
  }

  /** What is erased behind a command. */
  lemma BehindCommand(x: string, e: nat)
    requires 0 < e <= |x| && !IsSpace(x[e - 1]) && (CommandTail(x[e..]) == x[e..] ==> x[e..] == "")
    ensures |CommandTail(x[e..])| <= |x| - e
    ensures var r := |x| - |CommandTail(x[e..])|;
            && x[r..] == CommandTail(x[e..]) && (r < |x| ==> r > e && !IsSpace(x[r]) && !IsWordChar(x[r - 1]))
            && (LeftBoundary(x, r) || Edge(x, r) == e)
            && forall i :: e <= i < r ==> IsSpace(x[i]) || IsDelimiter(x[i])
  {
    hide *;
    TailFacts(x[e..]);
    var tail := CommandTail(x[e..]);
    EndOfEnd(x, e, tail);
    var r := |x| - |tail|;
    GapEdge(x, e, r);
    GapIsNoWord(x, e, r);
  }

  lemma BreakCuts(cmd: Command, x: string, p: nat)
    requires GoodCommand(cmd) && IsCommand(x, cmd.phrase, p)
    ensures var e := p + |cmd.phrase|;
            && e <= |x| && |CommandTail(x[e..])| <= |x|
            && var l, r := |TrimEnd(x[..p])|, |x| - |CommandTail(x[e..])|;
            && Cut(x, Broken(x, p, e, cmd.replacement), cmd.phrase, p, l, r, l + |cmd.replacement|)
            && MatchAt(x, cmd.phrase, p) && RightBoundary(x, e)
  {
    hide *;
    CommandParts(cmd, x, p);
    var e := p + |cmd.phrase|;
    var left, tail := TrimEnd(x[..p]), CommandTail(x[e..]);
    var l, r := |left|, |x| - |tail|;
    TrimEndFacts(x[..p]);
    BehindCommand(x, e);
    CommandEdge(x, cmd.phrase, p);
    BreakSlices(left, cmd.replacement, tail);
    BrokenIs(x, p, e, cmd.replacement);
    CutIntro(x, left + cmd.replacement + tail, cmd.phrase, p, l, r, cmd.replacement);
  }

  // ---------------------------------------------------------------- what survives a break

  lemma TooLateUnfold(x: string, k: nat, a: nat, q: nat)
    ensures TooLate(x, k, a, q) <==>
              && MatchAt(x, Phrase(a), q) && q + |Phrase(a)| <= |x| && RightBoundary(x, q + |Phrase(a)|)
              && Open(x, k, 2, q) && (k <= a ==> !Open(x, k, a, q))
  {
    hide Phrase, RightBoundary, Open;
  }

  lemma TooLateLow(x: string, x': string, k: nat, p: nat, l: nat, r: nat, l': nat, a: nat, q: nat)
    requires a < 3 && Cut(x, x', Phrase(k), p, l, r, l') && q + |Phrase(a)| < l
    ensures TooLate(x, k, a, q) == TooLate(x', k, a, q)
  {
    hide *;
    CutSlices(x, x', Phrase(k), p, l, r, l');
    TooLateUnfold(x, k, a, q);
    TooLateUnfold(x', k, a, q);
    SameMatchLow(x, x', Phrase(k), p, l, r, l', a, q);
    OpenLow(x, x', k, p, l, r, l', 2, q);
    OpenLow(x, x', k, p, l, r, l', a, q);
  }

  lemma TooLateHigh(x: string, x': string, k: nat, p: nat, l: nat, r: nat, l': nat, a: nat, q: nat)
    requires k < 3 && a < 3 && Cut(x, x', Phrase(k), p, l, r, l') && r <= q && q + |Phrase(a)| <= |x|
    requires MatchAt(x, Phrase(k), p) && RightBoundary(x, p + |Phrase(k)|)
    ensures 0 <= q - r + l' && TooLate(x, k, a, q) == TooLate(x', k, a, q - r + l')
  {
    hide *;
    CutSlices(x, x', Phrase(k), p, l, r, l');
    PhraseFacts(a);
    TooLateUnfold(x, k, a, q);
    TooLateUnfold(x', k, a, q - r + l');
    SameMatchHigh(x, x', Phrase(k), p, l, r, l', a, q);
    OpenHigh(x, x', k, p, l, r, l', 2, q);
    if k <= a { OpenHigh(x, x', k, p, l, r, l', a, q); }
  }

  /** The command that is removed is not one that comes too late. */
  lemma InTime(x: string, x': string, k: nat, p: nat, l: nat, r: nat, l': nat)
    requires k < 3 && Cut(x, x', Phrase(k), p, l, r, l')
    ensures !TooLate(x, k, k, p)
  {
    hide *;
    CutSlices(x, x', Phrase(k), p, l, r, l');
    BreakOpens(x, x', Phrase(k), p, l, r, l');
    OpenUnfold(x, k, k, p);
    TooLateUnfold(x, k, k, p);
  }

  lemma BreakSurvives(x: string, x': string, k: nat, p: nat, l: nat, r: nat, l': nat, a: nat)
    requires k < 3 && a < 3 && Cut(x, x', Phrase(k), p, l, r, l')
    requires MatchAt(x, Phrase(k), p) && RightBoundary(x, p + |Phrase(k)|)
    ensures Survives(x, k, a) <==> Survives(x', k, a)
  {
    hide Phrase, MatchAt, RightBoundary, LeftBoundary, Edge, Cut, Open, TooLate;
    CutSlices(x, x', Phrase(k), p, l, r, l');
    InTime(x, x', k, p, l, r, l');
    if q: nat :| TooLate(x, k, a, q) {
      TooLateUnfold(x, k, a, q);
      NoCross(x, x', k, p, l, r, l', a, q);
      if q + |Phrase(a)| < l { TooLateLow(x, x', k, p, l, r, l', a, q); }
      else { TooLateHigh(x, x', k, p, l, r, l', a, q); }
    }
    if q: nat :| TooLate(x', k, a, q) {
      TooLateUnfold(x', k, a, q);
      NoCrossAfter(x, x', Phrase(k), p, l, r, l', a, q);
      if q + |Phrase(a)| < l { TooLateLow(x, x', k, p, l, r, l', a, q); }
      else { TooLateHigh(x, x', k, p, l, r, l', a, q - l' + r); }
    }
  }

  // ---------------------------------------------------------------- a round, and all of them

  /** A round changes nothing about what survives the rounds from its own on. */
  lemma {:induction false} RoundSurvives(x: string, pos: nat, k: nat, a: nat)
    requires k < 3 && a < 3 && GoodCommand(COMMANDS[k])
    ensures Survives(CommandPass(COMMANDS[k], x, pos), k, a) <==> Survives(x, k, a)
    decreases |x| - pos
  {
    hide *;
    GoodPhrase(k);
    var cmd := COMMANDS[k];
    PhraseNotEmpty(cmd);
    CommandPassTurn(cmd, x, pos);
    FirstMatchFacts(x, cmd.phrase, pos);
    var hit := FirstMatch(x, cmd.phrase, pos);
    if hit.Some? {
      var p := hit.value;
      if IsCommand(x, cmd.phrase, p) {
        var e := p + |cmd.phrase|;
        var x', pos' := Broken(x, p, e, cmd.replacement), |TrimEnd(x[..p])| + |cmd.replacement|;
        BreakCuts(cmd, x, p);
        BreakKeepsWords(cmd, x, p);
        BreakSurvives(x, x', k, p, |TrimEnd(x[..p])|, |x| - |CommandTail(x[e..])|, pos', a);
        RoundSurvives(x', pos', k, a);
      } else {
        RoundSurvives(x, p + |cmd.phrase|, k, a);
      }
    }
  }

  lemma NoCommandAt(x: string, n: string, p: nat)
    requires NoCommand(x, n)
    ensures !IsCommand(x, n, p)
  {
    hide IsCommand;
  }

  lemma CommandIs(x: string, n: string, p: nat)
    requires p + |n| <= |x|
    ensures IsCommand(x, n, p) <==> MatchAt(x, n, p) && LeftBoundary(x, p) && RightBoundary(x, p + |n|)
  {
    hide MatchAt, LeftBoundary, RightBoundary;
  }

  /** Once round k is over, none of its phrases is left to be removed. */
  lemma {:induction false} NoLink(x: string, k: nat, e: nat)
    requires NoCommand(x, Phrase(k))
    ensures !Link(x, k, k, e)
    decreases e
  {
    hide *;
    var n := Phrase(k);
    LinkUnfold(x, k, k, e);
    if Link(x, k, k, e) {
      OpenUnfold(x, k, k, e - |n|);
      NoCommandAt(x, n, e - |n|);
      CommandIs(x, n, e - |n|);
      NoLink(x, k, Edge(x, e - |n|));
    }
  }

  lemma {:induction false} OpenNext(x: string, k: nat, j: nat, q: nat)
    requires NoCommand(x, Phrase(k)) && q <= |x|
    ensures Open(x, k, j, q) == Open(x, k + 1, j, q)
    decreases q
  {
    hide *;
    OpenUnfold(x, k, j, q);
    OpenUnfold(x, k + 1, j, q);
    var e := Edge(x, q);
    NoLink(x, k, e);
    forall i: nat | i != k ensures Link(x, k, i, e) == Link(x, k + 1, i, e) {
      LinkUnfold(x, k, i, e);
      LinkUnfold(x, k + 1, i, e);
      if 0 < |Phrase(i)| <= e { OpenNext(x, k, i, e - |Phrase(i)|); }
    }
    if i: nat :| k <= i <= j && Link(x, k, i, e) { assert Link(x, k + 1, i, e); }
    var next := k + 1;
    if i: nat :| next <= i <= j && Link(x, next, i, e) { assert Link(x, k, i, e); }
  }

  lemma TooLateNext(x: string, k: nat, a: nat, q: nat)
    requires NoCommand(x, Phrase(k))
    ensures TooLate(x, k, a, q) == TooLate(x, k + 1, a, q)
  {
    hide *;
    TooLateUnfold(x, k, a, q);
    TooLateUnfold(x, k + 1, a, q);
    if q <= |x| {
      OpenNext(x, k, 2, q);
      OpenNext(x, k, a, q);
      if a == k {
        PhraseFacts(a);
        LinkUnfold(x, k, k, q + |Phrase(k)|);
        NoLink(x, k, q + |Phrase(k)|);
      }
    }
  }

  lemma SurvivesNext(x: string, k: nat, a: nat)
    requires NoCommand(x, Phrase(k))
    ensures Survives(x, k, a) == Survives(x, k + 1, a)
  {
    hide NoCommand, TooLate;
    if q: nat :| TooLate(x, k, a, q) { TooLateNext(x, k, a, q); }
    var next := k + 1;
    if q: nat :| TooLate(x, next, a, q) { TooLateNext(x, k, a, q); }
  }

  lemma NoMatchBehind(x: string, n: string, q: nat)
    requires q + |n| > |x|
    ensures !IsCommand(x, n, q) && !MatchAt(x, n, q)
  {
  }

  lemma TooLateEnd(x: string, a: nat, q: nat)
    requires a < 3
    ensures TooLate(x, 3, a, q) == IsCommand(x, Phrase(a), q)
  {
    hide *;
    TooLateUnfold(x, 3, a, q);
    if q + |Phrase(a)| <= |x| {
      CommandIs(x, Phrase(a), q);
      OpenUnfold(x, 3, 2, q);
    } else {
      NoMatchBehind(x, Phrase(a), q);
    }
  }

  /** When all rounds are over, what comes too late is a command that is left. */
  lemma SurvivesEnd(x: string, a: nat)
    requires a < 3
    ensures Survives(x, 3, a) <==> !NoCommand(x, Phrase(a))
  {
    hide TooLate, IsCommand, Phrase;
    if q: nat :| TooLate(x, 3, a, q) { TooLateEnd(x, a, q); }
    if q: nat :| IsCommand(x, Phrase(a), q) { TooLateEnd(x, a, q); }
  }

  lemma RoundOver(x: string, k: nat, a: nat)
    requires k < 3 && a < 3 && GoodCommand(COMMANDS[k])
    ensures var y := CommandPass(COMMANDS[k], x, 0); Survives(y, k + 1, a) <==> Survives(x, k, a)
  {
    hide *;
    GoodPhrase(k);
    CommandPassLaws(COMMANDS[k], x);
    RoundSurvives(x, 0, k, a);
    SurvivesNext(CommandPass(COMMANDS[k], x, 0), k, a);
  }

  function AfterRounds(text: string, k: nat): string
    requires k <= 3
  {
    if k == 0 then text
    else
      GoodPhrase(k - 1);
      CommandPass(COMMANDS[k - 1], AfterRounds(text, k - 1), 0)
  }

  lemma {:induction false} RoundsAre(text: string, k: nat)
    requires k <= 3 && forall cmd :: cmd in COMMANDS ==> GoodCommand(cmd)
    ensures AllCommandsPass(COMMANDS[..k], text) == AfterRounds(text, k)
  {
    hide CommandPass, GoodCommand;
    if k > 0 {
      RoundsAre(text, k - 1);
      assert COMMANDS[..k][..k - 1] == COMMANDS[..k - 1];
    }
  }

  lemma AppliedIs(text: string)
    ensures CommandsApplied(text) == AfterRounds(text, 3)
  {
    CommandsUnfold(text);
    hide CommandsApplied, CommandPass, GoodCommand;
    forall k: nat | k <= 3 ensures AllCommandsPass(COMMANDS[..k], text) == AfterRounds(text, k) { RoundsAre(text, k); }
    assert COMMANDS[..3] == COMMANDS;
  }

  lemma {:induction false} RoundsSurvive(text: string, k: nat, a: nat)
    requires k <= 3 && a < 3
    ensures Survives(AfterRounds(text, k), k, a) <==> Survives(text, 0, a)
  {
    hide Survives, CommandPass, GoodCommand, Phrase;
    if k > 0 {
      RoundsSurvive(text, k - 1, a);
      GoodPhrase(k - 1);
      RoundOver(AfterRounds(text, k - 1), k - 1, a);
    }
  }

  /** When a command is left after all three rounds: exactly when the given text holds its phrase, closing a
      clause, where on its left nothing but white space separates it from a phrase that is removed in a later
      round, so that its clause is opened too late. */
  lemma SurvivesIff(text: string, a: nat)
    requires a < 3
    ensures !NoCommand(CommandsApplied(text), Phrase(a)) <==> Survives(text, 0, a)
  {
    hide *;
    AppliedIs(text);
    RoundsSurvive(text, 3, a);
    SurvivesEnd(AfterRounds(text, 3), a);
  }

  // ---------------------------------------------------------------- a second time

  lemma BreakShortens(cmd: Command, x: string, p: nat)
    requires GoodCommand(cmd) && IsCommand(x, cmd.phrase, p) && |cmd.replacement| < |cmd.phrase|
    ensures p + |cmd.phrase| <= |x| && |Broken(x, p, p + |cmd.phrase|, cmd.replacement)| < |x|
  {
    hide *;
    var e := p + |cmd.phrase|;
    BreakCuts(cmd, x, p);
    var l, r := |TrimEnd(x[..p])|, |x| - |CommandTail(x[e..])|;
    CutSlices(x, Broken(x, p, e, cmd.replacement), cmd.phrase, p, l, r, l + |cmd.replacement|);
  }

  lemma {:induction false} PassShortens(cmd: Command, x: string, pos: nat)
    requires GoodCommand(cmd) && |cmd.replacement| < |cmd.phrase|
    ensures CommandPass(cmd, x, pos) == x || |CommandPass(cmd, x, pos)| < |x|
    decreases |x| - pos
  {
    hide *;
    PhraseNotEmpty(cmd);
    CommandPassTurn(cmd, x, pos);
    FirstMatchFacts(x, cmd.phrase, pos);
    var hit := FirstMatch(x, cmd.phrase, pos);
    if hit.Some? {
      var p := hit.value;
      if IsCommand(x, cmd.phrase, p) {
        BreakShortens(cmd, x, p);
        BreakKeepsWords(cmd, x, p);
        PassShortens(cmd, Broken(x, p, p + |cmd.phrase|, cmd.replacement), |TrimEnd(x[..p])| + |cmd.replacement|);
      } else {
        PassShortens(cmd, x, p + |cmd.phrase|);
      }
    }
  }

  lemma Shorter(k: nat)
    requires k < 3
    ensures |COMMANDS| == 3 && |COMMANDS[k].replacement| < |COMMANDS[k].phrase|
  {
  }

  lemma OneRound(text: string, k: nat)
    requires k < 3
    ensures |AfterRounds(text, k + 1)| <= |AfterRounds(text, k)|
    ensures |AfterRounds(text, k + 1)| == |AfterRounds(text, k)| ==>
              AfterRounds(text, k + 1) == AfterRounds(text, k) && NoCommand(AfterRounds(text, k), Phrase(k))
  {
    hide NoCommand, CommandPass, GoodCommand, Phrase;
    GoodPhrase(k);
    Shorter(k);
    PassShortens(COMMANDS[k], AfterRounds(text, k), 0);
    CommandPassLaws(COMMANDS[k], AfterRounds(text, k));
  }

  lemma UnchangedRounds(text: string)
    ensures AfterRounds(text, 3) == text ==> forall a: nat :: a < 3 ==> NoCommand(text, Phrase(a))
  {
    OneRound(text, 0);
    OneRound(text, 1);
    OneRound(text, 2);
    assert AfterRounds(text, 0) == text;
    hide *;
  }

  lemma NothingLeft(text: string)
    requires forall a: nat :: a < 3 ==> NoCommand(text, Phrase(a))
    ensures CommandsApplied(text) == text
  {
    hide NoCommand, CommandsApplied, Phrase;
    forall cmd | cmd in COMMANDS ensures NoCommand(text, cmd.phrase) {
      var i :| 0 <= i < |COMMANDS| && COMMANDS[i] == cmd;
      GoodPhrase(i);
      assert NoCommand(text, Phrase(i));
    }
    CommandsAppliedWords(text);
  }

  /** Doing it all a second time changes nothing exactly when no command has come too late. */
  lemma IdempotentIff(text: string)
    ensures CommandsApplied(CommandsApplied(text)) == CommandsApplied(text)
       <==> forall a: nat :: a < 3 ==> !Survives(text, 0, a)
  {
    hide *;
    var once := CommandsApplied(text);
    AppliedIs(once);
    UnchangedRounds(once);
    forall a: nat | a < 3 ensures NoCommand(once, Phrase(a)) <==> !Survives(text, 0, a) { SurvivesIff(text, a); }
    if forall a: nat :: a < 3 ==> NoCommand(once, Phrase(a)) { NothingLeft(once); }
  }

  lemma RoundsShorten(text: string)
    ensures AfterRounds(text, 3) == text || |AfterRounds(text, 3)| < |text|
  {
    OneRound(text, 0);
    OneRound(text, 1);
    OneRound(text, 2);
    assert AfterRounds(text, 0) == text;
    hide *;
  }

  /** A text is left as it is exactly when no command stands in it; otherwise it gets shorter. */
  lemma UnchangedIff(text: string)
    ensures CommandsApplied(text) == text <==> forall a: nat :: a < 3 ==> NoCommand(text, Phrase(a))
    ensures CommandsApplied(text) == text || |CommandsApplied(text)| < |text|
  {
    hide *;
    AppliedIs(text);
    UnchangedRounds(text);
    if forall a: nat :: a < 3 ==> NoCommand(text, Phrase(a)) { NothingLeft(text); }
    RoundsShorten(text);
  }

  lemma PhraseLengths()
    ensures |Phrase(0)| == 13 && |Phrase(1)| == 8 && |Phrase(2)| == 7
  {
  }

  lemma LeftOverEdges()
    ensures var text := "newline New line.";
            Edge(text, 8) == 7 && !LeftBoundary(text, 8) && LeftBoundary(text, 0)
  {
    var text := "newline New line.";
    EdgeIs(text, 8, 7);
    EdgeFacts(text, 8);
    EdgeFacts(text, 0);
    hide Edge, LeftBoundary;
  }

  lemma LeftOverRight()
    ensures var text := "newline New line."; RightBoundary(text, 7) && RightBoundary(text, 16)
  {
    var text := "newline New line.";
    SkipSpacesUnique(text[7..], 1);
    SkipSpacesUnique(text[16..], 0);
    hide SkipSpaces;
  }

  lemma SpelledAt(x: string, q: nat, n: string)
    requires q + |n| <= |x| && (forall i :: 0 <= i < |n| ==> ToLower(x[q + i]) == n[i])
    requires StartsWord(x, q) && EndsWord(x, q + |n|)
    ensures MatchAt(x, n, q)
  {
    assert Lower(x)[q..q + |n|] == n;
  }

  lemma LeftOverWords()
    ensures var text := "newline New line."; MatchAt(text, Phrase(2), 0) && MatchAt(text, Phrase(1), 8)
  {
    var text := "newline New line.";
    hide MatchAt;
    SpelledAt(text, 0, Phrase(2));
    SpelledAt(text, 8, Phrase(1));
  }

  /** "newline" at 0 is removed in the last round, "new line" at 8 opens only then. */
  lemma LeftOverMatches()
    ensures TooLate("newline New line.", 0, 1, 8)
  {
    LeftOverWords();
    LeftOverEdges();
    LeftOverRight();
    hide *;
    var text := "newline New line.";
    PhraseLengths();
    OpenUnfold(text, 0, 2, 0);
    LinkUnfold(text, 0, 2, 7);
    OpenUnfold(text, 0, 2, 8);
    OpenUnfold(text, 0, 1, 8);
    LinkUnfold(text, 0, 0, 7);
    LinkUnfold(text, 0, 1, 7);
    TooLateUnfold(text, 0, 1, 8);
  }

  /** The text that shows it: the last round makes a clause of "New line", whose round is over. */
  lemma LeftOver()
    ensures var once := CommandsApplied("newline New line.");
            !NoCommand(once, "new line") && CommandsApplied(once) != once
  {
    var text := "newline New line.";
    LeftOverMatches();
    SurvivesIff(text, 1);
    IdempotentIff(text);
    hide CommandsApplied, NoCommand, TooLate;
    assert TooLate(text, 0, 1, 8);
    assert Survives(text, 0, 1);
  }
}
