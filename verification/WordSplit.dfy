/** Words: the maximal runs of `is_word_char` in a text, and the laws that say when
    cutting or gluing a text neither merges nor splits them. */
module WordSplit {
  import opened Ctype

  predicate IsWordChar(c: char) { IsAlnum(c) || c == '\'' || c == '-' }

  /** A non-empty text made of word characters only. */
  predicate IsWord(w: string) {
    w != "" && forall i :: 0 <= i < |w| ==> IsWordChar(w[i])
  }

  /** Length of the run of word characters at the front of `s`. */
  function RunLength(s: string): (n: nat)
    ensures n <= |s|
    ensures forall i :: 0 <= i < n ==> IsWordChar(s[i])
    ensures n < |s| ==> !IsWordChar(s[n])
  {
    if s == "" || !IsWordChar(s[0]) then 0 else 1 + RunLength(s[1..])
  }

  function Words(s: string): seq<string>
    decreases |s|
  {
    if s == "" then []
    else if !IsWordChar(s[0]) then Words(s[1..])
    else
      var n := RunLength(s);
      [s[..n]] + Words(s[n..])
  }

  function LowerAll(ws: seq<string>): (r: seq<string>)
    ensures |r| == |ws|
    ensures forall i :: 0 <= i < |ws| ==> r[i] == Lower(ws[i])
  {
    seq(|ws|, i requires 0 <= i < |ws| => Lower(ws[i]))
  }

  lemma {:induction false} WordsAreWords(s: string)
    ensures forall w :: w in Words(s) ==> IsWord(w)
    decreases |s|
  {
    if s != "" {
      WordsAreWords(if IsWordChar(s[0]) then s[RunLength(s)..] else s[1..]);
    }
  }

  /** No word reaches across the cut between `a` and `b`. */
  predicate Breaks(a: string, b: string) {
    a == "" || b == "" || !IsWordChar(a[|a| - 1]) || !IsWordChar(b[0])
  }

  lemma {:induction false} RunLengthUnique(s: string, n: nat)
    requires n <= |s|
    requires forall i :: 0 <= i < n ==> IsWordChar(s[i])
    requires n < |s| ==> !IsWordChar(s[n])
    ensures RunLength(s) == n
  {
    if s != "" && IsWordChar(s[0]) {
      RunLengthUnique(s[1..], n - 1);
    }
  }

  /** The first run of `a` ends where it ends, whatever comes behind the cut. */
  lemma RunAcross(a: string, b: string)
    requires Breaks(a, b) && a != "" && IsWordChar(a[0])
    ensures var n := RunLength(a);
            && n > 0 && Breaks(a[n..], b) && RunLength(a + b) == n
            && (a + b)[..n] == a[..n] && (a + b)[n..] == a[n..] + b
  {
    var n := RunLength(a);
    assert n == |a| && b != "" ==> (a + b)[n] == b[0];
    RunLengthUnique(a + b, n);
  }

  /** Cutting a text where no word crosses the cut splits its word list. */
  lemma {:induction false} WordsConcat(a: string, b: string)
    requires Breaks(a, b)
    ensures Words(a + b) == Words(a) + Words(b)
    decreases |a|
  {
    if a == "" {
      assert a + b == b;
    } else if !IsWordChar(a[0]) {
      assert (a + b)[1..] == a[1..] + b;
      WordsConcat(a[1..], b);
    } else {
      var n := RunLength(a);
      RunAcross(a, b);
      WordsConcat(a[n..], b);
    }
  }

  lemma {:induction false} WordsOfWord(w: string)
    requires IsWord(w)
    ensures Words(w) == [w]
  {
    RunLengthUnique(w, |w|);
    assert w[..|w|] == w && w[|w|..] == "";
  }

  lemma {:induction false} WordsOfGap(s: string)
    requires forall i :: 0 <= i < |s| ==> !IsWordChar(s[i])
    ensures Words(s) == []
  {
    if s != "" {
      WordsOfGap(s[1..]);
    }
  }

  /** Dropping a gap at either end changes no word. */
  lemma WordsTrimEnd(s: string)
    ensures Words(TrimEnd(s)) == Words(s)
  {
    TrimEndFacts(s);
    var n := |TrimEnd(s)|;
    assert s == s[..n] + s[n..];
    WordsOfGap(s[n..]);
    WordsConcat(s[..n], s[n..]);
  }

  lemma WordsSkip(s: string, k: nat)
    requires k <= |s| && forall i :: 0 <= i < k ==> !IsWordChar(s[i])
    ensures Words(s[k..]) == Words(s)
  {
    assert s == s[..k] + s[k..];
    WordsOfGap(s[..k]);
    WordsConcat(s[..k], s[k..]);
  }

  /** Case folding commutes with splitting into words. */
  lemma {:induction false} WordsOfLower(s: string)
    ensures Words(Lower(s)) == LowerAll(Words(s))
    decreases |s|
  {
    if s == "" {
    } else if !IsWordChar(s[0]) {
      assert Lower(s)[1..] == Lower(s[1..]);
      WordsOfLower(s[1..]);
    } else {
      var n := RunLength(s);
      RunLengthUnique(Lower(s), n);
      assert Lower(s)[..n] == Lower(s[..n]);
      assert Lower(s)[n..] == Lower(s[n..]);
      WordsOfLower(s[n..]);
    }
  }

  lemma WordsByLower(s: string, t: string)
    requires Lower(s) == Lower(t)
    ensures LowerAll(Words(s)) == LowerAll(Words(t))
  {
    WordsOfLower(s);
    WordsOfLower(t);
  }

  /** Every word of a text stands somewhere in it with a gap or an end on both sides. */
  lemma {:induction false} WordOccurs(s: string, w: string) returns (i: nat)
    requires w in Words(s)
    ensures i + |w| <= |s| && s[i..i + |w|] == w
    ensures i == 0 || !IsWordChar(s[i - 1])
    ensures i + |w| == |s| || !IsWordChar(s[i + |w|])
    decreases |s|
  {
    WordsAreWords(s);
    var n := if IsWordChar(s[0]) then RunLength(s) else 1;
    if IsWordChar(s[0]) && w == s[..n] {
      i := 0;
    } else {
      var j := WordOccurs(s[n..], w);
      i := n + j;
      assert s[n..][j..j + |w|] == s[i..i + |w|];
      if j == 0 {
        assert IsWordChar(w[0]) && w[0] == s[n];
      }
    }
  }

  lemma WordsConcat3(a: string, b: string, c: string)
    requires Breaks(a, b + c) && Breaks(b, c)
    ensures Words(a + (b + c)) == Words(a) + Words(b) + Words(c)
  {
    WordsConcat(a, b + c);
    WordsConcat(b, c);
  }
}
