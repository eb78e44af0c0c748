/** Word error rate, as src/bench/wer.cpp computes it: a two-row Levenshtein table that yields the
    cheapest edit script between the words of two texts. */
module WordErrorRate {
  import opened SeqFacts
  import opened Ctype
  import opened EditDistance
  import opened RateWords
  import opened WordReading

  // ---------------------------------------------------------------- normalising

  method Flush(words: seq<string>, current: string) returns (r: seq<string>)
    ensures r == words + Flushed(current)
  {
    var w := current;
    while w != "" && w[0] == '\''
      invariant TrimFront(w) == TrimFront(current)
      decreases |w|
    {
      w := w[1..];
    }
    ghost var front := w;
    while w != "" && w[|w| - 1] == '\''
      invariant TrimBack(w) == TrimBack(front)
      decreases |w|
    {
      w := w[..|w| - 1];
    }
    r := if w == "" then words else words + [w];
  }

  method NormalizeWords(text: string) returns (words: seq<string>)
    ensures words == WordsFrom("", text) && HasWords(text, words)
  {
    hide HasWords;
    words := [];
    var current := "";
    assert text[0..] == text;
    for i := 0 to |text|
      invariant words + WordsFrom(current, text[i..]) == WordsFrom("", text)
    {
      var c := text[i];
      assert text[i..][1..] == text[i + 1..];
      if IsAlnum(c) {
        current := current + [ToLower(c)];
      } else if c == '\'' {
        current := current + ['\''];
      } else if c as int >= 0x80 {
        current := current + [c];
      } else {
        Assoc(words, Flushed(current), WordsFrom("", text[i + 1..]));
        words := Flush(words, current);
        current := "";
      }
    }
    words := Flush(words, current);
    WordsExactly(text, words);
  }

  // ---------------------------------------------------------------- the rate

  function Rate(reference: seq<string>, hypothesis: seq<string>): real {
    if reference == [] then (if hypothesis == [] then 0.0 else 1.0)
    else Distance(reference, hypothesis) as real / |reference| as real
  }

  /** The entry of the full table in row i and column j. */
  function Entry(a: seq<string>, b: seq<string>, i: nat, j: nat): nat
    requires i <= |a| && j <= |b|
  {
    Distance(a[..i], b[..j])
  }

  lemma TableEntry(a: seq<string>, b: seq<string>, i: nat, j: nat)
    requires 0 < i <= |a| && 0 < j <= |b|
    ensures Entry(a, b, i, j)
         == Min3(Entry(a, b, i - 1, j - 1) + (if a[i - 1] == b[j - 1] then 0 else 1),
                 Entry(a, b, i - 1, j) + 1, Entry(a, b, i, j - 1) + 1)
  {
    TakeTake(a, i - 1, i);
    TakeTake(b, j - 1, j);
  }

  lemma TableEdges(a: seq<string>, b: seq<string>)
    ensures forall i :: 0 <= i <= |a| ==> Entry(a, b, i, 0) == i
    ensures forall j :: 0 <= j <= |b| ==> Entry(a, b, 0, j) == j
    ensures Entry(a, b, |a|, |b|) == Distance(a, b)
  {
    assert a[..|a|] == a && b[..|b|] == b;
  }

  /** Fills the row of `i` words of the reference from the row of `i - 1`. */
  method FillRow(a: seq<string>, b: seq<string>, i: nat, prev: array<nat>, curr: array<nat>)
    requires 0 < i <= |a| && prev.Length == curr.Length == |b| + 1 && prev != curr
    requires forall k :: 0 <= k <= |b| ==> prev[k] == Entry(a, b, i - 1, k)
    modifies curr
    ensures forall k :: 0 <= k <= |b| ==> curr[k] == Entry(a, b, i, k)
  {
    hide *;
    TableEdges(a, b);
    curr[0] := i;
    for j := 1 to |b| + 1
      invariant forall k :: 0 <= k < j ==> curr[k] == Entry(a, b, i, k)
    {
      TableEntry(a, b, i, j);
      var substitution := prev[j - 1] + (if a[i - 1] == b[j - 1] then 0 else 1);
      var deletion := prev[j] + 1;
      var insertion := curr[j - 1] + 1;
      curr[j] := Min3(substitution, deletion, insertion);
    }
  }

  /** The two rolling rows hold rows of the full table, so the last entry is the distance. */
  method Levenshtein(a: seq<string>, b: seq<string>) returns (d: nat)
    ensures d == Distance(a, b)
  {
    hide *;
    TableEdges(a, b);
    var prev := new nat[|b| + 1];
    var curr := new nat[|b| + 1];
    for j := 0 to |b| + 1
      invariant forall k :: 0 <= k < j ==> prev[k] == Entry(a, b, 0, k)
    {
      prev[j] := j;
    }
    for i := 1 to |a| + 1
      invariant prev != curr && prev.Length == curr.Length == |b| + 1
      invariant fresh(prev) && fresh(curr)
      invariant forall k :: 0 <= k <= |b| ==> prev[k] == Entry(a, b, i - 1, k)
    {
      FillRow(a, b, i, prev, curr);
      prev, curr := curr, prev;
    }
    d := prev[|b|];
  }

  /** The rate is 0 exactly for equal word lists. */
  lemma RateZero(a: seq<string>, b: seq<string>)
    ensures Rate(a, b) == 0.0 <==> a == b
  {
    DistanceZero(a, b);
    hide Distance;
    if a != [] {
      var d, n := Distance(a, b) as real, |a| as real;
      assert d == 0.0 <==> d / n == 0.0;
    }
  }

  /** The rate is the cost of the cheapest edit script, per word of the reference. */
  lemma RateIsCheapest(a: seq<string>, b: seq<string>)
    requires a != []
    ensures exists d: nat :: IsDistance(a, b, d) && Rate(a, b) * |a| as real == d as real
  {
    DistanceIsMinimal(a, b);
    hide IsDistance, Distance;
    assert Rate(a, b) * |a| as real == Distance(a, b) as real;
  }

  /** What the rate of two word lists is. */
  ghost predicate IsRate(ref: seq<string>, hyp: seq<string>, wer: real) {
    if ref == [] then wer == (if hyp == [] then 0.0 else 1.0)
    else exists d: nat :: IsDistance(ref, hyp, d) && wer * |ref| as real == d as real
  }

  lemma RateIs(ref: seq<string>, hyp: seq<string>)
    ensures IsRate(ref, hyp, Rate(ref, hyp))
  {
    if ref != [] { RateIsCheapest(ref, hyp); }
  }

  /** The words of both texts, and the cheapest way from the one to the other for each word of the reference. */
  method WordErrorRate(reference: string, hypothesis: string) returns (wer: real)
    ensures wer == Rate(WordsFrom("", reference), WordsFrom("", hypothesis))
    ensures exists ref, hyp :: HasWords(reference, ref) && HasWords(hypothesis, hyp) && IsRate(ref, hyp, wer)
  {
    hide HasWords, IsRate, WordsFrom;
    var ref := NormalizeWords(reference);
    var hyp := NormalizeWords(hypothesis);
    RateIs(ref, hyp);
    if |ref| == 0 {
      return if |hyp| == 0 then 0.0 else 1.0;
    }
    var d := Levenshtein(ref, hyp);
    wer := d as real / |ref| as real;
  }

  /** Said of texts: the rate is 0 exactly when both have the same words. */
  lemma ZeroOnTexts(reference: string, hypothesis: string)
    ensures Rate(WordsFrom("", reference), WordsFrom("", hypothesis)) == 0.0
       <==> exists words :: HasWords(reference, words) && HasWords(hypothesis, words)
  {
    hide Rate, WordsFrom, HasWords;
    var ref, hyp := WordsFrom("", reference), WordsFrom("", hypothesis);
    RateZero(ref, hyp);
    WordsExactly(reference, ref);
    WordsExactly(hypothesis, hyp);
    if words :| HasWords(reference, words) && HasWords(hypothesis, words) {
      WordsExactly(reference, words);
      WordsExactly(hypothesis, words);
    }
  }

  lemma Quotients(x: real, y: real, n: real)
    requires x <= y && n > 0.0
    ensures x / n <= y / n
  {
  }

  /** For a non-empty reference the rate is at most max(1, |hyp| / |ref|). */
  lemma RateBound(a: seq<string>, b: seq<string>)
    requires a != []
    ensures 0.0 <= Rate(a, b)
    ensures Rate(a, b) <= if |a| <= |b| then |b| as real / |a| as real else 1.0
    ensures Rate(a, b) * |a| as real >= if |a| <= |b| then (|b| - |a|) as real else (|a| - |b|) as real
  {
    DistanceBounds(a, b);
    hide Distance;
    var d, m, n := Distance(a, b) as real, |b| as real, |a| as real;
    Quotients(d, if |a| <= |b| then m else n, n);
    assert d / n * n == d;
  }
}
