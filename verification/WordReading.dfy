/** What the words of a text are, said of the text alone: where they lie, and how they are spelled. The
    normaliser's list is the only one like this. */
module WordReading {
  import opened RateWords
  import opened Ctype

  /** ASCII letters and digits, and every byte from 0x80 up. */
  predicate Letter(c: char) { 'a' <= c <= 'z' || 'A' <= c <= 'Z' || '0' <= c <= '9' || c as int >= 0x80 }

  /** What may stand in a word. */
  predicate Spoken(c: char) { Letter(c) || c == '\'' }

  function Low(c: char): char { if 'A' <= c <= 'Z' then c - 'A' + 'a' else c }

  predicate Run(text: string, i: nat, j: nat) { i <= j <= |text| && forall k :: i <= k < j ==> Spoken(text[k]) }

  /** A stretch from position a up to b. */
  datatype Span = Span(a: nat, b: nat)

  /** A word: letters at both ends, letters and apostrophes between them. */
  predicate IsWord(text: string, s: Span) {
    s.a < s.b <= |text| && Letter(text[s.a]) && Letter(text[s.b - 1]) && Run(text, s.a, s.b)
  }

  predicate Separates(text: string, s: Span, t: Span, k: nat) { s.b <= k < t.a && k < |text| && !Spoken(text[k]) }

  ghost predicate Apart(text: string, s: Span, t: Span) { exists k: nat :: Separates(text, s, t, k) }

  predicate Covers(spans: seq<Span>, k: nat) { exists i :: 0 <= i < |spans| && spans[i].a <= k < spans[i].b }

  /** The words of the text from a position on: something that is no part of a word stands between any
      two neighbours, and every letter is in one of them. */
  ghost predicate AreWords(text: string, from: nat, spans: seq<Span>) {
    && (forall i :: 0 <= i < |spans| ==> from <= spans[i].a && IsWord(text, spans[i]))
    && (forall i, j :: 0 <= i < j < |spans| ==> Apart(text, spans[i], spans[j]))
    && (forall k :: from <= k < |text| && Letter(text[k]) ==> Covers(spans, k))
  }

  function Lowered(s: string): string { seq(|s|, i requires 0 <= i < |s| => Low(s[i])) }

  function Spelled(text: string, s: Span): string {
    if s.a <= s.b <= |text| then Lowered(text[s.a..s.b]) else ""
  }

  function AllSpelled(text: string, spans: seq<Span>): seq<string> {
    seq(|spans|, i requires 0 <= i < |spans| => Spelled(text, spans[i]))
  }

  ghost predicate HasWords(text: string, words: seq<string>) {
    exists spans :: AreWords(text, 0, spans) && words == AllSpelled(text, spans)
  }

  // ---------------------------------------------------------------- what follows from it

  lemma WordAt(text: string, from: nat, spans: seq<Span>, i: nat)
    requires AreWords(text, from, spans) && i < |spans|
    ensures var s := spans[i];
            && from <= s.a < s.b <= |text| && Letter(text[s.a]) && Letter(text[s.b - 1]) && Run(text, s.a, s.b)
  {
    assert IsWord(text, spans[i]);
    hide Letter, Run, Covers, Apart;
  }

  lemma GapAt(text: string, from: nat, spans: seq<Span>, i: nat, j: nat) returns (m: nat)
    requires AreWords(text, from, spans) && i < j < |spans|
    ensures spans[i].b <= m < spans[j].a && m < |text| && !Spoken(text[m])
  {
    assert Apart(text, spans[i], spans[j]);
    m :| Separates(text, spans[i], spans[j], m);
    hide Spoken;
  }

  lemma CoverAt(text: string, from: nat, spans: seq<Span>, k: nat) returns (i: nat)
    requires AreWords(text, from, spans) && from <= k < |text| && Letter(text[k])
    ensures i < |spans| && spans[i].a <= k < spans[i].b
  {
    assert Covers(spans, k);
    i :| i < |spans| && spans[i].a <= k < spans[i].b;
    hide *;
  }

  lemma RunAt(text: string, i: nat, j: nat, k: nat)
    requires Run(text, i, j) && i <= k < j
    ensures Spoken(text[k])
  {
  }

  lemma SubRun(text: string, i: nat, j: nat, k: nat, l: nat)
    requires Run(text, i, j) && i <= k <= l <= j
    ensures Run(text, k, l)
  {
    hide Spoken;
  }

  ghost predicate Together(spans: seq<Span>, k: nat, l: nat) {
    exists i :: 0 <= i < |spans| && spans[i].a <= k && l < spans[i].b
  }

  /** Two letters are in one word exactly when only letters and apostrophes stand between them. */
  lemma OneWord(text: string, spans: seq<Span>, k: nat, l: nat)
    requires AreWords(text, 0, spans) && k <= l < |text| && Letter(text[k]) && Letter(text[l])
    ensures Together(spans, k, l) <==> Run(text, k, l + 1)
  {
    hide AreWords, Letter, Spoken, Run;
    var i := CoverAt(text, 0, spans, k);
    var j := CoverAt(text, 0, spans, l);
    if Run(text, k, l + 1) {
      WordAt(text, 0, spans, i);
      WordAt(text, 0, spans, j);
      if i < j {
        var m := GapAt(text, 0, spans, i, j);
        RunAt(text, k, l + 1, m);
      } else if j < i {
        var m := GapAt(text, 0, spans, j, i);
      }
    }
    if Together(spans, k, l) {
      var n :| 0 <= n < |spans| && spans[n].a <= k && l < spans[n].b;
      WordAt(text, 0, spans, n);
      SubRun(text, spans[n].a, spans[n].b, k, l + 1);
    }
  }

  predicate Between(text: string, i: nat, k: nat, j: nat) {
    i <= k <= j < |text| && Letter(text[i]) && Letter(text[j]) && Run(text, i, j + 1)
  }

  /** A character is kept exactly when it is a letter or stands between letters, with nothing but letters
      and apostrophes in between: so an apostrophe is kept exactly inside a word. */
  lemma KeptInside(text: string, spans: seq<Span>, k: nat)
    requires AreWords(text, 0, spans) && k < |text|
    ensures Covers(spans, k) <==> exists i: nat, j: nat :: Between(text, i, k, j)
  {
    hide AreWords, Letter, Run;
    if Covers(spans, k) {
      var n :| 0 <= n < |spans| && spans[n].a <= k < spans[n].b;
      WordAt(text, 0, spans, n);
      assert Between(text, spans[n].a, k, spans[n].b - 1);
    }
    if i: nat, j: nat :| Between(text, i, k, j) {
      OneWord(text, spans, i, j);
      var n :| 0 <= n < |spans| && spans[n].a <= i && j < spans[n].b;
      assert spans[n].a <= k < spans[n].b;
    }
  }

  // ---------------------------------------------------------------- one list only

  lemma FirstStarts(text: string, from: nat, s: seq<Span>, t: seq<Span>)
    requires AreWords(text, from, s) && AreWords(text, from, t) && s != []
    ensures t != [] && t[0].a <= s[0].a
  {
    hide *;
    WordAt(text, from, s, 0);
    var j := CoverAt(text, from, t, s[0].a);
    WordAt(text, from, t, 0);
    if j > 0 { var m := GapAt(text, from, t, 0, j); }
  }

  lemma FirstEnds(text: string, from: nat, s: seq<Span>, t: seq<Span>)
    requires AreWords(text, from, s) && AreWords(text, from, t) && s != [] && t != [] && t[0].a == s[0].a
    ensures s[0].b <= t[0].b
  {
    hide *;
    WordAt(text, from, s, 0);
    WordAt(text, from, t, 0);
    var j := CoverAt(text, from, t, s[0].b - 1);
    if j > 0 {
      var m := GapAt(text, from, t, 0, j);
      RunAt(text, s[0].a, s[0].b, m);
    }
  }

  lemma DropFirst(text: string, from: nat, s: seq<Span>)
    requires AreWords(text, from, s) && s != []
    ensures AreWords(text, s[0].b, s[1..])
  {
    hide Letter, IsWord, Apart, Spoken;
    var r := s[1..];
    WordAt(text, from, s, 0);
    forall i | 0 <= i < |r| ensures s[0].b <= r[i].a && IsWord(text, r[i]) {
      assert r[i] == s[i + 1];
      var m := GapAt(text, from, s, 0, i + 1);
    }
    forall i, j | 0 <= i < j < |r| ensures Apart(text, r[i], r[j]) {
      assert Apart(text, s[i + 1], s[j + 1]);
    }
    forall k | s[0].b <= k < |text| && Letter(text[k]) ensures Covers(r, k) {
      var n := CoverAt(text, from, s, k);
      assert r[n - 1] == s[n];
    }
  }

  lemma {:induction false} WordsDetermined(text: string, from: nat, s: seq<Span>, t: seq<Span>)
    requires AreWords(text, from, s) && AreWords(text, from, t)
    ensures s == t
    decreases |s|
  {
    hide AreWords;
    if s == [] {
      if t != [] { FirstStarts(text, from, t, s); }
    } else {
      FirstStarts(text, from, s, t);
      FirstStarts(text, from, t, s);
      FirstEnds(text, from, s, t);
      FirstEnds(text, from, t, s);
      DropFirst(text, from, s);
      DropFirst(text, from, t);
      WordsDetermined(text, s[0].b, s[1..], t[1..]);
      assert s == [s[0]] + s[1..] && t == [t[0]] + t[1..];
    }
  }

  // ---------------------------------------------------------------- the normaliser's list

  lemma {:induction false} FrontOf(s: string) returns (n: nat)
    ensures n <= |s| && TrimFront(s) == s[n..]
    ensures (forall i :: 0 <= i < n ==> s[i] == '\'') && (n < |s| ==> s[n] != '\'')
  {
    if s != "" && s[0] == '\'' {
      var k := FrontOf(s[1..]);
      n := k + 1;
      assert s[1..][k..] == s[n..];
      forall i | 0 <= i < n ensures s[i] == '\'' { assert i > 0 ==> s[i] == s[1..][i - 1]; }
    } else {
      n := 0;
    }
  }

  lemma {:induction false} BackOf(s: string) returns (n: nat)
    ensures n <= |s| && TrimBack(s) == s[..n]
    ensures (forall i :: n <= i < |s| ==> s[i] == '\'') && (n > 0 ==> s[n - 1] != '\'')
  {
    if s != "" && s[|s| - 1] == '\'' {
      n := BackOf(s[..|s| - 1]);
      assert s[..|s| - 1][..n] == s[..n];
    } else {
      n := |s|;
    }
  }

  lemma LoweredFacts(s: string, i: nat, j: nat)
    requires i <= j <= |s|
    ensures Lowered(s)[i..j] == Lowered(s[i..j])
    ensures forall k :: 0 <= k < |s| ==> (Lowered(s)[k] == '\'' <==> s[k] == '\'')
  {
  }

  lemma LowIsLower(c: char)
    ensures Low(c) == ToLower(c) && (Spoken(c) <==> InWord(c))
  {
  }

  /** Where the word in a run lies: the apostrophes at its ends are left out. */
  lemma TrimmedRun(run: string) returns (n: nat, k: nat)
    ensures n + k <= |run| && TrimBack(TrimFront(Lowered(run))) == Lowered(run[n..n + k])
    ensures forall i :: 0 <= i < |run| && (i < n || n + k <= i) ==> run[i] == '\''
    ensures k > 0 ==> run[n] != '\'' && run[n + k - 1] != '\''
  {
    var current := Lowered(run);
    n := FrontOf(current);
    k := BackOf(current[n..]);
    LoweredFacts(run, n, n + k);
    hide TrimFront, TrimBack, Lowered;
    assert current[n..][..k] == current[n..n + k];
    forall i | 0 <= i < |run| && (i < n || n + k <= i) ensures run[i] == '\'' {
      if i >= n { assert current[n..][i - n] == current[i]; }
    }
    if k > 0 {
      assert current[n..][k - 1] == current[n + k - 1];
      if n + k - 1 == n { assert current[n..][0] == current[n]; }
    }
  }

  lemma RunLetter(text: string, start: nat, pos: nat, k: nat)
    requires Run(text, start, pos) && start <= k < pos
    ensures Letter(text[k]) <==> text[k] != '\''
  {
  }

  lemma EmptyWord(s: string)
    requires s == ""
    ensures Lowered(s) == ""
  {
  }

  lemma WordLength(s: string)
    ensures |Lowered(s)| == |s|
  {
  }

  /** What is flushed is the word in the run, if it has a letter. */
  lemma FlushedSpan(text: string, start: nat, pos: nat) returns (spans: seq<Span>)
    requires Run(text, start, pos)
    ensures |spans| <= 1 && AllSpelled(text, spans) == Flushed(Lowered(text[start..pos]))
    ensures forall i :: 0 <= i < |spans| ==> start <= spans[i].a && spans[i].b <= pos && IsWord(text, spans[i])
    ensures forall k :: start <= k < pos && Letter(text[k]) ==> Covers(spans, k)
  {
    var run := text[start..pos];
    var n, k := TrimmedRun(run);
    hide TrimFront, TrimBack, Lowered, Run, Letter;
    assert forall i :: start <= i < pos ==> text[i] == run[i - start];
    if k == 0 {
      spans := [];
      EmptyWord(run[n..n]);
      forall i | start <= i < pos ensures !Letter(text[i]) { RunLetter(text, start, pos, i); }
    } else {
      var s := Span(start + n, start + n + k);
      spans := [s];
      assert text[s.a..s.b] == run[n..n + k];
      RunLetter(text, start, pos, s.a);
      RunLetter(text, start, pos, s.b - 1);
      SubRun(text, start, pos, s.a, s.b);
      WordLength(run[n..n + k]);
      forall i | start <= i < pos && Letter(text[i]) ensures Covers(spans, i) {
        RunLetter(text, start, pos, i);
        assert spans[0].a <= i < spans[0].b;
      }
    }
  }

  lemma LoweredSnoc(text: string, start: nat, pos: nat)
    requires start <= pos < |text|
    ensures Lowered(text[start..pos + 1]) == Lowered(text[start..pos]) + [Low(text[pos])]
  {
  }

  lemma AllSpelledConcat(text: string, s: seq<Span>, t: seq<Span>)
    ensures AllSpelled(text, s + t) == AllSpelled(text, s) + AllSpelled(text, t)
  {
  }

  lemma JoinWords(text: string, start: nat, pos: nat, s: seq<Span>, t: seq<Span>)
    requires pos < |text| && !Spoken(text[pos]) && start <= pos && |s| <= 1
    requires forall i :: 0 <= i < |s| ==> start <= s[i].a && s[i].b <= pos && IsWord(text, s[i])
    requires forall k :: start <= k < pos && Letter(text[k]) ==> Covers(s, k)
    requires AreWords(text, pos + 1, t)
    ensures AreWords(text, start, s + t)
  {
    hide Letter, IsWord;
    var r := s + t;
    forall i, j | 0 <= i < j < |r| ensures Apart(text, r[i], r[j]) {
      if i < |s| {
        assert Separates(text, r[i], r[j], pos);
      } else {
        assert Apart(text, t[i - |s|], t[j - |s|]);
      }
    }
    forall k | start <= k < |text| && Letter(text[k]) ensures Covers(r, k) {
      if k < pos {
        var i :| 0 <= i < |s| && s[i].a <= k < s[i].b;
        assert r[i] == s[i];
      } else {
        var i :| 0 <= i < |t| && t[i].a <= k < t[i].b;
        assert r[|s| + i] == t[i];
      }
    }
  }

  lemma {:induction false} WordsLie(text: string, start: nat, pos: nat) returns (spans: seq<Span>)
    requires Run(text, start, pos)
    ensures AreWords(text, start, spans) && AllSpelled(text, spans) == WordsFrom(Lowered(text[start..pos]), text[pos..])
    decreases |text| - pos
  {
    hide Spoken, IsWord, Flushed, AllSpelled, InWord, Letter;
    if pos == |text| {
      spans := FlushedSpan(text, start, pos);
    } else {
      var c := text[pos];
      LowIsLower(c);
      assert text[pos..][0] == c && text[pos..][1..] == text[pos + 1..];
      if Spoken(c) {
        LoweredSnoc(text, start, pos);
        spans := WordsLie(text, start, pos + 1);
      } else {
        var here := FlushedSpan(text, start, pos);
        var rest := WordsLie(text, pos + 1, pos + 1);
        assert Lowered(text[pos + 1..pos + 1]) == "";
        JoinWords(text, start, pos, here, rest);
        AllSpelledConcat(text, here, rest);
        spans := here + rest;
      }
    }
  }

  /** The normaliser's list is exactly the words of the text. */
  lemma WordsExactly(text: string, words: seq<string>)
    ensures HasWords(text, words) <==> words == WordsFrom("", text)
  {
    var spans := WordsLie(text, 0, 0);
    assert Lowered(text[0..0]) == "" && text[0..] == text;
    hide AreWords, AllSpelled, WordsFrom;
    if HasWords(text, words) {
      var other :| AreWords(text, 0, other) && words == AllSpelled(text, other);
      WordsDetermined(text, 0, spans, other);
    }
  }
}
