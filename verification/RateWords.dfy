/** The word normaliser of src/bench/wer.cpp as a function: clean words, and stable on its own output. */
module RateWords {
  import opened Ctype

  /** Characters that belong to words: letters, digits, apostrophes and every byte from 0x80 up. */
  predicate InWord(c: char) { IsAlnum(c) || c == '\'' || c as int >= 0x80 }

  function TrimFront(s: string): string {
    if s != "" && s[0] == '\'' then TrimFront(s[1..]) else s
  }

  function TrimBack(s: string): string {
    if s != "" && s[|s| - 1] == '\'' then TrimBack(s[..|s| - 1]) else s
  }

  /** What `flush` appends to the word list. */
  function Flushed(current: string): seq<string> {
    var w := TrimBack(TrimFront(current));
    if w == "" then [] else [w]
  }

  /** The words of the text still to be read, `current` being the word under way. */
  function WordsFrom(current: string, rest: string): seq<string>
    decreases |rest|
  {
    if rest == "" then Flushed(current)
    else if InWord(rest[0]) then WordsFrom(current + [ToLower(rest[0])], rest[1..])
    else Flushed(current) + WordsFrom("", rest[1..])
  }

  /** A word as the normaliser writes it. */
  predicate Clean(w: string) {
    && w != "" && w[0] != '\'' && w[|w| - 1] != '\''
    && forall i :: 0 <= i < |w| ==> InWord(w[i]) && !IsUpper(w[i])
  }

  predicate Lowered(s: string) { forall i :: 0 <= i < |s| ==> InWord(s[i]) && !IsUpper(s[i]) }

  lemma {:induction false} TrimFrontLowered(s: string)
    requires Lowered(s)
    ensures Lowered(TrimFront(s)) && (TrimFront(s) != "" ==> TrimFront(s)[0] != '\'')
  {
    if s != "" && s[0] == '\'' { TrimFrontLowered(s[1..]); }
  }

  lemma {:induction false} TrimBackLowered(s: string)
    requires Lowered(s) && (s != "" ==> s[0] != '\'')
    ensures TrimBack(s) != "" ==> Clean(TrimBack(s))
  {
    if s != "" && s[|s| - 1] == '\'' { TrimBackLowered(s[..|s| - 1]); }
  }

  /** Every word is non-empty, lower case and free of apostrophes at its edges, for every text. */
  lemma {:induction false} WordsAreClean(current: string, rest: string)
    requires Lowered(current)
    ensures forall w :: w in WordsFrom(current, rest) ==> Clean(w)
    decreases |rest|
  {
    TrimFrontLowered(current);
    TrimBackLowered(TrimFront(current));
    if rest != "" {
      if InWord(rest[0]) {
        WordsAreClean(current + [ToLower(rest[0])], rest[1..]);
      } else {
        WordsAreClean("", rest[1..]);
      }
    }
  }

  function Join(ws: seq<string>): string {
    if ws == [] then "" else if |ws| == 1 then ws[0] else ws[0] + " " + Join(ws[1..])
  }

  /** The normaliser reads a clean run of characters as it stands. */
  lemma {:induction false} ReadsWord(current: string, w: string, rest: string)
    requires Lowered(w)
    ensures WordsFrom(current, w + rest) == WordsFrom(current + w, rest)
    decreases |w|
  {
    if w == "" {
      assert w + rest == rest && current + w == current;
    } else {
      assert (w + rest)[1..] == w[1..] + rest && (w + rest)[0] == w[0] && ToLower(w[0]) == w[0];
      ReadsWord(current + [w[0]], w[1..], rest);
      assert current + [w[0]] + w[1..] == current + w;
    }
  }

  lemma CleanIsFlushed(w: string)
    requires Clean(w)
    ensures Flushed(w) == [w]
  {
  }

  /** A clean word is read as one word, up to the end or to the next space. */
  lemma CleanWordRead(w: string, rest: string)
    requires Clean(w)
    ensures WordsFrom("", w) == [w] && WordsFrom("", w + (" " + rest)) == [w] + WordsFrom("", rest)
  {
    CleanIsFlushed(w);
    ReadsWord("", w, "");
    ReadsWord("", w, " " + rest);
    assert "" + w == w && w + "" == w;
    assert (" " + rest)[0] == ' ' && (" " + rest)[1..] == rest;
    hide Flushed, Clean;
  }

  lemma NothingRead()
    ensures WordsFrom("", "") == []
  {
  }

  lemma {:induction false} CleanWordsReadBack(ws: seq<string>)
    requires forall w :: w in ws ==> Clean(w)
    ensures WordsFrom("", Join(ws)) == ws
  {
    hide Clean, WordsFrom;
    if ws == [] {
      NothingRead();
    } else if |ws| == 1 {
      CleanWordRead(ws[0], "");
      assert ws == [ws[0]];
    } else {
      CleanWordsReadBack(ws[1..]);
      CleanWordRead(ws[0], Join(ws[1..]));
      assert Join(ws) == ws[0] + (" " + Join(ws[1..]));
      assert ws == [ws[0]] + ws[1..];
    }
  }

  /** Normalising the joined words of a text gives the same words. */
  lemma NormalizeStable(text: string)
    ensures WordsFrom("", Join(WordsFrom("", text))) == WordsFrom("", text)
  {
    WordsAreClean("", text);
    CleanWordsReadBack(WordsFrom("", text));
  }
}
