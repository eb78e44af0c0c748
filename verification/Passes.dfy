/** The dictionary and filler passes of the transcript pipeline: the loops of the program,
    proved against the scan, and what the passes do to the words of a text. */
module Passes {
  import opened SeqFacts
  import opened Ctype
  import opened WordSplit
  import opened WordEdits
  import opened PhraseSearch
  import opened Scan

  datatype DictionaryEntry = DictionaryEntry(from: string, to: string)

  // ---------------------------------------------------------------- the loops

  lemma ReplacementIs(to: string, first: char, replacement: string)
    requires to != ""
    requires replacement == if IsLower(to[0]) && IsUpper(first) then [ToUpper(to[0])] + to[1..] else to
    ensures replacement == Replacement(to, first)
  {
  }

  method RewriteMatch(to: string, out: string, n: string, p: nat) returns (out': string, pos': nat)
    requires n != "" && MatchAt(out, n, p)
    ensures p + |n| <= |out| && (out', pos') == RewriteAt(to, out, p, p + |n|)
  {
    hide *;
    var e := p + |n|;
    MatchEdges(out, n, p);
    RewriteUnfold(to, out, p, e);
    if to == "" {
      // Deletion entry: the phrase goes like a filler.
      out', pos' := EraseWordHole(out, p, e);
      Cut(out', pos');
    } else {
      var replacement := to;
      if IsLower(to[0]) && IsUpper(out[p]) {
        replacement := [ToUpper(replacement[0])] + replacement[1..];
      }
      ReplacementIs(to, out[p], replacement);
      out' := out[..p] + replacement + out[e..];
      pos' := p + |replacement|;
    }
  }

  method ApplyEntry(entry: DictionaryEntry, text: string) returns (out: string)
    requires entry.from != ""
    ensures out == RewritePass(Lower(entry.from), entry.to, text, 0)
  {
    var n := Lower(entry.from);
    hide *;
    out := text;
    var pos: nat := 0;
    while true
      invariant RewritePass(n, entry.to, out, pos) == RewritePass(n, entry.to, text, 0)
      decreases |out| - pos
    {
      var hit := FindPhrase(out, n, pos);
      FirstMatchIs(out, n, pos, hit);
      RewriteTurn(n, entry.to, out, pos);
      if hit.None? { break; }
      MatchEdges(out, n, hit.value);
      RewriteShrinks(entry.to, out, hit.value, hit.value + |n|);
      out, pos := RewriteMatch(entry.to, out, n, hit.value);
    }
  }

  /** One scan for each entry, in order. */
  function DictionaryPass(entries: seq<DictionaryEntry>, text: string): string
    requires forall e :: e in entries ==> e.from != ""
    decreases |entries|
  {
    if entries == [] then text
    else
      var k := |entries| - 1;
      RewritePass(Lower(entries[k].from), entries[k].to, DictionaryPass(entries[..k], text), 0)
  }

  method ApplyDictionary(entries: seq<DictionaryEntry>, text: string) returns (out: string)
    requires forall e :: e in entries ==> e.from != ""
    ensures out == DictionaryPass(entries, text)
  {
    out := text;
    for k := 0 to |entries|
      invariant out == DictionaryPass(entries[..k], text)
    {
      out := ApplyEntry(entries[k], out);
      assert entries[..k + 1][..k] == entries[..k];
    }
    assert entries[..|entries|] == entries;
  }

  method RemoveFiller(filler: string, text: string) returns (out: string)
    requires filler != ""
    ensures out == RewritePass(filler, "", text, 0)
  {
    hide *;
    out := text;
    var pos: nat := 0;
    while true
      invariant RewritePass(filler, "", out, pos) == RewritePass(filler, "", text, 0)
      decreases |out| - pos
    {
      var hit := FindPhrase(out, filler, pos);
      FirstMatchIs(out, filler, pos, hit);
      RewriteTurn(filler, "", out, pos);
      if hit.None? { break; }
      MatchEdges(out, filler, hit.value);
      RewriteShrinks("", out, hit.value, hit.value + |filler|);
      out, pos := RewriteMatch("", out, filler, hit.value);
    }
  }

  /** English hesitation sounds, in the order in which they are scanned for. */
  const FILLERS: seq<string> := ["um", "uh", "uhm", "erm", "hmm", "mhm"]

  lemma NoEmptyFiller(k: nat)
    requires k < |FILLERS|
    ensures FILLERS[k] != ""
  {
  }

  /** One scan for each of the first `k` fillers, in order. */
  function FillerPass(k: nat, text: string): string
    requires k <= |FILLERS|
  {
    if k == 0 then text else RewritePass(FILLERS[k - 1], "", FillerPass(k - 1, text), 0)
  }

  predicate FillersApply(language: string) {
    language == "en" || language == "auto" || language == ""
  }

  function FillersRemoved(language: string, text: string): string {
    if FillersApply(language) then FillerPass(|FILLERS|, text) else text
  }

  method RemoveFillers(language: string, text: string) returns (out: string)
    ensures out == FillersRemoved(language, text)
  {
    if language != "en" && language != "auto" && language != "" {
      return text;
    }
    out := text;
    hide RewritePass;
    for k := 0 to |FILLERS|
      invariant out == FillerPass(k, text)
    {
      NoEmptyFiller(k);
      out := RemoveFiller(FILLERS[k], out);
    }
  }

  // ---------------------------------------------------------------- dictionary

  /** All entries, one scan each. */
  ghost predicate DictionaryEdits(before: seq<string>, after: seq<string>, entries: seq<DictionaryEntry>)
    decreases |entries|
  {
    if entries == [] then before == after
    else
      var k := |entries| - 1;
      exists mid ::
        && DictionaryEdits(before, mid, entries[..k])
        && Edited(mid, after, Words(Lower(entries[k].from)), DictionaryOutcomes(entries[k].to))
  }

  /** The pointwise reading of a dictionary all of whose phrases are single words. */
  function RewriteAll(ws: seq<string>, entries: seq<DictionaryEntry>): seq<string> {
    if entries == [] then ws
    else
      var k := |entries| - 1;
      RewriteEach(RewriteAll(ws, entries[..k]), Lower(entries[k].from), entries[k].to)
  }

  /** Whatever the entries, even if one brings in its own phrase again, the pass only ever
      replaces occurrences of phrases by their replacements. */
  lemma {:induction false} DictionaryWords(entries: seq<DictionaryEntry>, text: string)
    requires forall e :: e in entries ==> e.from != ""
    ensures DictionaryEdits(Words(text), Words(DictionaryPass(entries, text)), entries)
    ensures (forall e :: e in entries ==> IsWord(Lower(e.from)))
            ==> Words(DictionaryPass(entries, text)) == RewriteAll(Words(text), entries)
    decreases |entries|
  {
    hide Words, Edited, RewritePass, RewriteEach, IsWord;
    if entries != [] {
      var k := |entries| - 1;
      DictionaryWords(entries[..k], text);
      RewritePassWords(Lower(entries[k].from), entries[k].to, DictionaryPass(entries[..k], text));
    }
  }

  // ---------------------------------------------------------------- fillers

  ghost function Fillers(k: nat): set<string>
    requires k <= |FILLERS|
  {
    set f | f in FILLERS[..k]
  }

  lemma FillersAreWords()
    ensures forall f :: f in FILLERS ==> IsWord(f) && Lower(f) == f
  {
  }

  lemma FillersGrow(k: nat)
    requires k < |FILLERS|
    ensures Fillers(k + 1) == Fillers(k) + {FILLERS[k]}
    ensures FILLERS[k] in Fillers(|FILLERS|)
  {
    assert FILLERS[..k + 1] == FILLERS[..k] + [FILLERS[k]];
    assert FILLERS[..|FILLERS|] == FILLERS;
  }

  lemma {:induction false} FillerPassWords(k: nat, text: string)
    requires k <= |FILLERS|
    ensures Words(FillerPass(k, text)) == Without(Words(text), Fillers(k))
  {
    hide Words, Without, RewritePass, RewriteEach;
    if k == 0 {
      WithoutNone(Words(text));
      assert Fillers(0) == {};
    } else {
      FillerPassWords(k - 1, text);
      FillersAreWords();
      FillersGrow(k - 1);
      WithoutMore(Words(text), Fillers(k - 1), FILLERS[k - 1]);
      RewritePassWords(FILLERS[k - 1], "", FillerPass(k - 1, text));
    }
  }

  /** Six scans, and exactly the fillers are gone: every other word stays, in its place, unchanged. */
  lemma FillersRemovedWords(language: string, text: string)
    ensures Words(FillersRemoved(language, text))
         == if FillersApply(language) then Without(Words(text), Fillers(|FILLERS|)) else Words(text)
  {
    hide Words, Without, RewritePass, Fillers;
    FillerPassWords(|FILLERS|, text);
  }

  lemma {:induction false} FillerPassKeeps(k: nat, text: string)
    requires k <= |FILLERS| && forall w :: w in Words(text) ==> Lower(w) !in Fillers(|FILLERS|)
    ensures FillerPass(k, text) == text
  {
    hide Words, RewritePass;
    if k > 0 {
      FillerPassKeeps(k - 1, text);
      FillersAreWords();
      FillersGrow(k - 1);
      RewritePassKeepsWords(FILLERS[k - 1], "", text);
    }
  }

  /** Removing fillers a second time changes nothing, not even white space. */
  lemma FillersRemovedTwice(language: string, text: string)
    ensures FillersRemoved(language, FillersRemoved(language, text)) == FillersRemoved(language, text)
  {
    hide Words, Without, RewritePass, Fillers, FillerPass;
    FillersRemovedWords(language, text);
    WithoutIsSubset(Words(text), Fillers(|FILLERS|));
    if FillersApply(language) {
      FillerPassKeeps(|FILLERS|, FillersRemoved(language, text));
    }
  }
}
