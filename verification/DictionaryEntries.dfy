/** Dictionary entries written as "spoken => written", as the constructor of the transcript pipeline
    reads them. */
module DictionaryEntries {
  import opened Options
  import opened Ctype
  import opened PhraseSearch
  import opened Passes

  function TrimBoth(s: string): string { TrimEnd(SkipSpaces(s)) }

  /** Not empty, and without white space at either end. */
  predicate Tight(s: string) { s != "" && !IsSpace(s[0]) && !IsSpace(s[|s| - 1]) }

  /** None for a malformed entry: one without an arrow, or with nothing before it. */
  function ParseEntry(raw: string): (r: Option<DictionaryEntry>)
    ensures r.Some? ==> r.value.from != ""
  {
    var sep := Find(raw, "=>", 0);
    if sep.None? then None
    else
      var from, to := TrimBoth(raw[..sep.value]), TrimBoth(raw[sep.value + 2..]);
      if from == "" then None else Some(DictionaryEntry(from, to))
  }

  /** Malformed entries are skipped. */
  function Entries(raws: seq<string>): (r: seq<DictionaryEntry>)
    ensures forall e :: e in r ==> e.from != ""
  {
    if raws == [] then []
    else
      var last := ParseEntry(raws[|raws| - 1]);
      Entries(raws[..|raws| - 1]) + (if last.Some? then [last.value] else [])
  }

  method ReadDictionary(raws: seq<string>) returns (dictionary: seq<DictionaryEntry>)
    ensures dictionary == Entries(raws) && forall e :: e in dictionary ==> e.from != ""
  {
    hide ParseEntry;
    dictionary := [];
    for i := 0 to |raws|
      invariant dictionary == Entries(raws[..i])
    {
      assert raws[..i + 1][..i] == raws[..i];
      var entry := ParseEntry(raws[i]);
      if entry.Some? { dictionary := dictionary + [entry.value]; }
    }
    assert raws[..|raws|] == raws;
  }

  lemma TrimAround(s: string)
    requires Tight(s)
    ensures TrimBoth(s) == s && TrimBoth(s + " ") == s && TrimBoth(" " + s) == s
  {
    SkipSpacesUnique(s, 0);
    SkipSpacesUnique(s + " ", 0);
    SkipSpacesUnique(" " + s, 1);
    assert (" " + s)[1..] == s && (s + " ")[..|s|] == s;
    TrimEndUnique(s, |s|);
    TrimEndUnique(s + " ", |s|);
  }

  ghost predicate NoArrow(s: string) { forall q: nat :: !OccursAt(s, "=>", q) }

  lemma ArrowAt(from: string, to: string)
    requires Tight(from) && NoArrow(from)
    ensures Find(from + " => " + to, "=>", 0) == Some(|from| + 1)
  {
    var raw := from + " => " + to;
    assert OccursAt(raw, "=>", |from| + 1);
    forall q: nat | q < |from| + 1 ensures !OccursAt(raw, "=>", q) {
      if q + 2 <= |from| {
        assert raw[q..q + 2] == from[q..q + 2];
        assert !OccursAt(from, "=>", q);
      } else if q < |from| {
        assert raw[q..q + 2][1] == raw[|from|] == ' ';
      } else {
        assert raw[q..q + 2][0] == raw[|from|] == ' ';
      }
    }
    hide OccursAt;
    var r := Find(raw, "=>", 0);
    assert r.Some? && r.value <= |from| + 1;
  }

  lemma OnlySpace()
    ensures TrimBoth(" " + "") == ""
  {
    SkipSpacesUnique(" " + "", 1);
  }

  /** What a user writes is what is meant: any phrase without an arrow, and any replacement or none. */
  lemma EntryReads(from: string, to: string)
    requires Tight(from) && (to == "" || Tight(to)) && NoArrow(from)
    ensures ParseEntry(from + " => " + to) == Some(DictionaryEntry(from, to))
  {
    hide Find, TrimBoth;
    ArrowAt(from, to);
    TrimAround(from);
    var raw := from + " => " + to;
    assert raw[..|from| + 1] == from + " ";
    assert raw[|from| + 3..] == " " + to;
    if to == "" { OnlySpace(); } else { TrimAround(to); }
  }
}
