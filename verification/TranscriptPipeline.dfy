/** The transcript pipeline: dictionary, fillers, spoken commands, normalisation. */
module TranscriptPipeline {
  import opened SeqFacts
  import opened Ctype
  import opened WordSplit
  import opened WordEdits
  import opened Passes
  import opened SpokenCommands
  import opened Normalizer
  import opened PassReading
  import opened Typography

  // ---------------------------------------------------------------- normalize, as loops

  predicate AtEdge(out: string) { out == "" || out[|out| - 1] == '\n' }

  method SkipBlanks(text: string, i: nat) returns (j: nat)
    requires i < |text| && IsBlank(text[i])
    ensures i < j <= |text| && text[j..] == AfterBlanks(text[i..])
  {
    j := i;
    while j < |text| && IsBlank(text[j])
      invariant i <= j <= |text|
      invariant AfterBlanks(text[j..]) == AfterBlanks(text[i..])
    {
      assert text[j..][1..] == text[j + 1..];
      j := j + 1;
    }
  }

  method CollapseBlanks(text: string) returns (out: string)
    ensures out == Collapse(true, text)
  {
    out := "";
    var i := 0;
    assert text[0..] == text;
    while i < |text|
      invariant i <= |text|
      invariant out + Collapse(AtEdge(out), text[i..]) == Collapse(true, text)
    {
      var c := text[i];
      ghost var before := out;
      if IsBlank(c) {
        var j := SkipBlanks(text, i);
        assert AfterBlanks(text[i..]) == AfterBlanks(text[i..][1..]);
        var beforePunct := j < |text| && ClosesUp(text[j]);
        if !AtEdge(out) && !beforePunct {
          out := out + [' '];
          Assoc(before, " ", Collapse(false, text[j..]));
        }
        i := j;
      } else {
        assert text[i..][1..] == text[i + 1..];
        out := out + [c];
        Assoc(before, [c], Collapse(c == '\n', text[i + 1..]));
        i := i + 1;
      }
    }
    assert out + "" == out;
  }

  method TrimTrailing(text: string) returns (out: string)
    ensures out == TrimEnd(text)
  {
    out := text;
    while out != "" && IsSpace(out[|out| - 1])
      invariant TrimEnd(out) == TrimEnd(text)
      decreases |out|
    {
      out := out[..|out| - 1];
    }
  }

  method CapitalizeSentences(text: string) returns (out: string)
    ensures out == Capitalize(true, text)
  {
    out := text;
    var capitalizeNext := true;
    for k := 0 to |text|
      invariant |out| == |text| && out[k..] == text[k..]
      invariant out[..k] + Capitalize(capitalizeNext, text[k..]) == Capitalize(true, text)
    {
      var c := text[k];
      var tail := text[k + 1..];
      assert text[k..][1..] == tail && text[k..][0] == c && out[k..][0] == c;
      ghost var before, was := out[..k], capitalizeNext;
      if IsAlpha(c) {
        if capitalizeNext {
          out := out[k := ToUpper(c)];
        }
        capitalizeNext := false;
      } else if c == '.' || c == '!' || c == '?' || c == '\n' {
        capitalizeNext := true;
      } else if !IsSpace(c) && c != '"' && c != '\'' {
        capitalizeNext := false;
      }
      assert capitalizeNext == NextCapital(was, c);
      assert out[k] == if was then ToUpper(c) else c;
      assert out[..k + 1] == before + [out[k]];
      Assoc(before, [out[k]], Capitalize(capitalizeNext, tail));
      assert out[k + 1..] == tail;
    }
    assert out[..|text|] == out && Capitalize(capitalizeNext, text[|text|..]) == "";
  }

  lemma NormalizedIs(text: string)
    ensures Normalized(text) == Capitalize(true, TrimEnd(Collapse(true, text)))
  {
    hide Capitalize, TrimEnd, Collapse;
  }

  method Normalize(text: string) returns (out: string)
    ensures out == Normalized(text) && Normalizes(text, out)
  {
    hide *;
    out := CollapseBlanks(text);
    out := TrimTrailing(out);
    out := CapitalizeSentences(out);
    NormalizedIs(text);
    NormalizedExactly(text, out);
  }

  // ---------------------------------------------------------------- process

  datatype FormattingConfig = FormattingConfig(removeFillers: bool, spokenCommands: bool)

  function ProcessText(entries: seq<DictionaryEntry>, config: FormattingConfig, language: string, text: string): string
    requires forall e :: e in entries ==> e.from != ""
  {
    var edited := DictionaryPass(entries, text);
    var filtered := if config.removeFillers then FillersRemoved(language, edited) else edited;
    var kept := if config.spokenCommands then CommandsApplied(filtered) else filtered;
    Normalized(kept)
  }

  /** The stages of `process`, turn by turn: the entries in order, the six fillers for English, automatic or
      unset language, the three commands, and then one text that is normalised. */
  ghost predicate Stages(entries: seq<DictionaryEntry>, config: FormattingConfig, language: string, text: string,
                         edited: string, filtered: string, kept: string, out: string)
  {
    && AllScanned(EntryEdits(entries), text, edited)
    && (if config.removeFillers && (language == "en" || language == "auto" || language == "")
        then AllScanned(FillerEdits(), edited, filtered) else filtered == edited)
    && (if config.spokenCommands then AllCommandsScanned(filtered, kept) else kept == filtered)
    && Normalizes(kept, out)
  }

  /** What `process` is for. */
  ghost predicate ReadsAs(entries: seq<DictionaryEntry>, config: FormattingConfig, language: string, text: string,
                          out: string)
  {
    exists edited, filtered, kept :: Stages(entries, config, language, text, edited, filtered, kept, out)
  }

  lemma FillersReads(config: FormattingConfig, language: string, edited: string)
    ensures if config.removeFillers && (language == "en" || language == "auto" || language == "")
            then AllScanned(FillerEdits(), edited, FillersRemoved(language, edited))
            else !(config.removeFillers && FillersApply(language))
  {
    assert |FILLERS| == 6;
    FillersRead(6, edited);
    assert FillerEdits()[..6] == FillerEdits();
    hide AllScanned, FillerPass, FillerEdits;
  }

  lemma NoFillers(language: string, edited: string)
    ensures !FillersApply(language) ==> FillersRemoved(language, edited) == edited
  {
    hide FillersApply, FillerPass;
  }

  lemma ProcessReads(entries: seq<DictionaryEntry>, config: FormattingConfig, language: string, text: string)
    requires forall e :: e in entries ==> e.from != ""
    ensures ReadsAs(entries, config, language, text, ProcessText(entries, config, language, text))
  {
    hide AllScanned, AllCommandsScanned, Normalizes, Normalized, CommandsApplied, FillersRemoved, DictionaryPass,
      FillerEdits, EntryEdits;
    var edited := DictionaryPass(entries, text);
    DictionaryReads(entries, text);
    var filtered := if config.removeFillers then FillersRemoved(language, edited) else edited;
    FillersReads(config, language, edited);
    NoFillers(language, edited);
    var kept := if config.spokenCommands then CommandsApplied(filtered) else filtered;
    CommandsRead(filtered);
    NormalizedExactly(kept, Normalized(kept));
    assert Stages(entries, config, language, text, edited, filtered, kept, Normalized(kept));
  }

  lemma ReadsOnly(entries: seq<DictionaryEntry>, config: FormattingConfig, language: string, text: string,
                  out: string, out': string)
    requires ReadsAs(entries, config, language, text, out) && ReadsAs(entries, config, language, text, out')
    ensures out == out'
  {
    hide AllScanned, AllCommandsScanned, Normalizes, FillerEdits, EntryEdits;
    var e, f, k :| Stages(entries, config, language, text, e, f, k, out);
    var e', f', k' :| Stages(entries, config, language, text, e', f', k', out');
    AllScannedOnly(EntryEdits(entries), text, e, e');
    if config.removeFillers && (language == "en" || language == "auto" || language == "") {
      AllScannedOnly(FillerEdits(), e, f, f');
    }
    if config.spokenCommands { AllCommandsOnly(f, k, k'); }
    NormalizedExactly(k, out);
    NormalizedExactly(k, out');
  }

  /** What `process` returns is the only text that reads so. */
  lemma ReadsExactly(entries: seq<DictionaryEntry>, config: FormattingConfig, language: string, text: string,
                     out: string)
    requires forall e :: e in entries ==> e.from != ""
    ensures ReadsAs(entries, config, language, text, out) <==> out == ProcessText(entries, config, language, text)
  {
    ProcessReads(entries, config, language, text);
    if ReadsAs(entries, config, language, text, out) {
      ReadsOnly(entries, config, language, text, out, ProcessText(entries, config, language, text));
    }
    hide ReadsAs, ProcessText;
  }

  method Process(entries: seq<DictionaryEntry>, config: FormattingConfig, language: string, text: string)
    returns (out: string)
    requires forall e :: e in entries ==> e.from != ""
    ensures out == ProcessText(entries, config, language, text)
    ensures ReadsAs(entries, config, language, text, out)
  {
    hide Normalized, CommandsApplied, FillersRemoved, ReadsAs, Normalizes;
    out := text;
    if entries != [] {
      out := ApplyDictionary(entries, out);
    }
    if config.removeFillers {
      out := RemoveFillers(language, out);
    }
    if config.spokenCommands {
      out := ApplySpokenCommands(out);
    }
    out := Normalize(out);
    ProcessReads(entries, config, language, text);
  }

  // ---------------------------------------------------------------- what the pipeline does to the words

  predicate EnglishFillers(config: FormattingConfig, language: string) {
    config.removeFillers && FillersApply(language)
  }

  /** The dictionary edits the words, fillers are filtered out, spoken commands delete only their
      own words, and normalisation changes case. */
  ghost predicate Processed(before: seq<string>, after: seq<string>, entries: seq<DictionaryEntry>,
                            config: FormattingConfig, language: string)
  {
    exists edited, kept ::
      && DictionaryEdits(before, edited, entries)
      && CommandsDeleted(if EnglishFillers(config, language) then Without(edited, Fillers(|FILLERS|)) else edited,
                         kept, if config.spokenCommands then COMMANDS else [])
      && LowerAll(after) == LowerAll(kept)
  }

  lemma Compose(before: seq<string>, edited: seq<string>, kept: seq<string>, after: seq<string>,
                entries: seq<DictionaryEntry>, config: FormattingConfig, language: string)
    requires DictionaryEdits(before, edited, entries)
    requires CommandsDeleted(if EnglishFillers(config, language) then Without(edited, Fillers(|FILLERS|)) else edited,
                             kept, if config.spokenCommands then COMMANDS else [])
    requires LowerAll(after) == LowerAll(kept)
    ensures Processed(before, after, entries, config, language)
  {
    hide DictionaryEdits, CommandsDeleted, Without, Fillers, LowerAll;
  }

  lemma ProcessWords(entries: seq<DictionaryEntry>, config: FormattingConfig, language: string, text: string)
    requires forall e :: e in entries ==> e.from != ""
    ensures Processed(Words(text), Words(ProcessText(entries, config, language, text)), entries, config, language)
    ensures NormalForm(ProcessText(entries, config, language, text))
  {
    hide Words, Edited, Without, Fillers, NormalForm, Normalized, LowerAll, Lower, CommandsApplied, FillersRemoved,
      DictionaryPass, DictionaryEdits;
    var edited := DictionaryPass(entries, text);
    DictionaryWords(entries, text);
    var filtered := if config.removeFillers then FillersRemoved(language, edited) else edited;
    FillersRemovedWords(language, edited);
    var kept := if config.spokenCommands then CommandsApplied(filtered) else filtered;
    CommandsAppliedWords(filtered);
    NormalizeKeepsWords(kept);
    NormalizedIsNormal(kept);
    Compose(Words(text), Words(edited), Words(kept), Words(Normalized(kept)), entries, config, language);
  }

  lemma SurvivorsAreOld(before: seq<string>, after: seq<string>, config: FormattingConfig, language: string)
    requires Processed(before, after, [], config, language) && EnglishFillers(config, language)
    ensures forall w :: w in after ==>
              Lower(w) !in Fillers(|FILLERS|) && exists v :: v in before && Lower(v) == Lower(w)
  {
    var commands := if config.spokenCommands then COMMANDS else [];
    var edited, kept :| DictionaryEdits(before, edited, [])
      && CommandsDeleted(Without(edited, Fillers(|FILLERS|)), kept, commands) && LowerAll(after) == LowerAll(kept);
    hide Fillers, Without;
    DeletedWordsAreOld(Without(edited, Fillers(|FILLERS|)), kept, commands);
    WithoutIsSubset(edited, Fillers(|FILLERS|));
    forall w | w in after
      ensures Lower(w) !in Fillers(|FILLERS|) && exists v :: v in before && Lower(v) == Lower(w)
    {
      var i :| 0 <= i < |after| && after[i] == w;
      assert LowerAll(after)[i] == LowerAll(kept)[i];
      assert kept[i] in kept;
    }
  }

  /** With an empty dictionary and the English rules on: no filler survives, and every word of the
      result is a word of the input, case aside. */
  lemma NoFillerSurvives(config: FormattingConfig, language: string, text: string)
    requires EnglishFillers(config, language)
    ensures forall w :: w in Words(ProcessText([], config, language, text)) ==>
              Lower(w) !in Fillers(|FILLERS|) && exists v :: v in Words(text) && Lower(v) == Lower(w)
  {
    ProcessWords([], config, language, text);
    var after := Words(ProcessText([], config, language, text));
    hide Words, ProcessText, Without, Fillers, EnglishFillers;
    SurvivorsAreOld(Words(text), after, config, language);
  }

  /** A clean text passes through untouched. */
  lemma CleanTextUntouched(config: FormattingConfig, language: string, text: string)
    requires NormalForm(text)
    requires EnglishFillers(config, language) ==> forall w :: w in Words(text) ==> Lower(w) !in Fillers(|FILLERS|)
    requires config.spokenCommands ==> forall cmd :: cmd in COMMANDS ==> NoCommand(text, cmd.phrase)
    ensures ProcessText([], config, language, text) == text
  {
    hide Words, Fillers, NormalForm, Normalized, Lower, CommandsApplied, FillerPass, NoCommand;
    if EnglishFillers(config, language) { FillerPassKeeps(|FILLERS|, text); }
    CommandsAppliedWords(text);
    NormalIsFixed(text);
  }
}
