/** Running the pipeline on what it has already processed. */
module SecondRun {
  import opened Ctype
  import opened WordSplit
  import opened PhraseSearch
  import opened Passes
  import opened SpokenCommands
  import opened CommandRounds
  import opened Normalizer
  import opened TranscriptPipeline

  lemma {:induction false} CollapseShrinks(atEdge: bool, s: string)
    ensures |Collapse(atEdge, s)| <= |s|
    decreases |s|
  {
    if s == "" {
    } else if IsBlank(s[0]) {
      var rest := AfterBlanks(s[1..]);
      CollapseShrinks(atEdge, rest);
      CollapseShrinks(false, rest);
    } else {
      CollapseShrinks(s[0] == '\n', s[1..]);
    }
  }

  lemma NormalizedShrinks(s: string)
    ensures |Normalized(s)| <= |s|
  {
    CollapseShrinks(true, s);
    TrimEndFacts(Collapse(true, s));
    CapitalizeRecases(true, TrimEnd(Collapse(true, s)));
    hide Collapse, TrimEnd, Capitalize;
  }

  /** No spoken command stands in the text, or they are not looked for. */
  ghost predicate Commandless(config: FormattingConfig, text: string) {
    config.spokenCommands ==> forall a: nat :: a < 3 ==> NoCommand(text, Phrase(a))
  }

  /** A text in normal form without fillers is left as it is exactly when no command stands in it. */
  lemma CleanTextIff(config: FormattingConfig, language: string, text: string)
    requires NormalForm(text)
    requires EnglishFillers(config, language) ==> forall w :: w in Words(text) ==> Lower(w) !in Fillers(|FILLERS|)
    ensures ProcessText([], config, language, text) == text <==> Commandless(config, text)
  {
    hide Words, Fillers, NormalForm, Normalized, Lower, CommandsApplied, FillerPass, NoCommand;
    if EnglishFillers(config, language) { FillerPassKeeps(|FILLERS|, text); }
    UnchangedIff(text);
    NormalizedShrinks(CommandsApplied(text));
    NormalIsFixed(text);
  }

  /** With an empty dictionary: processing twice is processing once exactly when no command stands in
      what the first run has returned. */
  lemma ProcessTwice(config: FormattingConfig, language: string, text: string)
    ensures var once := ProcessText([], config, language, text);
            ProcessText([], config, language, once) == once <==> Commandless(config, once)
  {
    var once := ProcessText([], config, language, text);
    ProcessWords([], config, language, text);
    if EnglishFillers(config, language) { NoFillerSurvives(config, language, text); }
    hide *;
    CleanTextIff(config, language, once);
  }

  // ---------------------------------------------------------------- a text that shows it

  function OnlyCommands(): FormattingConfig { FormattingConfig(false, true) }

  lemma CommandlessAt(text: string, a: nat)
    requires a < 3
    ensures Commandless(OnlyCommands(), text) ==> NoCommand(text, Phrase(a))
  {
    hide NoCommand, Phrase;
  }

  lemma PhraseTop(a: nat)
    requires a < 3
    ensures var n := Phrase(a); |n| >= 7 && n[0] == 'n' && n[2] == 'w' && !(n[3] == ' ' && n[4] == ' ')
  {
  }

  lemma TwoSpacesMiss(a: nat, q: nat)
    requires a < 3
    ensures !MatchAt("new  line", Phrase(a), q)
  {
    if MatchAt("new  line", Phrase(a), q) {
      PhraseTop(a);
      MatchPhrase("new  line", a, q);
      MatchChars("new  line", Phrase(a), q);
    }
  }

  lemma TwoSpacesNoMatch()
    ensures forall a: nat :: a < 3 ==> NoCommand("new  line", Phrase(a))
  {
    forall a: nat, q: nat | a < 3 ensures !IsCommand("new  line", Phrase(a), q) {
      if MatchAt("new  line", Phrase(a), q) { TwoSpacesMiss(a, q); }
    }
  }

  lemma BlanksCollapsed()
    ensures Collapse(false, "  line") == " line"
  {
    assert "  line"[1..] == " line" && " line"[1..] == "line";
    assert AfterBlanks("line") == "line" && AfterBlanks(" line") == "line";
    CollapseWord(false, "line", 4);
    assert "line"[..4] == "line" && "line"[4..] == "";
  }

  lemma TwoSpacesCollapsed()
    ensures Collapse(true, "new  line") == "new line"
  {
    CollapseWord(true, "new  line", 3);
    assert "new  line"[3..] == "  line" && "new  line"[..3] == "new";
    BlanksCollapsed();
    hide *;
    assert "new" + " line" == "new line";
  }

  lemma {:induction false} InsideSentence(s: string)
    requires forall i :: 0 <= i < |s| ==> IsAlpha(s[i]) || s[i] == ' '
    ensures Capitalize(false, s) == s
  {
    if s != "" {
      InsideSentence(s[1..]);
      assert s == [s[0]] + s[1..];
    }
  }

  lemma NewLineCapitalized()
    ensures Capitalize(true, "new line") == "New line"
  {
    assert "new line"[1..] == "ew line";
    InsideSentence("ew line");
    assert ['N'] + "ew line" == "New line";
  }

  lemma TwoSpacesNormalized()
    ensures Normalized("new  line") == "New line"
  {
    TwoSpacesCollapsed();
    TrimEndUnique("new line", 8);
    NewLineCapitalized();
    hide Collapse, TrimEnd, Capitalize;
  }

  lemma TwoSpacesProcessed(language: string)
    ensures ProcessText([], OnlyCommands(), language, "new  line") == "New line"
  {
    TwoSpacesNoMatch();
    NothingLeft("new  line");
    TwoSpacesNormalized();
    hide Normalized, CommandsApplied;
    assert DictionaryPass([], "new  line") == "new  line";
  }

  lemma NewLineBounds()
    ensures LeftBoundary("New line", 0) && RightBoundary("New line", 8)
  {
    EdgeFacts("New line", 0);
    SkipSpacesUnique("New line"[8..], 0);
    hide Edge, LeftBoundary, SkipSpaces;
  }

  lemma NewLineStands()
    ensures !NoCommand("New line", Phrase(1))
  {
    var text := "New line";
    assert Phrase(1) == "new line";
    SpelledAt(text, 0, "new line");
    SkipSpacesUnique(text[8..], 0);
    hide MatchAt, SkipSpaces, Phrase;
    NewLineBounds();
    assert IsCommand(text, "new line", 0);
  }

  /** Two spaces between the words of a command: the first run only makes them one, the second run
      takes the command out. */
  lemma TwoSpaces(language: string)
    ensures ProcessText([], OnlyCommands(), language, "new  line") == "New line"
    ensures ProcessText([], OnlyCommands(), language, "New line") != "New line"
  {
    TwoSpacesProcessed(language);
    NewLineStands();
    ProcessTwice(OnlyCommands(), language, "new  line");
    CommandlessAt("New line", 1);
    hide *;
  }
}
