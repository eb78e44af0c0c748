/** One rewriting scan over a text, as `apply_dictionary` and `remove_fillers` run it: the
    cursor, the edit at each match, and what the whole scan does to the words of the text. */
module Scan {
  import opened SeqFacts
  import opened Ctype
  import opened WordSplit
  import opened WordEdits
  import opened PhraseSearch

  // ---------------------------------------------------------------- the cursor invariant

  /** The pass has consumed the words `done` of `text` and written their edited form before
      the cursor; what lies behind the cursor is untouched. */
  ghost predicate Progress(text: string, out: string, pos: nat, done: seq<string>,
                           phrase: seq<string>, outcomes: set<seq<string>>)
  {
    && pos <= |out|
    && Breaks(out[..pos], out[pos..])
    && Edited(done, Words(out[..pos]), phrase, outcomes)
    && done + Words(out[pos..]) == Words(text)
  }

  lemma ProgressStart(text: string, phrase: seq<string>, outcomes: set<seq<string>>)
    ensures Progress(text, text, 0, [], phrase, outcomes)
  {
    assert text[0..] == text && text[..0] == "";
  }

  lemma ProgressEnd(text: string, out: string, pos: nat, done: seq<string>,
                    phrase: seq<string>, outcomes: set<seq<string>>)
    requires Progress(text, out, pos, done, phrase, outcomes)
    ensures Edited(Words(text), Words(out), phrase, outcomes)
  {
    WordsConcat(out[..pos], out[pos..]);
    assert out == out[..pos] + out[pos..];
    EditedRefl(Words(out[pos..]), phrase, outcomes);
    EditedConcat(done, Words(out[..pos]), Words(out[pos..]), Words(out[pos..]), phrase, outcomes);
  }

  lemma EditStep(done: seq<string>, written: seq<string>, between: seq<string>, block: seq<string>,
                 repl: seq<string>, phrase: seq<string>, outcomes: set<seq<string>>)
    requires Edited(done, written, phrase, outcomes)
    requires LowerAll(block) == phrase && (repl in outcomes || repl == block)
    ensures Edited(done + between + block, written + between + repl, phrase, outcomes)
  {
    EditedRefl(between, phrase, outcomes);
    EditedConcat(done, written, between, between, phrase, outcomes);
    if repl in outcomes {
      EditedOne(block, phrase, outcomes, repl);
    } else {
      EditedRefl(block, phrase, outcomes);
    }
    EditedConcat(done + between, written + between, block, repl, phrase, outcomes);
  }

  lemma ProgressWords(all: seq<string>, done: seq<string>, written: seq<string>, between: seq<string>,
                      block: seq<string>, rest: seq<string>, repl: seq<string>,
                      phrase: seq<string>, outcomes: set<seq<string>>)
    requires Edited(done, written, phrase, outcomes)
    requires done + (between + block + rest) == all
    requires LowerAll(block) == phrase && (repl in outcomes || repl == block)
    ensures Edited(done + between + block, written + between + repl, phrase, outcomes)
    ensures done + between + block + rest == all
  {
    EditStep(done, written, between, block, repl, phrase, outcomes);
  }

  /** The cursor passes a match at `p`, whose words became `repl`. */
  lemma ProgressStep(text: string, out: string, pos: nat, done: seq<string>, n: string, outcomes: set<seq<string>>,
                     p: nat, out': string, pos': nat, repl: seq<string>)
    requires Progress(text, out, pos, done, Words(n), outcomes)
    requires n != "" && pos <= p && MatchAt(out, n, p)
    requires repl in outcomes || repl == Words(out[p..p + |n|])
    requires pos' <= |out'| && Breaks(out'[..pos'], out'[pos'..])
    requires Words(out'[..pos']) == Words(out[..p]) + repl
    requires Words(out'[pos'..]) == Words(out[p + |n|..])
    ensures Progress(text, out', pos', done + Words(out[pos..p]) + Words(out[p..p + |n|]), Words(n), outcomes)
  {
    MatchSplits(out, n, pos, p);
    MatchIsPhrase(out, n, p);
    ProgressWords(Words(text), done, Words(out[..pos]), Words(out[pos..p]), Words(out[p..p + |n|]),
                  Words(out[p + |n|..]), repl, Words(n), outcomes);
  }

  lemma EachWord(done: seq<string>, between: seq<string>, m: string, n: string, to: string)
    requires forall w :: w in between ==> Lower(w) != n
    requires m != "" && Lower(m) == n
    ensures RewriteEach(done + between + [m], n, to)
         == RewriteEach(done, n, to) + between + Words(Replacement(to, m[0]))
  {
    RewriteEachKeeps(between, n, to);
    RewriteEachConcat(done, between, n, to);
    RewriteEachConcat(done + between, [m], n, to);
    assert RewriteEach([m], n, to) == Words(Replacement(to, m[0]));
  }

  lemma WordMatched(out: string, n: string, p: nat)
    requires IsWord(n) && MatchAt(out, n, p)
    ensures Words(out[p..p + |n|]) == [out[p..p + |n|]]
    ensures Lower(out[p..p + |n|]) == n
  {
    MatchBreaks(out, n, p, p);
    var m := out[p..p + |n|];
    forall i | 0 <= i < |m| ensures IsWordChar(m[i]) {
      assert Lower(m)[i] == n[i];
    }
    WordsOfWord(m);
  }

  /** One-word phrases are never overlooked: what has been written is the pointwise rewriting
      of what has been consumed. */
  lemma EachStep(out: string, pos: nat, done: seq<string>, n: string, to: string, p: nat)
    requires IsWord(n) && pos <= p && MatchAt(out, n, p)
    requires Breaks(out[..pos], out[pos..])
    requires forall q: nat :: pos <= q < p ==> !MatchAt(out, n, q)
    requires Words(out[..pos]) == RewriteEach(done, n, to)
    ensures Words(out[..p]) + Words(Replacement(to, out[p]))
         == RewriteEach(done + Words(out[pos..p]) + Words(out[p..p + |n|]), n, to)
  {
    var between, m := Words(out[pos..p]), out[p..p + |n|];
    MatchSplits(out, n, pos, p);
    WordMatched(out, n, p);
    forall w | w in between ensures Lower(w) != n {
      NoMatchNoWord(out, n, pos, p, w);
    }
    EachWord(done, between, m, n, to);
  }

  lemma EachEnd(out: string, pos: nat, done: seq<string>, n: string, to: string)
    requires IsWord(n) && pos <= |out|
    requires Breaks(out[..pos], out[pos..])
    requires forall q: nat :: pos <= q ==> !MatchAt(out, n, q)
    requires Words(out[..pos]) == RewriteEach(done, n, to)
    ensures Words(out) == RewriteEach(done + Words(out[pos..]), n, to)
  {
    var rest := Words(out[pos..]);
    assert out[pos..|out|] == out[pos..];
    hide *;
    forall w | w in rest ensures Lower(w) != n {
      NoMatchNoWord(out, n, pos, |out|, w);
    }
    RewriteEachKeeps(rest, n, to);
    RewriteEachConcat(done, rest, n, to);
    WordsConcat(out[..pos], out[pos..]);
    assert out == out[..pos] + out[pos..];
  }

  /** A text that does not contain the word has no match. */
  lemma NoWordNoMatch(out: string, n: string, p: nat)
    requires IsWord(n) && MatchAt(out, n, p)
    ensures exists w :: w in Words(out) && Lower(w) == n
  {
    MatchSplits(out, n, 0, p);
    WordMatched(out, n, p);
    assert out[0..] == out;
    assert out[p..p + |n|] in Words(out);
  }

  // ---------------------------------------------------------------- one edit

  function DictionaryOutcomes(to: string): set<seq<string>> {
    {Words(to), Words(Replacement(to, 'A'))}
  }

  lemma ReplacementOutcome(to: string, first: char)
    ensures Words(Replacement(to, first)) in DictionaryOutcomes(to)
  {
  }

  /** What one edit at [p, e) promises: the cursor ends behind text with the words `repl`
      added, and behind it are the words that followed the edited stretch. */
  ghost predicate EditedAt(out: string, p: nat, e: nat, repl: seq<string>, out': string, pos': nat) {
    && p <= e <= |out| && pos' <= |out'|
    && Words(out'[..pos']) == Words(out[..p]) + repl
    && Words(out'[pos'..]) == Words(out[e..])
    && Breaks(out'[..pos'], out'[pos'..])
  }

  lemma EditedIntro(out: string, p: nat, e: nat, repl: seq<string>, out': string, pos': nat,
                    left: string, right: string)
    requires p <= e <= |out| && pos' <= |out'| && out'[..pos'] == left && out'[pos'..] == right
    requires Words(left) == Words(out[..p]) + repl && Words(right) == Words(out[e..]) && Breaks(left, right)
    ensures EditedAt(out, p, e, repl, out', pos')
  {
    hide Words, IsWordChar;
  }

  lemma GapBefore(out: string, p: nat, r: string)
    requires p <= |out| && (p == 0 || !IsWordChar(out[p - 1]))
    ensures Breaks(out[..p], r)
  {
  }

  lemma GapAfter(left: string, out: string, e: nat)
    requires e <= |out| && (e == |out| || !IsWordChar(out[e]))
    ensures Breaks(left, out[e..])
  {
  }

  /** Writing a replacement between two breaks inserts exactly its words. */
  lemma SplicedWords(out: string, p: nat, e: nat, r: string, out': string, pos': nat)
    requires p <= e <= |out| && out' == out[..p] + r + out[e..] && pos' == |out[..p] + r|
    requires p == 0 || !IsWordChar(out[p - 1])
    requires e == |out| || !IsWordChar(out[e])
    ensures pos' <= |out'| && out'[pos'..] == out[e..] && out'[..pos'] == out[..p] + r
    ensures EditedAt(out, p, e, Words(r), out', pos')
  {
    hide *;
    var left, right := out[..p] + r, out[e..];
    GapBefore(out, p, r);
    GapAfter(left, out, e);
    WordsConcat(out[..p], r);
    DropConcat(left, right);
    EditedIntro(out, p, e, Words(r), out', pos', left, right);
  }

  /** The words consumed once the match at `p` has been dealt with. */
  ghost function Consumed(out: string, pos: nat, done: seq<string>, p: nat, e: nat): seq<string>
    requires pos <= p <= e <= |out|
  {
    done + Words(out[pos..p]) + Words(out[p..e])
  }

  lemma EditProgress(text: string, out: string, pos: nat, done: seq<string>, n: string, outcomes: set<seq<string>>,
                     p: nat, repl: seq<string>, out': string, pos': nat)
    requires n != "" && pos <= p && MatchAt(out, n, p)
    requires Progress(text, out, pos, done, Words(n), outcomes)
    requires EditedAt(out, p, p + |n|, repl, out', pos') && (repl in outcomes || repl == Words(out[p..p + |n|]))
    ensures Progress(text, out', pos', Consumed(out, pos, done, p, p + |n|), Words(n), outcomes)
  {
    ProgressStep(text, out, pos, done, n, outcomes, p, out', pos', repl);
  }

  /** The text and the cursor after the match at [p, e) has been replaced by `to`. */
  function RewriteAt(to: string, out: string, p: nat, e: nat): (string, nat)
    requires p < e <= |out|
  {
    var left, right := TrimEnd(out[..p]), HoleTail(out[e..]);
    if to == "" then (left + Glue(left, right) + right, |left| + |Glue(left, right)|)
    else (out[..p] + Replacement(to, out[p]) + out[e..], p + |Replacement(to, out[p])|)
  }

  lemma RewriteShrinks(to: string, out: string, p: nat, e: nat)
    requires p < e <= |out|
    ensures var (out', pos') := RewriteAt(to, out, p, e);
            pos' <= |out'| && |out'| - pos' < |out| - p
  {
    HoleTailShrinks(out[e..]);
  }

  /** The whole scan from the cursor on: rewrite the first match, go on behind it. The text behind
      the cursor only ever shrinks, so the scan ends even when `to` contains the phrase. */
  function RewritePass(n: string, to: string, out: string, pos: nat): string
    requires n != ""
    decreases |out| - pos
  {
    var hit := FirstMatch(out, n, pos);
    if hit.None? then out
    else
      FirstMatchFacts(out, n, pos);
      RewriteShrinks(to, out, hit.value, hit.value + |n|);
      var (out', pos') := RewriteAt(to, out, hit.value, hit.value + |n|);
      RewritePass(n, to, out', pos')
  }

  lemma MatchEdges(out: string, n: string, p: nat)
    requires n != "" && MatchAt(out, n, p)
    ensures p < p + |n| <= |out|
    ensures p == 0 || !IsWordChar(out[p - 1])
    ensures p + |n| == |out| || !IsWordChar(out[p + |n|])
  {
  }

  lemma NothingLeft(c: char)
    ensures Replacement("", c) == "" && Words("") == []
  {
  }

  lemma RewriteUnfold(to: string, out: string, p: nat, e: nat)
    requires p < e <= |out|
    ensures var (out', pos') := RewriteAt(to, out, p, e);
            var left := TrimEnd(out[..p]) + Glue(TrimEnd(out[..p]), HoleTail(out[e..]));
            && (to == "" ==> out' == left + HoleTail(out[e..]) && pos' == |left|)
            && (to != "" ==> out' == out[..p] + Replacement(to, out[p]) + out[e..])
            && (to != "" ==> pos' == |out[..p] + Replacement(to, out[p])|)
  {
    hide TrimEnd, HoleTail, Glue, Replacement;
  }

  /** Replacing a match, or closing it as a spoken hole, changes no word on either side of it. */
  lemma RewriteEdits(to: string, out: string, n: string, p: nat)
    requires n != "" && MatchAt(out, n, p)
    ensures p < p + |n| <= |out|
    ensures var (out', pos') := RewriteAt(to, out, p, p + |n|);
            EditedAt(out, p, p + |n|, Words(Replacement(to, out[p])), out', pos')
  {
    hide *;
    MatchEdges(out, n, p);
    NothingLeft(out[p]);
    RewriteUnfold(to, out, p, p + |n|);
    var (out', pos') := RewriteAt(to, out, p, p + |n|);
    var right := out[p + |n|..];
    if to == "" {
      var left, tail := TrimEnd(out[..p]) + Glue(TrimEnd(out[..p]), HoleTail(right)), HoleTail(right);
      HoleKeepsWords(out[..p], right);
      DropConcat(left, tail);
      EditedIntro(out, p, p + |n|, [], out', pos', left, tail);
    } else {
      SplicedWords(out, p, p + |n|, Replacement(to, out[p]), out', pos');
    }
  }

  // ---------------------------------------------------------------- the whole scan

  /** The loop invariant of a dictionary or filler scan. */
  ghost predicate Scanning(text: string, out: string, pos: nat, done: seq<string>, n: string, to: string) {
    && Progress(text, out, pos, done, Words(n), DictionaryOutcomes(to))
    && (IsWord(n) ==> Words(out[..pos]) == RewriteEach(done, n, to))
  }

  lemma ScanStart(text: string, n: string, to: string)
    ensures Scanning(text, text, 0, [], n, to)
  {
    ProgressStart(text, Words(n), DictionaryOutcomes(to));
  }

  lemma ScanStep(text: string, out: string, pos: nat, done: seq<string>, n: string, to: string,
                 p: nat, out': string, pos': nat)
    requires n != "" && pos <= p && MatchAt(out, n, p)
    requires forall q: nat :: pos <= q < p ==> !MatchAt(out, n, q)
    requires Scanning(text, out, pos, done, n, to)
    requires EditedAt(out, p, p + |n|, Words(Replacement(to, out[p])), out', pos')
    ensures Scanning(text, out', pos', Consumed(out, pos, done, p, p + |n|), n, to)
  {
    ReplacementOutcome(to, out[p]);
    EditProgress(text, out, pos, done, n, DictionaryOutcomes(to), p, Words(Replacement(to, out[p])), out', pos');
    if IsWord(n) {
      EachStep(out, pos, done, n, to, p);
    }
  }

  lemma ScanEnd(text: string, out: string, pos: nat, done: seq<string>, n: string, to: string)
    requires Scanning(text, out, pos, done, n, to)
    requires forall q: nat :: pos <= q ==> !MatchAt(out, n, q)
    ensures Edited(Words(text), Words(out), Words(n), DictionaryOutcomes(to))
    ensures IsWord(n) ==> Words(out) == RewriteEach(Words(text), n, to)
  {
    ProgressEnd(text, out, pos, done, Words(n), DictionaryOutcomes(to));
    if IsWord(n) { EachEnd(out, pos, done, n, to); }
  }

  lemma RewriteTurn(n: string, to: string, out: string, pos: nat)
    requires n != ""
    ensures FirstMatch(out, n, pos).None? ==> RewritePass(n, to, out, pos) == out
    ensures FirstMatch(out, n, pos).Some? ==>
              var p := FirstMatch(out, n, pos).value;
              && p + |n| <= |out|
              && var (out', pos') := RewriteAt(to, out, p, p + |n|);
                 RewritePass(n, to, out, pos) == RewritePass(n, to, out', pos')
  {
    FirstMatchFacts(out, n, pos);
    hide FirstMatch, MatchAt, RewriteAt;
  }

  lemma {:induction false} RewriteScan(text: string, out: string, pos: nat, done: seq<string>, n: string, to: string)
    requires n != "" && Scanning(text, out, pos, done, n, to)
    ensures Edited(Words(text), Words(RewritePass(n, to, out, pos)), Words(n), DictionaryOutcomes(to))
    ensures IsWord(n) ==> Words(RewritePass(n, to, out, pos)) == RewriteEach(Words(text), n, to)
    decreases |out| - pos
  {
    hide *;
    RewriteTurn(n, to, out, pos);
    FirstMatchFacts(out, n, pos);
    var hit := FirstMatch(out, n, pos);
    if hit.None? {
      ScanEnd(text, out, pos, done, n, to);
    } else {
      var p := hit.value;
      RewriteShrinks(to, out, p, p + |n|);
      RewriteEdits(to, out, n, p);
      var (out', pos') := RewriteAt(to, out, p, p + |n|);
      ScanStep(text, out, pos, done, n, to, p, out', pos');
      RewriteScan(text, out', pos', Consumed(out, pos, done, p, p + |n|), n, to);
    }
  }

  /** A scan edits exactly the words of its phrase; a one-word phrase is rewritten wherever it
      stands, so the scan is then a pointwise map on the words of the text. */
  lemma RewritePassWords(n: string, to: string, text: string)
    requires n != ""
    ensures Edited(Words(text), Words(RewritePass(n, to, text, 0)), Words(n), DictionaryOutcomes(to))
    ensures IsWord(n) ==> Words(RewritePass(n, to, text, 0)) == RewriteEach(Words(text), n, to)
  {
    hide *;
    ScanStart(text, n, to);
    RewriteScan(text, text, 0, [], n, to);
  }

  /** A text without the phrase is left as it is. */
  lemma RewritePassKeeps(n: string, to: string, text: string)
    requires n != "" && forall p: nat :: !MatchAt(text, n, p)
    ensures RewritePass(n, to, text, 0) == text
  {
    hide *;
    FirstMatchFacts(text, n, 0);
    RewriteTurn(n, to, text, 0);
  }

  lemma RewritePassKeepsWords(n: string, to: string, text: string)
    requires IsWord(n) && forall w :: w in Words(text) ==> Lower(w) != n
    ensures n != "" && RewritePass(n, to, text, 0) == text
  {
    assert n != "";
    hide *;
    forall p: nat ensures !MatchAt(text, n, p) {
      if MatchAt(text, n, p) { NoWordNoMatch(text, n, p); }
    }
    RewritePassKeeps(n, to, text);
  }
}
