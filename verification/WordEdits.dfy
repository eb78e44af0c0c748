/** Rewriting on word lists: what the passes of the transcript pipeline may do to the
    words of a text. */
module WordEdits {
  import opened Ctype
  import opened WordSplit

  /** `after` is `before` with some blocks of words, each equal to `phrase` up to case,
      replaced by one of `outcomes`; every other word is kept, in order. */
  ghost predicate Edited(before: seq<string>, after: seq<string>, phrase: seq<string>, outcomes: set<seq<string>>)
    decreases |before| + |after|
  {
    || (before == [] && after == [])
    || (before != [] && after != [] && before[0] == after[0] && Edited(before[1..], after[1..], phrase, outcomes))
    || exists o | o in outcomes :: EditedBlock(before, after, phrase, outcomes, o)
  }

  ghost predicate EditedBlock(before: seq<string>, after: seq<string>, phrase: seq<string>,
                              outcomes: set<seq<string>>, o: seq<string>)
    decreases |before| + |after|, 0
  {
    && |phrase| <= |before| && LowerAll(before[..|phrase|]) == phrase
    && o <= after && |phrase| + |o| > 0
    && Edited(before[|phrase|..], after[|o|..], phrase, outcomes)
  }

  lemma {:induction false} EditedRefl(ws: seq<string>, phrase: seq<string>, outcomes: set<seq<string>>)
    ensures Edited(ws, ws, phrase, outcomes)
  {
    if ws != [] {
      EditedRefl(ws[1..], phrase, outcomes);
    }
  }

  lemma EditedOne(block: seq<string>, phrase: seq<string>, outcomes: set<seq<string>>, o: seq<string>)
    requires LowerAll(block) == phrase && o in outcomes
    ensures Edited(block, o, phrase, outcomes)
  {
    if |phrase| + |o| > 0 {
      assert block[..|phrase|] == block && block[|phrase|..] == [] && o[|o|..] == [];
      assert EditedBlock(block, o, phrase, outcomes, o);
    }
  }

  lemma EditedBlockConcat(a: seq<string>, a': seq<string>, b: seq<string>, b': seq<string>,
                          phrase: seq<string>, outcomes: set<seq<string>>, o: seq<string>)
    requires |phrase| <= |a| && LowerAll(a[..|phrase|]) == phrase && o <= a' && |phrase| + |o| > 0
    requires Edited(a[|phrase|..] + b, a'[|o|..] + b', phrase, outcomes)
    ensures EditedBlock(a + b, a' + b', phrase, outcomes, o)
  {
    assert (a + b)[..|phrase|] == a[..|phrase|];
    assert (a + b)[|phrase|..] == a[|phrase|..] + b;
    assert (a' + b')[|o|..] == a'[|o|..] + b';
  }

  lemma {:induction false} EditedConcat(a: seq<string>, a': seq<string>, b: seq<string>, b': seq<string>,
                                        phrase: seq<string>, outcomes: set<seq<string>>)
    requires Edited(a, a', phrase, outcomes) && Edited(b, b', phrase, outcomes)
    ensures Edited(a + b, a' + b', phrase, outcomes)
    decreases |a| + |a'|
  {
    if a == [] && a' == [] {
      assert a + b == b && a' + b' == b';
    } else if a != [] && a' != [] && a[0] == a'[0] && Edited(a[1..], a'[1..], phrase, outcomes) {
      EditedConcat(a[1..], a'[1..], b, b', phrase, outcomes);
      assert (a + b)[1..] == a[1..] + b && (a' + b')[1..] == a'[1..] + b';
    } else {
      var o :| o in outcomes && EditedBlock(a, a', phrase, outcomes, o);
      EditedConcat(a[|phrase|..], a'[|o|..], b, b', phrase, outcomes);
      EditedBlockConcat(a, a', b, b', phrase, outcomes, o);
    }
  }

  /** Deleting blocks leaves a text whose words all come from the original. */
  lemma {:induction false} DeletedAreOld(before: seq<string>, after: seq<string>, phrase: seq<string>)
    requires Edited(before, after, phrase, {[]})
    ensures forall w :: w in after ==> w in before
    decreases |before|
  {
    if before != [] && after != [] && before[0] == after[0] && Edited(before[1..], after[1..], phrase, {[]}) {
      DeletedAreOld(before[1..], after[1..], phrase);
      assert after == [after[0]] + after[1..];
    } else if before != [] || after != [] {
      assert EditedBlock(before, after, phrase, {[]}, []);
      DeletedAreOld(before[|phrase|..], after, phrase);
    }
  }

  /** `to`, capitalised when the replaced text began with a capital and `to` does not. */
  function Replacement(to: string, first: char): string {
    if to != "" && IsLower(to[0]) && IsUpper(first) then [ToUpper(to[0])] + to[1..] else to
  }

  /** Every word equal to `from` up to case becomes the words of its replacement; all others stay. */
  function RewriteEach(ws: seq<string>, from: string, to: string): seq<string> {
    if ws == [] then []
    else
      (if Lower(ws[0]) == from && ws[0] != "" then Words(Replacement(to, ws[0][0])) else [ws[0]])
      + RewriteEach(ws[1..], from, to)
  }

  lemma {:induction false} RewriteEachConcat(a: seq<string>, b: seq<string>, from: string, to: string)
    ensures RewriteEach(a + b, from, to) == RewriteEach(a, from, to) + RewriteEach(b, from, to)
  {
    if a == [] {
      assert a + b == b;
    } else {
      assert (a + b)[1..] == a[1..] + b;
      RewriteEachConcat(a[1..], b, from, to);
    }
  }

  lemma {:induction false} RewriteEachKeeps(ws: seq<string>, from: string, to: string)
    requires forall w :: w in ws ==> Lower(w) != from
    ensures RewriteEach(ws, from, to) == ws
  {
    if ws != [] {
      RewriteEachKeeps(ws[1..], from, to);
    }
  }

  /** The words of `ws` other than those in `dropped`, case aside. */
  function Without(ws: seq<string>, dropped: set<string>): seq<string> {
    if ws == [] then []
    else (if Lower(ws[0]) in dropped then [] else [ws[0]]) + Without(ws[1..], dropped)
  }

  lemma {:induction false} WithoutNone(ws: seq<string>)
    ensures Without(ws, {}) == ws
  {
    if ws != [] { WithoutNone(ws[1..]); }
  }

  /** Filtering out one word after the other is filtering out the set. */
  lemma {:induction false} WithoutMore(ws: seq<string>, dropped: set<string>, from: string)
    requires from != ""
    ensures RewriteEach(Without(ws, dropped), from, "") == Without(ws, dropped + {from})
  {
    if ws != [] {
      WithoutMore(ws[1..], dropped, from);
      RewriteEachConcat(if Lower(ws[0]) in dropped then [] else [ws[0]], Without(ws[1..], dropped), from, "");
    }
  }

  lemma {:induction false} WithoutIsSubset(ws: seq<string>, dropped: set<string>)
    ensures forall w :: w in Without(ws, dropped) <==> w in ws && Lower(w) !in dropped
  {
    if ws != [] { WithoutIsSubset(ws[1..], dropped); }
  }

  lemma {:induction false} WithoutKeeps(ws: seq<string>, dropped: set<string>)
    requires forall w :: w in ws ==> Lower(w) !in dropped
    ensures Without(ws, dropped) == ws
  {
    if ws != [] { WithoutKeeps(ws[1..], dropped); }
  }
}
