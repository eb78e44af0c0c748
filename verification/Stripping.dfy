/** Taking characters off the ends of a text, or out of it. */
module Stripping {

  function StripLeft(s: string, p: char -> bool): string {
    if s != "" && p(s[0]) then StripLeft(s[1..], p) else s
  }

  function StripRight(s: string, p: char -> bool): string {
    if s != "" && p(s[|s| - 1]) then StripRight(s[..|s| - 1], p) else s
  }

  function Strip(s: string, p: char -> bool): string { StripRight(StripLeft(s, p), p) }

  predicate Bare(s: string, p: char -> bool) { s != "" ==> !p(s[0]) && !p(s[|s| - 1]) }

  lemma {:induction false} StripLeftFacts(s: string, p: char -> bool)
    ensures var r := StripLeft(s, p);
            && |r| <= |s| && r == s[|s| - |r|..] && (r != "" ==> !p(r[0]))
  {
    if s != "" && p(s[0]) { StripLeftFacts(s[1..], p); }
  }

  lemma {:induction false} StripRightFacts(s: string, p: char -> bool)
    ensures var r := StripRight(s, p);
            && |r| <= |s| && r == s[..|r|] && (r != "" ==> !p(r[|r| - 1]))
  {
    if s != "" && p(s[|s| - 1]) { StripRightFacts(s[..|s| - 1], p); }
  }

  /** Stripping takes a slice whose ends cannot be stripped any more. */
  lemma StripFacts(s: string, p: char -> bool)
    ensures var r := Strip(s, p);
            && |r| <= |s| && Bare(r, p) && (|r| == |s| ==> r == s)
            && (forall c :: c in r ==> c in s)
            && (s != "" && p(s[0]) ==> |r| < |s|)
  {
    StripLeftFacts(s, p);
    StripRightFacts(StripLeft(s, p), p);
  }

  lemma StripBare(s: string, p: char -> bool)
    requires Bare(s, p)
    ensures Strip(s, p) == s
  {
  }

  lemma StripOneLeft(c: char, s: string, p: char -> bool)
    requires p(c)
    ensures Strip([c] + s, p) == Strip(s, p)
  {
    assert ([c] + s)[1..] == s;
  }

  lemma {:induction false} StripLeftSnoc(s: string, c: char, p: char -> bool)
    requires p(c)
    ensures StripLeft(s + [c], p) == if StripLeft(s, p) == "" then "" else StripLeft(s, p) + [c]
  {
    if s == "" {
      assert s + [c] == [c] && [c][1..] == "";
    } else if p(s[0]) {
      assert (s + [c])[1..] == s[1..] + [c];
      StripLeftSnoc(s[1..], c, p);
    }
  }

  lemma StripOneRight(s: string, c: char, p: char -> bool)
    requires p(c)
    ensures Strip(s + [c], p) == Strip(s, p)
  {
    StripLeftSnoc(s, c, p);
    var l := StripLeft(s, p);
    if l != "" { assert (l + [c])[..|l|] == l; }
  }

  function Without(s: string, c: char): string {
    if s == "" then "" else (if s[0] == c then "" else [s[0]]) + Without(s[1..], c)
  }

  lemma {:induction false} WithoutFacts(s: string, c: char)
    ensures var r := Without(s, c);
            && c !in r && (forall x :: x in r ==> x in s)
            && |r| <= |s| && (c !in s ==> r == s) && (c in s ==> |r| < |s|)
  {
    if s != "" {
      WithoutFacts(s[1..], c);
      assert s == [s[0]] + s[1..];
    }
  }

  lemma {:induction false} WithoutAppend(a: string, b: string, c: char)
    ensures Without(a + b, c) == Without(a, c) + Without(b, c)
  {
    if a == "" {
      assert a + b == b;
    } else {
      assert (a + b)[1..] == a[1..] + b;
      WithoutAppend(a[1..], b, c);
    }
  }
}
