/** The C-locale character classes of <cctype>. A byte is modelled as a `char`;
    every character from 0x80 up is in none of the classes. */
module Ctype {
  import opened SeqFacts

  predicate IsUpper(c: char) { 'A' <= c <= 'Z' }

  predicate IsLower(c: char) { 'a' <= c <= 'z' }

  predicate IsAlpha(c: char) { IsUpper(c) || IsLower(c) }

  predicate IsDigit(c: char) { '0' <= c <= '9' }

  predicate IsAlnum(c: char) { IsAlpha(c) || IsDigit(c) }

  /** Space, \t, \n, \v, \f and \r. */
  predicate IsSpace(c: char) { c == ' ' || '\t' <= c <= '\r' }

  function ToLower(c: char): char {
    if IsUpper(c) then c - 'A' + 'a' else c
  }

  function ToUpper(c: char): char {
    if IsLower(c) then c - 'a' + 'A' else c
  }

  function Lower(s: string): (r: string)
    ensures |r| == |s|
    ensures forall i :: 0 <= i < |s| ==> r[i] == ToLower(s[i])
  {
    seq(|s|, i requires 0 <= i < |s| => ToLower(s[i]))
  }

  /** `s` without its leading white space. */
  function SkipSpaces(s: string): string {
    if s != "" && IsSpace(s[0]) then SkipSpaces(s[1..]) else s
  }

  lemma {:induction false} SkipSpacesFacts(s: string)
    ensures var r := SkipSpaces(s);
            && |r| <= |s| && r == s[|s| - |r|..]
            && (r != "" ==> !IsSpace(r[0]))
            && forall i :: 0 <= i < |s| - |r| ==> IsSpace(s[i])
  {
    if s != "" && IsSpace(s[0]) {
      var t := s[1..];
      SkipSpacesFacts(t);
      var k := |t| - |SkipSpaces(t)|;
      DropDrop(s, 1, k);
      forall i | 0 <= i < k + 1 ensures IsSpace(s[i]) {
        assert i > 0 ==> s[i] == t[i - 1];
      }
    }
  }

  /** `s` without its trailing white space. */
  function TrimEnd(s: string): string {
    if s != "" && IsSpace(s[|s| - 1]) then TrimEnd(s[..|s| - 1]) else s
  }

  lemma {:induction false} TrimEndFacts(s: string)
    ensures var r := TrimEnd(s);
            && |r| <= |s| && r == s[..|r|]
            && (r != "" ==> !IsSpace(r[|r| - 1]))
            && forall i :: |r| <= i < |s| ==> IsSpace(s[i])
  {
    if s != "" && IsSpace(s[|s| - 1]) {
      var t := s[..|s| - 1];
      TrimEndFacts(t);
      TakeTake(s, |TrimEnd(t)|, |t|);
      forall i | |TrimEnd(t)| <= i < |s| ensures IsSpace(s[i]) {
        assert i < |t| ==> s[i] == t[i];
      }
    }
  }

  lemma {:induction false} SkipSpacesUnique(s: string, k: nat)
    requires k <= |s|
    requires forall i :: 0 <= i < k ==> IsSpace(s[i])
    requires k < |s| ==> !IsSpace(s[k])
    ensures SkipSpaces(s) == s[k..]
  {
    if k > 0 {
      SkipSpacesUnique(s[1..], k - 1);
    }
  }

  lemma {:induction false} TrimEndUnique(s: string, k: nat)
    requires k <= |s|
    requires forall i :: k <= i < |s| ==> IsSpace(s[i])
    requires k > 0 ==> !IsSpace(s[k - 1])
    ensures TrimEnd(s) == s[..k]
  {
    if k < |s| {
      TrimEndUnique(s[..|s| - 1], k);
    }
  }
}
