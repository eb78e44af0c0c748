/** Facts about slices of sequences that the other proofs use by name. */
module SeqFacts {

  lemma SliceOfSlice<T>(s: seq<T>, a: nat, b: nat, i: nat, k: nat)
    requires a <= b <= |s| && i + k <= b - a
    ensures s[a..b][i..i + k] == s[a + i..a + i + k]
  {
    var left, right := s[a..b][i..i + k], s[a + i..a + i + k];
    assert |left| == |right|;
    forall j | 0 <= j < k ensures left[j] == right[j] {
    }
  }

  lemma Cut<T>(s: seq<T>, a: nat)
    requires a <= |s|
    ensures s == s[..a] + s[a..]
  {
  }

  lemma CutTake<T>(s: seq<T>, a: nat, b: nat)
    requires a <= b <= |s|
    ensures s[..b] == s[..a] + s[a..b]
  {
  }

  lemma CutDrop<T>(s: seq<T>, a: nat, b: nat)
    requires a <= b <= |s|
    ensures s[a..] == s[a..b] + s[b..]
  {
  }

  lemma DropDrop<T>(s: seq<T>, a: nat, b: nat)
    requires a + b <= |s|
    ensures s[a..][b..] == s[a + b..]
  {
  }

  lemma TakeTake<T>(s: seq<T>, a: nat, b: nat)
    requires a <= b <= |s|
    ensures s[..b][..a] == s[..a]
  {
  }

  lemma DropConcat<T>(a: seq<T>, b: seq<T>)
    ensures (a + b)[|a|..] == b && (a + b)[..|a|] == a
  {
  }

  lemma Assoc<T>(a: seq<T>, b: seq<T>, c: seq<T>)
    ensures (a + b) + c == a + (b + c)
  {
  }

  lemma Ends<T>(a: seq<T>, b: seq<T>, c: seq<T>, d: seq<T>)
    ensures (a + b + c + d)[..|a|] == a
    ensures (a + b + c + d)[|a + b + c|..] == d
  {
  }

  /** The elements of a set, each once, in some order. */
  lemma {:induction false} Enumerate<T>(s: set<T>) returns (xs: seq<T>)
    ensures forall x :: x in xs <==> x in s
    ensures forall i, j :: 0 <= i < j < |xs| ==> xs[i] != xs[j]
  {
    if s == {} {
      xs := [];
    } else {
      var x :| x in s;
      var rest := Enumerate(s - {x});
      xs := [x] + rest;
    }
  }
}
