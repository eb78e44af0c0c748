/** Edit scripts between word lists and the cost of the cheapest one. */
module EditDistance {



  /** One step of an edit script, left to right. */
  datatype Edit<T> = Keep(word: T) | Substitute(gone: T, added: T) | Delete(gone: T) | Insert(added: T)

  /** What one step reads, and what it writes. */
  function Reads<T>(e: Edit<T>): seq<T> {
    match e case Keep(w) => [w] case Substitute(g, _) => [g] case Delete(g) => [g] case Insert(_) => []
  }

  function Writes<T>(e: Edit<T>): seq<T> {
    match e case Keep(w) => [w] case Substitute(_, n) => [n] case Delete(_) => [] case Insert(n) => [n]
  }

  function Source<T>(script: seq<Edit<T>>): seq<T> {
    if script == [] then [] else Reads(script[0]) + Source(script[1..])
  }

  function Target<T>(script: seq<Edit<T>>): seq<T> {
    if script == [] then [] else Writes(script[0]) + Target(script[1..])
  }

  /** Keeping a word is free; every other step costs one. */
  function Cost<T>(script: seq<Edit<T>>): nat {
    if script == [] then 0 else (if script[0].Keep? then 0 else 1) + Cost(script[1..])
  }

  ghost predicate Turns<T>(script: seq<Edit<T>>, a: seq<T>, b: seq<T>) {
    Source(script) == a && Target(script) == b
  }

  /** `d` is the least cost of a script that turns `a` into `b`. */
  ghost predicate IsDistance<T(!new)>(a: seq<T>, b: seq<T>, d: nat) {
    && (exists script: seq<Edit<T>> :: Turns(script, a, b) && Cost(script) == d)
    && (forall script: seq<Edit<T>> :: Turns(script, a, b) ==> d <= Cost(script))
  }

  // ---------------------------------------------------------------- the recurrence

  function Min3(x: nat, y: nat, z: nat): nat {
    if x <= y && x <= z then x else if y <= z then y else z
  }

  /** The Levenshtein recurrence on prefixes, as the table of the program reads it. */
  function Distance<T(==)>(a: seq<T>, b: seq<T>): nat {
    if a == [] then |b|
    else if b == [] then |a|
    else
      var a', b' := a[..|a| - 1], b[..|b| - 1];
      Min3(Distance(a', b') + (if a[|a| - 1] == b[|b| - 1] then 0 else 1), Distance(a', b) + 1, Distance(a, b') + 1)
  }

  lemma {:induction false} ScriptConcat<T>(s: seq<Edit<T>>, t: seq<Edit<T>>)
    ensures Source(s + t) == Source(s) + Source(t)
    ensures Target(s + t) == Target(s) + Target(t)
    ensures Cost(s + t) == Cost(s) + Cost(t)
  {
    hide Reads, Writes;
    if s == [] {
      assert s + t == t;
    } else {
      assert (s + t)[1..] == s[1..] + t;
      ScriptConcat(s[1..], t);
    }
  }

  /** A script in which every word of `a` is deleted, or every word of `b` inserted. */
  lemma {:induction false} DeleteAll<T>(a: seq<T>) returns (script: seq<Edit<T>>)
    ensures Turns(script, a, []) && Cost(script) == |a|
  {
    if a == [] {
      script := [];
    } else {
      var rest := DeleteAll(a[1..]);
      script := [Delete(a[0])] + rest;
      assert script[1..] == rest;
    }
  }

  lemma {:induction false} InsertAll<T>(b: seq<T>) returns (script: seq<Edit<T>>)
    ensures Turns(script, [], b) && Cost(script) == |b|
  {
    if b == [] {
      script := [];
    } else {
      var rest := InsertAll(b[1..]);
      script := [Insert(b[0])] + rest;
      assert script[1..] == rest;
    }
  }

  lemma Extend<T>(init: seq<Edit<T>>, last: Edit<T>) returns (script: seq<Edit<T>>)
    ensures Source(script) == Source(init) + Reads(last)
    ensures Target(script) == Target(init) + Writes(last)
    ensures Cost(script) == Cost(init) + (if last.Keep? then 0 else 1)
  {
    script := init + [last];
    ScriptConcat(init, [last]);
    assert Source([last]) == Reads(last) && Target([last]) == Writes(last);
    assert Cost([last]) == if last.Keep? then 0 else 1;
  }

  /** The entry of the recurrence that is least, and the step it stands for. */
  lemma LeastStep<T>(a: seq<T>, b: seq<T>) returns (a': seq<T>, b': seq<T>, last: Edit<T>)
    requires a != [] && b != []
    ensures a == a' + Reads(last) && b == b' + Writes(last) && |a'| + |b'| < |a| + |b|
    ensures Distance(a, b) == Distance(a', b') + (if last.Keep? then 0 else 1)
  {
    var x, y, p, q := a[|a| - 1], b[|b| - 1], a[..|a| - 1], b[..|b| - 1];
    assert a == p + [x] && b == q + [y];
    var sub := Distance(p, q) + (if x == y then 0 else 1);
    if sub <= Distance(p, b) + 1 && sub <= Distance(a, q) + 1 {
      a', b', last := p, q, if x == y then Keep(x) else Substitute(x, y);
    } else if Distance(p, b) <= Distance(a, q) {
      a', b', last := p, b, Delete(x);
    } else {
      a', b', last := a, q, Insert(y);
    }
  }

  /** The recurrence is achieved by a script. */
  lemma {:induction false} Achieved<T>(a: seq<T>, b: seq<T>) returns (script: seq<Edit<T>>)
    ensures Turns(script, a, b) && Cost(script) == Distance(a, b)
    decreases |a| + |b|
  {
    if a == [] {
      script := InsertAll(b);
    } else if b == [] {
      script := DeleteAll(a);
    } else {
      hide Source, Target, Cost, Distance, Reads, Writes;
      var a', b', last := LeastStep(a, b);
      var init := Achieved(a', b');
      script := Extend(init, last);
    }
  }

  lemma LastStep<T>(script: seq<Edit<T>>)
    requires script != []
    ensures var init, last := script[..|script| - 1], script[|script| - 1];
            && Source(script) == Source(init) + Reads(last)
            && Target(script) == Target(init) + Writes(last)
            && Cost(script) == Cost(init) + (if last.Keep? then 0 else 1)
  {
    var init, last := script[..|script| - 1], script[|script| - 1];
    assert script == init + [last];
    var extended := Extend(init, last);
    ScriptConcat(init, [last]);
    assert Source([last]) == Reads(last) && Target([last]) == Writes(last);
  }

  /** Adding a word to one side changes the recurrence by at most one. */
  lemma {:induction false} DistanceStep<T>(a: seq<T>, b: seq<T>)
    ensures a != [] ==> Distance(a, b) <= Distance(a[..|a| - 1], b) + 1
    ensures b != [] ==> Distance(a, b) <= Distance(a, b[..|b| - 1]) + 1
  {
    if a == [] || b == [] {
      if b == [] && a != [] { assert a[..|a| - 1] == [] ==> |a| == 1; }
    }
  }

  /** No script is cheaper than the recurrence. */
  lemma {:induction false} NoneCheaper<T>(script: seq<Edit<T>>)
    ensures Distance(Source(script), Target(script)) <= Cost(script)
    decreases |script|
  {
    if script != [] {
      var init, last := script[..|script| - 1], script[|script| - 1];
      LastStep(script);
      NoneCheaper(init);
      var a, b := Source(script), Target(script);
      DistanceStep(a, b);
      if last.Keep? || last.Substitute? {
        assert a[..|a| - 1] == Source(init) && b[..|b| - 1] == Target(init);
      } else if last.Delete? {
        assert a[..|a| - 1] == Source(init) && b == Target(init);
      } else {
        assert a == Source(init) && b[..|b| - 1] == Target(init);
      }
    }
  }

  /** The recurrence computes the minimum over all edit scripts. */
  lemma DistanceIsMinimal<T(!new)>(a: seq<T>, b: seq<T>)
    ensures IsDistance(a, b, Distance(a, b))
  {
    var script := Achieved(a, b);
    forall s: seq<Edit<T>> | Turns(s, a, b) ensures Distance(a, b) <= Cost(s) {
      NoneCheaper(s);
    }
  }

  // ---------------------------------------------------------------- a metric

  lemma {:induction false} FreeScript<T>(script: seq<Edit<T>>)
    requires Cost(script) == 0
    ensures Source(script) == Target(script)
  {
    if script != [] { FreeScript(script[1..]); }
  }

  lemma {:induction false} KeepAll<T>(a: seq<T>) returns (script: seq<Edit<T>>)
    ensures Turns(script, a, a) && Cost(script) == 0
  {
    if a == [] {
      script := [];
    } else {
      var rest := KeepAll(a[1..]);
      script := [Keep(a[0])] + rest;
      assert script[1..] == rest;
    }
  }

  lemma {:induction false} DistanceZero<T>(a: seq<T>, b: seq<T>)
    ensures Distance(a, b) == 0 <==> a == b
  {
    var script := Achieved(a, b);
    if Distance(a, b) == 0 { FreeScript(script); }
    if a == b {
      var keep := KeepAll(a);
      NoneCheaper(keep);
    }
  }

  function Inverse<T>(script: seq<Edit<T>>): seq<Edit<T>> {
    if script == [] then []
    else [match script[0]
          case Keep(w) => Keep(w)
          case Substitute(o, n) => Substitute(n, o)
          case Delete(o) => Insert(o)
          case Insert(n) => Delete(n)] + Inverse(script[1..])
  }

  lemma {:induction false} InverseTurns<T>(script: seq<Edit<T>>)
    ensures Turns(Inverse(script), Target(script), Source(script)) && Cost(Inverse(script)) == Cost(script)
  {
    if script != [] {
      InverseTurns(script[1..]);
      assert Inverse(script)[1..] == Inverse(script[1..]);
    }
  }

  lemma {:induction false} DistanceSymmetric<T>(a: seq<T>, b: seq<T>)
    ensures Distance(a, b) == Distance(b, a)
  {
    var there := Achieved(a, b);
    var back := Achieved(b, a);
    InverseTurns(there);
    InverseTurns(back);
    NoneCheaper(Inverse(there));
    NoneCheaper(Inverse(back));
  }

  /** A step that reads a word and a step that reads what it wrote, in one. */
  function Merge<T(==)>(e: Edit<T>, f: Edit<T>): seq<Edit<T>>
    requires !e.Delete? && !f.Insert?
  {
    if e.Insert? then (if f.Delete? then [] else [Insert(Writes(f)[0])])
    else if f.Delete? then [Delete(Reads(e)[0])]
    else if Reads(e)[0] == Writes(f)[0] then [Keep(Reads(e)[0])]
    else [Substitute(Reads(e)[0], Writes(f)[0])]
  }

  /** Two scripts, one after the other, in one. */
  function Then<T(==)>(s: seq<Edit<T>>, t: seq<Edit<T>>): seq<Edit<T>>
    decreases |s| + |t|
  {
    if s != [] && s[0].Delete? then [s[0]] + Then(s[1..], t)
    else if t != [] && t[0].Insert? then [t[0]] + Then(s, t[1..])
    else if s == [] || t == [] then []
    else Merge(s[0], t[0]) + Then(s[1..], t[1..])
  }

  lemma MergeTurns<T>(e: Edit<T>, f: Edit<T>)
    requires !e.Delete? && !f.Insert? && Writes(e) == Reads(f)
    ensures Source(Merge(e, f)) == Reads(e) && Target(Merge(e, f)) == Writes(f)
    ensures Cost(Merge(e, f)) <= Cost([e]) + Cost([f])
  {
  }

  lemma ConsTurns<T>(e: Edit<T>, s: seq<Edit<T>>)
    ensures Source([e] + s) == Reads(e) + Source(s) && Target([e] + s) == Writes(e) + Target(s)
    ensures Cost([e] + s) == Cost([e]) + Cost(s)
  {
    assert ([e] + s)[1..] == s;
  }

  lemma {:induction false} ThenTurns<T>(s: seq<Edit<T>>, t: seq<Edit<T>>)
    requires Target(s) == Source(t)
    ensures Turns(Then(s, t), Source(s), Target(t))
    ensures Cost(Then(s, t)) <= Cost(s) + Cost(t)
    decreases |s| + |t|
  {
    if s != [] && s[0].Delete? {
      ThenTurns(s[1..], t);
      ConsTurns(s[0], Then(s[1..], t));
    } else if t != [] && t[0].Insert? {
      ThenTurns(s, t[1..]);
      ConsTurns(t[0], Then(s, t[1..]));
    } else if s == [] || t == [] {
    } else {
      ThenMerge(s, t);
    }
  }

  lemma {:induction false} ThenMerge<T>(s: seq<Edit<T>>, t: seq<Edit<T>>)
    requires s != [] && t != [] && !s[0].Delete? && !t[0].Insert? && Target(s) == Source(t)
    ensures Turns(Then(s, t), Source(s), Target(t))
    ensures Cost(Then(s, t)) <= Cost(s) + Cost(t)
    decreases |s| + |t|, 0
  {
    assert Target(s)[..1] == Writes(s[0]) && Target(s)[1..] == Target(s[1..]);
    assert Source(t)[..1] == Reads(t[0]) && Source(t)[1..] == Source(t[1..]);
    ThenTurns(s[1..], t[1..]);
    MergeTurns(s[0], t[0]);
    ScriptConcat(Merge(s[0], t[0]), Then(s[1..], t[1..]));
  }

  lemma {:induction false} Triangle<T>(a: seq<T>, b: seq<T>, c: seq<T>)
    ensures Distance(a, c) <= Distance(a, b) + Distance(b, c)
  {
    var s := Achieved(a, b);
    var t := Achieved(b, c);
    ThenTurns(s, t);
    NoneCheaper(Then(s, t));
  }

  lemma {:induction false} CostBounds<T>(script: seq<Edit<T>>)
    ensures |Source(script)| <= |Target(script)| + Cost(script)
    ensures |Target(script)| <= |Source(script)| + Cost(script)
  {
    if script != [] { CostBounds(script[1..]); }
  }

  /** Substitute along the common length, then insert or delete the rest. */
  lemma {:induction false} Crude<T>(a: seq<T>, b: seq<T>) returns (script: seq<Edit<T>>)
    ensures Turns(script, a, b) && Cost(script) == if |a| <= |b| then |b| else |a|
  {
    if a == [] {
      script := InsertAll(b);
    } else if b == [] {
      script := DeleteAll(a);
    } else {
      var rest := Crude(a[1..], b[1..]);
      script := [Substitute(a[0], b[0])] + rest;
      assert script[1..] == rest;
    }
  }

  /** The distance lies between the difference of the lengths and the larger length. */
  lemma {:induction false} DistanceBounds<T>(a: seq<T>, b: seq<T>)
    ensures |a| <= |b| + Distance(a, b) && |b| <= |a| + Distance(a, b)
    ensures Distance(a, b) <= if |a| <= |b| then |b| else |a|
  {
    var best := Achieved(a, b);
    CostBounds(best);
    var crude := Crude(a, b);
    NoneCheaper(crude);
  }
}
