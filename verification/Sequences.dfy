/** A few facts about sequences and sets that the proofs share. */
module Sequences {
  lemma Assoc<T>(a: seq<T>, b: seq<T>, c: seq<T>)
    ensures (a + b) + c == a + (b + c)
  {
  }

  /** Cutting a sequence and gluing it back. */
  lemma Halves<T>(s: seq<T>, k: nat)
    requires k <= |s|
    ensures s[..k] + s[k..] == s
  {
  }

  lemma Undo<T>(a: seq<T>, b: seq<T>)
    ensures (a + b)[..|a|] == a && (a + b)[|a|..] == b
  {
  }

  lemma Units<T>(a: seq<T>)
    ensures a + [] == a && [] + a == a
  {
  }

  /** `a` is `b` with some elements left out and the rest in order. */
  ghost predicate Subsequence<T>(a: seq<T>, b: seq<T>)
    decreases |b|
  {
    a == [] || (b != [] && ((a[0] == b[0] && Subsequence(a[1..], b[1..])) || Subsequence(a, b[1..])))
  }

  lemma {:induction false} SubsequenceUnderPrefix<T>(p: seq<T>, a: seq<T>, b: seq<T>)
    requires Subsequence(a, b)
    ensures Subsequence(p + a, p + b)
    decreases |p|
  {
    if p == [] {
      Units(a);
      Units(b);
    } else {
      SubsequenceUnderPrefix(p[1..], a, b);
      assert (p + a)[1..] == p[1..] + a && (p + b)[1..] == p[1..] + b;
    }
  }

  lemma {:induction false} SubsequenceReflexive<T>(a: seq<T>)
    ensures Subsequence(a, a)
  {
    if a != [] {
      SubsequenceReflexive(a[1..]);
    }
  }

  ghost predicate IsMaximum(s: set<int>, k: int) {
    k in s && forall j | j in s :: j <= k
  }

  lemma Element<T>(s: set<T>) returns (x: T)
    requires |s| > 0
    ensures x in s
  {
    x :| x in s;
  }

  lemma {:induction false} MaximumExists(s: set<int>)
    requires |s| > 0
    ensures exists k :: IsMaximum(s, k)
  {
    var x := Element(s);
    var rest := s - {x};
    if |rest| == 0 {
      assert forall j | j in s :: j != x ==> j in rest;
      assert IsMaximum(s, x);
    } else {
      MaximumExists(rest);
      var k :| IsMaximum(rest, k);
      assert forall j | j in s :: j != x ==> j in rest;
      assert IsMaximum(s, if k < x then x else k);
    }
  }
}
