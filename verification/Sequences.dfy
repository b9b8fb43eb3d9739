/** Regrouping sequences, and counting how often a number occurs in one. */
module Sequences {
  lemma Regroup<T>(a: seq<T>, b: seq<T>, c: seq<T>)
    ensures a + b + c == a + (b + c)
  {
  }

  lemma PrefixOfMore<T>(a: seq<T>, b: seq<T>, c: seq<T>)
    requires a <= b
    ensures a <= b + c
  {
  }

  lemma HeadAndTail<T>(s: seq<T>)
    requires s != []
    ensures s == [s[0]] + s[1..]
  {
  }

  /** How often `x` occurs in `s`. */
  function Count(s: seq<nat>, x: nat): nat {
    if s == [] then 0
    else Count(s[..|s| - 1], x) + if s[|s| - 1] == x then 1 else 0
  }

  lemma CountAppend(s: seq<nat>, y: nat, x: nat)
    ensures Count(s + [y], x) == Count(s, x) + if x == y then 1 else 0
  {
    assert (s + [y])[..|s|] == s;
  }

  lemma {:induction false} CountConcat(a: seq<nat>, b: seq<nat>, x: nat)
    ensures Count(a + b, x) == Count(a, x) + Count(b, x)
    decreases |b|
  {
    if b == [] {
      assert a + b == a;
    } else {
      var n := |b| - 1;
      CountConcat(a, b[..n], x);
      assert a + b == (a + b[..n]) + [b[n]];
      CountAppend(a + b[..n], b[n], x);
    }
  }

  /** In 0, 1, 2, ... every number occurs once. */
  lemma {:induction false} CountUp(s: seq<nat>, x: nat)
    requires forall k :: 0 <= k < |s| ==> s[k] == k
    ensures Count(s, x) == if x < |s| then 1 else 0
    decreases |s|
  {
    if s != [] {
      CountUp(s[..|s| - 1], x);
    }
  }
}
