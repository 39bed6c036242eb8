/**
 First occurrences in a sequence, and small facts about sequences.
 */
module Sequences {

  // Each element where it first occurs.
  function Firsts<T(==)>(s: seq<T>): seq<T> {
    if s == [] then []
    else
      var front, last := s[..|s| - 1], s[|s| - 1];
      Firsts(front) + (if last in front then [] else [last])
  }

  ghost predicate Distinct<T>(s: seq<T>) {
    forall i, j :: 0 <= i < j < |s| ==> s[i] != s[j]
  }

  lemma {:induction false} FirstsFacts<T>(s: seq<T>)
    ensures forall x :: x in Firsts(s) <==> x in s
    ensures Distinct(Firsts(s))
  {
    if s != [] {
      FirstsFacts(s[..|s| - 1]);
      assert s == s[..|s| - 1] + [s[|s| - 1]];
    }
  }

  lemma FirstsStep<T>(s: seq<T>, x: T)
    ensures Firsts(s + [x]) == if x in s then Firsts(s) else Firsts(s) + [x]
  {
    assert (s + [x])[..|s|] == s;
  }

  lemma {:induction false} FirstsPrefix<T>(a: seq<T>, b: seq<T>)
    ensures Firsts(a) <= Firsts(a + b)
  {
    if b == [] {
      assert a + b == a;
    } else {
      FirstsPrefix(a, b[..|b| - 1]);
      assert (a + b)[..|a + b| - 1] == a + b[..|b| - 1];
    }
  }

  // Any number of first occurrences is reached after some part of the sequence.
  lemma {:induction false} FirstsReached<T>(s: seq<T>, k: nat) returns (n: nat)
    requires k <= |Firsts(s)|
    ensures n <= |s| && Firsts(s[..n]) == Firsts(s)[..k]
  {
    if k == |Firsts(s)| {
      n := |s|;
      assert s[..n] == s;
    } else {
      var front := s[..|s| - 1];
      n := FirstsReached(front, k);
      assert s[..n] == front[..n];
    }
  }

  // The places below n where p holds, in order.
  ghost predicate Enumerates(at: seq<nat>, n: nat, p: nat -> bool) {
    && (forall k :: 0 <= k < |at| ==> at[k] < n && p(at[k]))
    && (forall j, k :: 0 <= j < k < |at| ==> at[j] < at[k])
    && (forall i: nat :: i < n && p(i) ==> i in at)
  }

  lemma EnumeratesMore(at: seq<nat>, n: nat, p: nat -> bool)
    requires Enumerates(at, n, p)
    ensures Enumerates(if p(n) then at + [n] else at, n + 1, p)
  {
  }

  lemma ConcatAssociates<T>(a: seq<T>, b: seq<T>, c: seq<T>)
    ensures a + (b + c) == a + b + c
  {
  }

  // Taking the last element of the second part off.
  lemma LastOfConcat<T>(a: seq<T>, b: seq<T>)
    requires b != []
    ensures b == b[..|b| - 1] + [b[|b| - 1]] && a + b == (a + b[..|b| - 1]) + [b[|b| - 1]]
  {
  }

  lemma NothingBeside<T>(nothing: seq<T>, rest: seq<T>)
    requires nothing == []
    ensures nothing + rest == rest && rest + nothing == rest
  {
  }
}
