/**
 Ascending lists of numbers.
 */
module Numbers {

  ghost predicate Ascending(ns: seq<nat>) {
    forall i, j :: 0 <= i < j < |ns| ==> ns[i] < ns[j]
  }

  // Two ascending lists of the same numbers are one.
  lemma {:induction false} AscendingUnique(a: seq<nat>, b: seq<nat>)
    requires Ascending(a) && Ascending(b) && forall n :: n in a <==> n in b
    ensures a == b
  {
    HeadOrEmpty(a);
    HeadOrEmpty(b);
    if a != [] && b != [] {
      assert a[0] in a && b[0] in b;
      assert a[0] == b[0];
      TailMembers(a);
      TailMembers(b);
      AscendingUnique(a[1..], b[1..]);
    }
  }

  lemma HeadOrEmpty(a: seq<nat>)
    ensures a == [] <==> forall n :: n !in a
  {
    if a != [] { assert a[0] in a; }
  }

  lemma TailMembers(a: seq<nat>)
    requires Ascending(a) && a != []
    ensures Ascending(a[1..]) && forall n :: n in a[1..] <==> n in a && n != a[0]
  {
    forall n | n in a && n != a[0] ensures n in a[1..] {
      var i :| 0 <= i < |a| && a[i] == n;
      assert a[1..][i - 1] == n;
    }
  }

  method Least(s: set<nat>) returns (least: nat)
    requires s != {}
    ensures least in s && forall n :: n in s ==> least <= n
  {
    least :| least in s;
    var todo := s - {least};
    while todo != {}
      invariant todo <= s && least in s
      invariant forall n :: n in s && n !in todo ==> least <= n
      decreases |todo|
    {
      var n :| n in todo;
      if n < least { least := n; }
      todo := todo - {n};
    }
  }

  method Sorted(s: set<nat>) returns (ns: seq<nat>)
    ensures Ascending(ns) && forall n :: n in ns <==> n in s
  {
    ns := [];
    var todo := s;
    while todo != {}
      invariant todo <= s && Ascending(ns)
      invariant forall n :: n in ns <==> n in s && n !in todo
      invariant forall n, m :: n in ns && m in todo ==> n < m
      decreases |todo|
    {
      var least := Least(todo);
      assert forall i :: 0 <= i < |ns| ==> ns[i] in ns;
      ns := ns + [least];
      todo := todo - {least};
    }
  }
}
