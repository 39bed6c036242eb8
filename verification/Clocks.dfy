/**
 Vector clocks as the store uses them: a map from writer to a 32-bit counter, where a
 missing entry means 0. Two clocks that differ only in zero entries are the same point in
 causal history, so everything here is about the counters, never about which keys are held.
 */
module Clocks {

  const MAX_COUNT: int := 0xFFFF_FFFF

  // A uint32 counter.
  type Count = n: int | 0 <= n <= 0xFFFF_FFFF

  type Clock = map<string, Count>

  datatype Relation = Equal | Before | After | Concurrent

  function At(c: Clock, node: string): Count {
    if node in c then c[node] else 0
  }

  // a is at or below b: every counter of a is at most b's.
  predicate Leq(a: Clock, b: Clock) {
    forall n :: n in a ==> a[n] <= At(b, n)
  }

  predicate Same(a: Clock, b: Clock) {
    Leq(a, b) && Leq(b, a)
  }

  // a is strictly before b.
  predicate Less(a: Clock, b: Clock) {
    Leq(a, b) && !Leq(b, a)
  }

  // The relation the order gives: the reference CompareSnapshots is proved against.
  function Relate(a: Clock, b: Clock): Relation {
    if Leq(a, b) then
      if Leq(b, a) then Equal else Before
    else if Leq(b, a) then After else Concurrent
  }

  // Leq looks only at the keys a holds; a missing entry counts as 0 on either side.
  lemma LeqIsPointwise(a: Clock, b: Clock)
    ensures Leq(a, b) <==> forall n :: At(a, n) <= At(b, n)
  {
    if forall n :: At(a, n) <= At(b, n) {
      forall n | n in a ensures a[n] <= At(b, n) {
        assert At(a, n) <= At(b, n);
      }
    }
  }

  lemma LeqTransitive(a: Clock, b: Clock, c: Clock)
    requires Leq(a, b) && Leq(b, c)
    ensures Leq(a, c)
  {
    forall n | n in a ensures a[n] <= At(c, n) {
      assert a[n] <= At(b, n);
      assert At(b, n) <= At(c, n);
    }
  }

  // Swapping the sides swaps Before and After and nothing else.
  lemma RelateIsAntisymmetric(a: Clock, b: Clock)
    ensures Relate(a, b) == After <==> Relate(b, a) == Before
    ensures Relate(a, b) == Equal <==> Relate(b, a) == Equal
    ensures Relate(a, b) == Concurrent <==> Relate(b, a) == Concurrent
  {
  }

  // The loop over both sides' keys, raising one flag per direction.
  method CompareSnapshots(a: Clock, b: Clock) returns (r: Relation)
    ensures r == Relate(a, b)
  {
    var thisGreater, otherGreater := false, false;
    var todo := a.Keys + b.Keys;
    while todo != {}
      invariant todo <= a.Keys + b.Keys
      invariant thisGreater <==> exists n :: n in a.Keys + b.Keys - todo && At(a, n) > At(b, n)
      invariant otherGreater <==> exists n :: n in a.Keys + b.Keys - todo && At(a, n) < At(b, n)
      decreases |todo|
    {
      var n :| n in todo;
      if At(a, n) > At(b, n) {
        thisGreater := true;
      } else if At(a, n) < At(b, n) {
        otherGreater := true;
      }
      todo := todo - {n};
    }
    FlagsDecide(a, b);
    if thisGreater && !otherGreater {
      r := After;
    } else if !thisGreater && otherGreater {
      r := Before;
    } else if !thisGreater && !otherGreater {
      r := Equal;
    } else {
      r := Concurrent;
    }
  }

  // What the two flags mean: a key of either side where that side is ahead.
  lemma FlagsDecide(a: Clock, b: Clock)
    ensures !Leq(a, b) <==> exists n :: n in a.Keys + b.Keys && At(a, n) > At(b, n)
    ensures !Leq(b, a) <==> exists n :: n in a.Keys + b.Keys && At(a, n) < At(b, n)
  {
    if !Leq(a, b) {
      var n :| n in a && a[n] > At(b, n);
      assert n in a.Keys + b.Keys && At(a, n) > At(b, n);
    }
    if !Leq(b, a) {
      var n :| n in b && b[n] > At(a, n);
      assert n in a.Keys + b.Keys && At(a, n) < At(b, n);
    }
  }

  // vc.state[nodeID]++ on a uint32: the counter wraps at 2^32.
  function Increment(c: Clock, node: string): Clock {
    c[node := (At(c, node) + 1) % (MAX_COUNT + 1)]
  }

  // Seeds a clock from a known history and counts one new event on node's own entry.
  function BuildFromContext(context: Clock, node: string): Clock {
    Increment(context, node)
  }

  // A new event is strictly after its context, exactly when node's counter does not wrap: it is
  // one event of node more, and none of any other.
  lemma BuildFromContextAdvances(context: Clock, node: string)
    ensures Less(context, BuildFromContext(context, node)) <==> At(context, node) < MAX_COUNT
    ensures At(context, node) < MAX_COUNT ==> At(BuildFromContext(context, node), node) == At(context, node) + 1
    ensures forall n :: n != node ==> At(BuildFromContext(context, node), n) == At(context, n)
  {
    var next := BuildFromContext(context, node);
    if At(context, node) < MAX_COUNT {
      assert next[node] == At(context, node) + 1;
      assert node in next && next[node] > At(context, node);
    } else {
      assert node in context && context[node] == MAX_COUNT && next[node] == 0;
    }
  }

  // The clock with its zero entries dropped: one representative per causal point.
  function Normal(c: Clock): Clock {
    map n | n in c && c[n] != 0 :: c[n]
  }

  lemma NormalIsCanonical(a: Clock, b: Clock)
    ensures Same(a, b) <==> Normal(a) == Normal(b)
  {
    if Same(a, b) {
      forall n ensures At(a, n) == At(b, n) {
        LeqIsPointwise(a, b);
        LeqIsPointwise(b, a);
      }
      assert Normal(a) == Normal(b) by {
        forall n ensures n in Normal(a) <==> n in Normal(b) {
          assert At(a, n) == At(b, n);
        }
        forall n | n in Normal(a) ensures Normal(a)[n] == Normal(b)[n] {
          assert At(a, n) == At(b, n);
        }
      }
    }
    if Normal(a) == Normal(b) {
      NormalKeepsCounters(a);
      NormalKeepsCounters(b);
    }
  }

  lemma NormalKeepsCounters(c: Clock)
    ensures forall n :: At(Normal(c), n) == At(c, n)
    ensures Same(c, Normal(c))
  {
  }

  // The pointwise maximum: the least clock at or above both.
  function Join(a: Clock, b: Clock): Clock {
    map n | n in a.Keys + b.Keys :: if At(a, n) >= At(b, n) then At(a, n) else At(b, n)
  }

  lemma JoinIsLeastUpperBound(a: Clock, b: Clock, c: Clock)
    ensures Leq(a, Join(a, b)) && Leq(b, Join(a, b))
    ensures Leq(a, c) && Leq(b, c) ==> Leq(Join(a, b), c)
  {
  }
}
