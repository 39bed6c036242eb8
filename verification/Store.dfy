/**
 A store's own writes. A Put without a context reads the key, versions the new item after the
 join of everything it read, and persists it, all under the key's lock. However the earlier
 siblings are spread over the memtables and SSTables, and whatever the engine does meanwhile,
 the new item is then the key's only version.
 */
module Store {
  import opened Wrappers
  import opened Clocks
  import opened Versions
  import opened Engine
  import opened EngineRefinement
  import opened EngineReads

  // ---------------------------------------------------------------- the new version's clock

  lemma BuildRespectsSame(a: Clock, b: Clock, node: string)
    requires Same(a, b)
    ensures Same(BuildFromContext(a, node), BuildFromContext(b, node))
  {
    LeqIsPointwise(a, b);
    LeqIsPointwise(b, a);
    LeqIsPointwise(BuildFromContext(a, node), BuildFromContext(b, node));
    LeqIsPointwise(BuildFromContext(b, node), BuildFromContext(a, node));
  }

  /** The clock of a Put or Delete: one event after the caller's context or, without one, after
      the join of every version stored. */
  method NewClock(existing: seq<Item>, context: Option<Clock>, clockID: string) returns (clock: Clock)
    ensures context.Some? ==> clock == BuildFromContext(context.value, clockID)
    ensures context.None? ==> Same(clock, BuildFromContext(UnionClock(existing), clockID))
    ensures context.None? && At(UnionClock(existing), clockID) < MAX_COUNT ==>
              forall y :: y in existing ==> Less(y.clock, clock)
  {
    var base: Clock;
    match context {
      case Some(given) => base := given;
      case None =>
        base := UnionVectorClock(existing);
        BuildRespectsSame(base, UnionClock(existing), clockID);
    }
    clock := BuildFromContext(base, clockID);
    if context.None? && At(UnionClock(existing), clockID) < MAX_COUNT {
      forall y | y in existing ensures Less(y.clock, clock) {
        AfterEverythingRead(existing, clockID, clock, y);
      }
    }
  }

  lemma AfterEverythingRead(existing: seq<Item>, node: string, clock: Clock, y: Item)
    requires Same(clock, BuildFromContext(UnionClock(existing), node))
    requires At(UnionClock(existing), node) < MAX_COUNT && Covered(y, existing)
    ensures Less(y.clock, clock)
  {
    var u := UnionClock(existing);
    var next := BuildFromContext(u, node);
    BuildFromContextAdvances(u, node);
    UnionClockIsLeast(existing, u);
    var x :| x in existing && Covers(x, y);
    LeqTransitive(y.clock, x.clock, u);
    LeqTransitive(y.clock, u, next);
    LeqTransitive(y.clock, next, clock);
    if Leq(clock, y.clock) {
      LeqTransitive(clock, y.clock, u);
      LeqTransitive(next, clock, u);
    }
  }

  // ---------------------------------------------------------------- what it supersedes

  // A sibling set of the old versions and one strictly after them all is that one.
  lemma NewestIsAlone(read: seq<Item>, earlier: seq<Item>, item: Item)
    requires Antichain(read) && Subset(read, earlier + [item]) && CoversAll(read, earlier + [item])
    requires forall y :: y in earlier ==> Beats(item, y)
    ensures read == [item]
  {
    assert item in earlier + [item];
    var x :| x in read && Covers(x, item);
    assert x == item by { assert x in earlier + [item]; }
    var i :| 0 <= i < |read| && read[i] == item;
    forall j | 0 <= j < |read| ensures Covers(read[i], read[j]) {
      assert read[j] in earlier + [item];
    }
    var j := if i == 0 then |read| - 1 else 0;
    assert Covers(read[i], read[j]);
  }

  // With a wrapped counter the new clock misses the version that holds the counter.
  lemma WrappedMissesOne(existing: seq<Item>, node: string, clock: Clock)
    requires Same(clock, BuildFromContext(UnionClock(existing), node))
    requires At(UnionClock(existing), node) == MAX_COUNT
    ensures exists y :: y in existing && !Leq(y.clock, clock)
  {
    var u := UnionClock(existing);
    LeqIsPointwise(clock, BuildFromContext(u, node));
    assert At(clock, node) < At(u, node);
    LeqIsPointwise(u, clock);
    UnionClockIsLeast(existing, clock);
  }

  // A Put of item under key: it read at r, held the key's lock from then on, and its write is
  // the key's only one in the batch committed at step c.
  ghost predicate PutsWithoutContext(states: seq<State>, steps: seq<Step>, r: Read, c: nat,
                                     key: string, item: Item, clockID: string)
    requires Reachable(states, r)
  {
    && |states| == |steps| + 1 && r.start <= r.flushing <= c < |steps|
    && Puts(Recorded(steps[..c]), key) == Puts(Recorded(steps[..r.start]), key)
    && steps[c].Commit? && Puts(steps[c].batch, key) == [item]
    && Same(item.clock, BuildFromContext(UnionClock(Result(states, r, key)), clockID))
  }

  // No other write of key from step c to state i.
  ghost predicate Untouched(steps: seq<Step>, c: nat, i: nat, key: string) {
    c + 1 <= i <= |steps| && Puts(Recorded(steps[..i]), key) == Puts(Recorded(steps[..c + 1]), key)
  }

  lemma CommitAddsOne(states: seq<State>, steps: seq<Step>, c: nat, key: string, item: Item)
    requires PutOnlyRun(states, steps) && c < |steps| && steps[c].Commit? && Puts(steps[c].batch, key) == [item]
    ensures Puts(Recorded(steps[..c + 1]), key) == Puts(Recorded(steps[..c]), key) + [item]
  {
    assert steps[..c + 1][..c] == steps[..c] && steps[..c + 1][c] == steps[c];
    PutsConcat(Recorded(steps[..c]), steps[c].batch, key);
  }

  lemma UntouchedBetween(states: seq<State>, steps: seq<Step>, c: nat, i: nat, j: nat, key: string)
    requires Run(states, steps) && c < i <= j && Untouched(steps, c, j, key)
    ensures Untouched(steps, c, i, key)
  {
    HistoryIsPrefix(states, steps, c + 1, i);
    HistoryIsPrefix(states, steps, i, j);
    HistoryIsRecorded(states, steps, c + 1);
    HistoryIsRecorded(states, steps, i);
    HistoryIsRecorded(states, steps, j);
    var a, b, z := Recorded(steps[..c + 1]), Recorded(steps[..i]), Recorded(steps[..j]);
    PutsBetween(a, b, z, key);
  }

  lemma PutsBetween(a: seq<Write>, b: seq<Write>, z: seq<Write>, key: string)
    requires a <= b <= z && Puts(z, key) == Puts(a, key)
    ensures Puts(b, key) == Puts(a, key)
  {
    assert b == a + b[|a|..] && z == b + z[|b|..];
    PutsConcat(a, b[|a|..], key);
    PutsConcat(b, z[|b|..], key);
  }

  /** A Put without a context supersedes everything the key held, in every layer, exactly when
      the writer's counter has room (or there was nothing to supersede): any later read, even
      one that overlaps other steps or follows a crash, returns that item alone. */
  lemma NilContextPutSupersedes(states: seq<State>, steps: seq<Step>, r: Read, c: nat,
                                key: string, item: Item, clockID: string, later: Read)
    requires PutOnlyRun(states, steps) && Happens(states, steps, r) && Reachable(states, r)
    requires PutsWithoutContext(states, steps, r, c, key, item, clockID)
    requires Happens(states, steps, later) && c < later.start && Untouched(steps, c, later.flushing, key)
    ensures Reachable(states, later)
    ensures Result(states, later, key) == [item] <==>
            At(UnionClock(Result(states, r, key)), clockID) < MAX_COUNT
  {
    var earlier, existing := Puts(Recorded(steps[..c]), key), Result(states, r, key);
    ReadsMissNothing(states, steps, r, key);
    ReadsMissNothing(states, steps, later, key);
    CommitAddsOne(states, steps, c, key, item);
    UntouchedBetween(states, steps, c, later.start, later.flushing, key);
    if At(UnionClock(existing), clockID) < MAX_COUNT {
      BeatsEverythingRead(existing, earlier, clockID, item);
      NewestIsAlone(Result(states, later, key), earlier, item);
    } else {
      WrappedMissesOne(existing, clockID, item.clock);
      var y :| y in existing && !Leq(y.clock, item.clock);
      HistoryIsPrefix(states, steps, r.flushing, c);
      HistoryIsRecorded(states, steps, r.flushing);
      HistoryIsRecorded(states, steps, c);
      PutsOfPrefix(states[r.flushing].history, states[c].history, key, y);
      NotAlone(Result(states, later, key), earlier, item, y);
    }
  }

  lemma BeatsEverythingRead(existing: seq<Item>, earlier: seq<Item>, clockID: string, item: Item)
    requires Same(item.clock, BuildFromContext(UnionClock(existing), clockID)) && CoversAll(existing, earlier)
    requires At(UnionClock(existing), clockID) < MAX_COUNT
    ensures forall y :: y in earlier ==> Beats(item, y)
  {
    forall y | y in earlier ensures Beats(item, y) { AfterEverythingRead(existing, clockID, item.clock, y); }
  }

  lemma NotAlone(read: seq<Item>, earlier: seq<Item>, item: Item, y: Item)
    requires CoversAll(read, earlier + [item]) && y in earlier && !Leq(y.clock, item.clock)
    ensures read != [item]
  {
    assert y in earlier + [item] && Covered(y, read) && !Covered(y, [item]);
  }
}
