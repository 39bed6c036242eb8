/**
 Hinted handoff: writes a replica could not take, kept for it under target + separator + key,
 and retired by marker versions whose clock is the join of what was delivered plus a reserved
 entry. What is pending is exactly the maximal added clocks that no delivered join covers.

 The store beneath is any storage engine: after some writes to a key, a read returns a sibling
 set of them that covers them all.
 */
module Hints {
  import opened Clocks
  import opened Versions
  import opened Layers
  import Keys
  import AntiEntropy

  const SEP: char := '\0'
  const DELIVERED: string := [SEP] + "delivered"

  datatype Hint = Hint(key: string, items: seq<Item>)

  // ---------------------------------------------------------------- storage keys

  datatype Split = Split(target: string, key: string) | NoSeparator

  function StorageKey(target: string, key: string): string {
    target + [SEP] + key
  }

  // Cut at the first separator.
  function SplitKey(stored: string): (s: Split) {
    if stored == "" then NoSeparator
    else if stored[0] == SEP then Split("", stored[1..])
    else
      match SplitKey(stored[1..])
      case NoSeparator => NoSeparator
      case Split(target, key) => Split([stored[0]] + target, key)
  }

  // A node's id: not empty, and without the separator.
  predicate ValidTarget(target: string) {
    target != "" && SEP !in target
  }

  /** Splitting undoes storing, for keys that may hold separators themselves. */
  lemma {:induction false} SplitUndoesStore(target: string, key: string)
    requires SEP !in target
    ensures SplitKey(StorageKey(target, key)) == Split(target, key)
  {
    var stored := StorageKey(target, key);
    if target == "" {
      assert stored == [SEP] + key;
    } else {
      SplitUndoesStore(target[1..], key);
      assert stored[1..] == StorageKey(target[1..], key);
      assert [target[0]] + target[1..] == target;
    }
  }

  // And storing undoes splitting.
  lemma {:induction false} StoreUndoesSplit(stored: string)
    requires SplitKey(stored).Split?
    ensures SEP !in SplitKey(stored).target && stored == StorageKey(SplitKey(stored).target, SplitKey(stored).key)
  {
    if stored[0] == SEP {
      assert stored == [SEP] + stored[1..];
    } else {
      StoreUndoesSplit(stored[1..]);
      assert stored == [stored[0]] + stored[1..];
    }
  }

  /** So no two targets or keys share a storage key: what is written for one leaves the reads
      of every other alone. */
  lemma StorageKeysDiffer(target: string, key: string, target': string, key': string)
    requires SEP !in target && SEP !in target' && (target != target' || key != key')
    ensures StorageKey(target, key) != StorageKey(target', key')
  {
    SplitUndoesStore(target, key);
    SplitUndoesStore(target', key');
  }

  // ---------------------------------------------------------------- markers

  predicate IsMarker(x: Item) {
    DELIVERED in x.clock
  }

  // The versions of a read that are hints still to be delivered.
  function Live(items: seq<Item>): seq<Item> {
    if items == [] then []
    else Live(items[..|items| - 1]) + (if IsMarker(items[|items| - 1]) then [] else [items[|items| - 1]])
  }

  lemma {:induction false} LiveMembers(items: seq<Item>)
    ensures forall x :: x in Live(items) <==> x in items && !IsMarker(x)
  {
    if items != [] {
      LiveMembers(items[..|items| - 1]);
      assert items == items[..|items| - 1] + [items[|items| - 1]];
    }
  }

  // What happened to one target and key: a hint added, or a batch marked as delivered.
  datatype Event = Added(item: Item) | Delivered(batch: seq<Item>, marker: Item)

  // The marker is after its batch's join and carries the reserved entry; a hint never does.
  ghost predicate Proper(e: Event) {
    match e
    case Added(item) => !IsMarker(item)
    case Delivered(batch, marker) => IsMarkerOf(marker.clock, UnionClock(batch))
  }

  ghost predicate IsMarkerOf(clock: Clock, join: Clock) {
    DELIVERED in clock && clock[DELIVERED] == 1 && forall n :: n != DELIVERED ==> At(clock, n) == At(join, n)
  }

  function Written(e: Event): Item {
    match e
    case Added(item) => item
    case Delivered(batch, marker) => marker
  }

  function AllWritten(events: seq<Event>): seq<Item> {
    if events == [] then [] else AllWritten(events[..|events| - 1]) + [Written(events[|events| - 1])]
  }

  function AddedItems(events: seq<Event>): seq<Item> {
    if events == [] then []
    else
      var last := events[|events| - 1];
      AddedItems(events[..|events| - 1]) + (if last.Added? then [last.item] else [])
  }

  // Some delivered batch's join is at or after x.
  ghost predicate Retired(x: Item, events: seq<Event>) {
    exists e :: e in events && e.Delivered? && Leq(x.clock, UnionClock(e.batch))
  }

  lemma {:induction false} WrittenMembers(events: seq<Event>)
    ensures forall x :: x in AllWritten(events) <==> exists e :: e in events && Written(e) == x
    ensures forall x :: x in AddedItems(events) <==> Added(x) in events
  {
    if events != [] {
      WrittenMembers(events[..|events| - 1]);
      assert events == events[..|events| - 1] + [events[|events| - 1]];
    }
  }

  // A marker covers a hint exactly when the join does, and no hint covers a marker.
  lemma MarkerCovers(x: Item, marker: Item, join: Clock)
    requires !IsMarker(x) && IsMarkerOf(marker.clock, join)
    ensures Covers(marker, x) <==> Leq(x.clock, join)
    ensures !Covers(x, marker)
  {
    assert marker.clock[DELIVERED] > At(x.clock, DELIVERED);
    if Covers(marker, x) {
      forall n | n in x.clock ensures x.clock[n] <= At(join, n) { }
    }
    if Leq(x.clock, join) {
      forall n | n in x.clock ensures x.clock[n] <= At(marker.clock, n) { }
    }
  }

  // ---------------------------------------------------------------- what is pending

  ghost predicate AllProper(events: seq<Event>) {
    forall e :: e in events ==> Proper(e)
  }

  // The added clocks no added clock is after and no delivered join covers.
  ghost function PendingClocks(events: seq<Event>): set<Clock> {
    set x | x in AddedItems(events) && !Beaten(x, AddedItems(events)) && !Retired(x, events) :: Normal(x.clock)
  }

  // A pending version was added, is maximal, and is not retired.
  lemma LiveIsPending(events: seq<Event>, read: seq<Item>, x: Item)
    requires AllProper(events) && AntiEntropy.Absorbs([], AllWritten(events), read) && x in Live(read)
    ensures x in AddedItems(events) && !Beaten(x, AddedItems(events)) && !Retired(x, events)
  {
    var all := AllWritten(events);
    assert [] + all == all;
    LiveMembers(read);
    WrittenMembers(events);
    assert x in all;
    var e :| e in events && Written(e) == x;
    assert Proper(e) && e.Added?;
    AntichainIsUnbeaten(read, all, x);
    forall y | y in AddedItems(events) ensures !Beats(y, x) {
      assert Written(Added(y)) == y && y in all;
    }
    forall d | d in events && d.Delivered? ensures !Leq(x.clock, UnionClock(d.batch)) {
      assert Proper(d) && Written(d) == d.marker && d.marker in all;
      MarkerCovers(x, d.marker, UnionClock(d.batch));
    }
  }

  // An added version that is maximal and not retired is pending, up to its clock.
  lemma PendingIsLive(events: seq<Event>, read: seq<Item>, x: Item)
    requires AllProper(events) && AntiEntropy.Absorbs([], AllWritten(events), read)
    requires x in AddedItems(events) && !Beaten(x, AddedItems(events)) && !Retired(x, events)
    ensures exists y :: y in Live(read) && Same(x.clock, y.clock)
  {
    var all := AllWritten(events);
    assert [] + all == all;
    LiveMembers(read);
    WrittenMembers(events);
    assert Written(Added(x)) == x && x in all;
    var y :| y in read && Covers(y, x);
    assert y in all;
    var e :| e in events && Written(e) == y;
    assert Proper(e) && Proper(Added(x));
    if e.Delivered? {
      MarkerCovers(x, y, UnionClock(e.batch));
    }
  }

  /** Retirement is exact: after any hints added and any batches marked as delivered, in any
      order, what a read leaves pending is exactly the maximal added clocks that are not at or
      below the join of some delivered batch. */
  lemma PendingIsExact(events: seq<Event>, read: seq<Item>)
    requires AllProper(events) && AntiEntropy.Absorbs([], AllWritten(events), read)
    ensures ClockSet(Live(read)) == PendingClocks(events)
  {
    forall c | c in ClockSet(Live(read)) ensures c in PendingClocks(events) {
      var x :| x in Live(read) && c == Normal(x.clock);
      LiveIsPending(events, read, x);
    }
    forall c | c in PendingClocks(events) ensures c in ClockSet(Live(read)) {
      var x :| x in AddedItems(events) && !Beaten(x, AddedItems(events)) && !Retired(x, events) && c == Normal(x.clock);
      PendingIsLive(events, read, x);
      var y :| y in Live(read) && Same(x.clock, y.clock);
      NormalIsCanonical(x.clock, y.clock);
    }
  }

  /** A hint never displaces a marker: the latest join of every delivered batch stays covered
      by a marker of the read. */
  lemma MarkersStay(events: seq<Event>, read: seq<Item>, e: Event)
    requires AllProper(events) && AntiEntropy.Absorbs([], AllWritten(events), read)
    requires e in events && e.Delivered?
    ensures exists m :: m in read && IsMarker(m) && Covers(m, e.marker)
  {
    var all := AllWritten(events);
    assert [] + all == all;
    WrittenMembers(events);
    assert Written(e) == e.marker && e.marker in all && Proper(e);
    var m :| m in read && Covers(m, e.marker);
    if !IsMarker(m) { MarkerCovers(m, e.marker, UnionClock(e.batch)); }
  }

  // A hint no join covers is still covered by what is pending.
  lemma UnretiredIsPending(events: seq<Event>, read: seq<Item>, x: Item)
    requires AllProper(events) && AntiEntropy.Absorbs([], AllWritten(events), read)
    requires x in AddedItems(events) && !Retired(x, events)
    ensures Covered(x, Live(read))
  {
    var all := AllWritten(events);
    assert [] + all == all;
    LiveMembers(read);
    WrittenMembers(events);
    assert Written(Added(x)) == x && x in all;
    var y :| y in read && Covers(y, x);
    assert y in all;
    var e :| e in events && Written(e) == y;
    assert Proper(e) && Proper(Added(x));
    if e.Delivered? { MarkerCovers(x, y, UnionClock(e.batch)); }
  }

  // x's own event: whoever counts it has seen x. True of every version whose writer's counter
  // was never reused.
  ghost predicate Dotted(x: Item, batch: seq<Item>) {
    exists n :: At(x.clock, n) > 0 && forall y :: y in batch && At(y.clock, n) >= At(x.clock, n) ==> Covers(y, x)
  }

  lemma {:induction false} UnionComesFrom(items: seq<Item>, n: string)
    requires At(UnionClock(items), n) > 0
    ensures exists y :: y in items && At(y.clock, n) == At(UnionClock(items), n)
  {
    var front, last := items[..|items| - 1], items[|items| - 1];
    assert items == front + [last];
    if At(UnionClock(front), n) > At(last.clock, n) {
      UnionComesFrom(front, n);
      var y :| y in front && At(y.clock, n) == At(UnionClock(front), n);
      assert y in items;
    } else {
      assert last in items;
    }
  }

  /** A join retires only what was delivered, for versions with their own event. */
  lemma JoinCoversOnlyDelivered(x: Item, batch: seq<Item>)
    requires Leq(x.clock, UnionClock(batch)) && Dotted(x, batch)
    ensures Covered(x, batch)
  {
    var n :| At(x.clock, n) > 0 && forall y :: y in batch && At(y.clock, n) >= At(x.clock, n) ==> Covers(y, x);
    LeqIsPointwise(x.clock, UnionClock(batch));
    UnionComesFrom(batch, n);
    var y :| y in batch && At(y.clock, n) == At(UnionClock(batch), n);
    assert Covers(y, x);
  }

  lemma UnionOfTwo(a: Item, b: Item)
    ensures Leq(Join(a.clock, b.clock), UnionClock([a, b]))
  {
    var u := UnionClock([a, b]);
    UnionClockIsLeast([a, b], u);
    assert a in [a, b] && b in [a, b];
    JoinIsLeastUpperBound(a.clock, b.clock, u);
  }

  // ---------------------------------------------------------------- the store

  function EventsAt(events: map<string, seq<Event>>, stored: string): seq<Event> {
    if stored in events then events[stored] else []
  }

  // A read of a storage key covers what its events wrote, and holds nothing else.
  ghost predicate Reads(events: map<string, seq<Event>>, data: Layer, stored: string) {
    && AllProper(EventsAt(events, stored))
    && AntiEntropy.Absorbs([], AllWritten(EventsAt(events, stored)), Look(data, stored))
  }

  ghost predicate AllRead(events: map<string, seq<Event>>, data: Layer) {
    forall s :: Reads(events, data, s)
  }

  class Store {
    var data: Layer                            // what a read of the engine returns, by storage key
    ghost var events: map<string, seq<Event>>

    ghost predicate Valid()
      reads this
    {
      AllRead(events, data)
    }

    constructor ()
      ensures Valid() && data == map[] && events == map[]
    {
      data, events := map[], map[];
      new;
      forall s ensures Reads(events, data, s) { AntiEntropy.AbsorbsNothing([]); }
    }

    // One write to the engine, of what the event e puts there.
    method Put(stored: string, item: Item, ghost e: Event)
      requires Valid() && Proper(e) && Written(e) == item
      modifies this
      ensures Valid() && events == old(events)[stored := EventsAt(old(events), stored) + [e]]
      ensures forall s :: s != stored ==> Look(data, s) == Look(old(data), s)
    {
      ghost var before := data;
      data := PutLayer(data, stored, item);
      PutKeepsReads(events, before, stored, item, e, events[stored := EventsAt(events, stored) + [e]], data);
      events := events[stored := EventsAt(events, stored) + [e]];
    }

    /** Refuses a target that is no node id and an item that carries the marker entry. */
    method Add(target: string, key: string, item: Item) returns (ok: bool)
      requires Valid()
      modifies this
      ensures Valid() && (ok <==> ValidTarget(target) && !IsMarker(item))
      ensures ok <==> target != "" && SEP !in target && DELIVERED !in item.clock
      ensures !ok ==> data == old(data) && events == old(events)
      ensures ok ==> events == old(events)[StorageKey(target, key) := EventsAt(old(events), StorageKey(target, key)) + [Added(item)]]
      ensures forall s :: s != StorageKey(target, key) ==> Look(data, s) == Look(old(data), s)
    {
      if target == "" || SEP in target { return false; }
      if IsMarker(item) { return false; }
      Put(StorageKey(target, key), item, Added(item));
      ok := true;
    }

    // The marker is a new object: `ref` is its identity.
    method MarkDelivered(target: string, key: string, delivered: seq<Item>, ref: nat)
      requires Valid()
      modifies this
      ensures Valid()
      ensures delivered == [] ==> data == old(data) && events == old(events)
      ensures delivered != [] ==>
                exists marker :: events == old(events)[StorageKey(target, key) :=
                  EventsAt(old(events), StorageKey(target, key)) + [Delivered(delivered, marker)]]
      ensures forall s :: s != StorageKey(target, key) ==> Look(data, s) == Look(old(data), s)
    {
      if |delivered| == 0 { return; }
      var clock := UnionVectorClock(delivered);
      ghost var join := clock;
      clock := clock[DELIVERED := 1];
      LeqIsPointwise(join, UnionClock(delivered));
      LeqIsPointwise(UnionClock(delivered), join);
      var marker := Item(ref, clock, "", DELIVERED, true);
      Put(StorageKey(target, key), marker, Delivered(delivered, marker));
    }

    /** The target's hints, one entry per key that has any, in storage-key order, none for a
        name that is no target's; by PendingIsExact, an entry's clocks are the key's pending
        clocks. */
    method Pending(target: string) returns (pending: seq<Hint>)
      ensures SEP in target ==> pending == []
      ensures forall h :: h in pending ==> h.items == Live(Look(data, StorageKey(target, h.key))) != []
      ensures forall key :: SEP !in target && Live(Look(data, StorageKey(target, key))) != [] ==>
                Hint(key, Live(Look(data, StorageKey(target, key)))) in pending
      ensures forall i, j :: 0 <= i < j < |pending| ==>
                Keys.Less(StorageKey(target, pending[i].key), StorageKey(target, pending[j].key))
    {
      var keys := Keys.Sorted(data.Keys);
      pending := [];
      for i := 0 to |keys|
        invariant pending == PendingOf(data, target, keys[..i])
      {
        assert keys[..i + 1][..i] == keys[..i];
        assert keys[i] in Keys.Elements(keys);
        var split := SplitKey(keys[i]);
        if split == NoSeparator || split.target != target { continue; }
        var live := LiveItems(Look(data, keys[i]));
        if |live| > 0 {
          pending := pending + [Hint(split.key, live)];
        }
      }
      assert keys[..|keys|] == keys;
      if SEP in target {
        NoTargetPending(data, target, keys);
      } else {
        PendingListed(data, target, keys);
      }
    }
  }

  // Writes of node s after a version of p, one of q, and both: none of those counts an event of
  // s, so each write counts s's first.
  const FROM_P := Item(0, map["p" := 1, "s" := 1], "", "s", false)
  const FROM_Q := Item(1, map["q" := 1, "s" := 1], "", "s", false)
  const FROM_BOTH := Item(2, map["p" := 1, "q" := 1, "s" := 1], "", "s", false)

  lemma OnlyTheJoinCovers()
    ensures !Covers(FROM_P, FROM_BOTH) && !Covers(FROM_Q, FROM_BOTH)
    ensures Leq(FROM_BOTH.clock, UnionClock([FROM_P, FROM_Q]))
  {
    UnionOfTwo(FROM_P, FROM_Q);
    assert Join(FROM_P.clock, FROM_Q.clock) == FROM_BOTH.clock;
    assert "q" in FROM_BOTH.clock && FROM_BOTH.clock["q"] > At(FROM_P.clock, "q");
    assert "p" in FROM_BOTH.clock && FROM_BOTH.clock["p"] > At(FROM_Q.clock, "p");
  }

  // The three hints, and the first two marked.
  ghost predicate ThreeAdded(es: seq<Event>) {
    es == [] + [Added(FROM_P)] + [Added(FROM_Q)] + [Added(FROM_BOTH)]
  }

  lemma ThreeArePending(es: seq<Event>, read: seq<Item>)
    requires ThreeAdded(es) && AllProper(es) && AntiEntropy.Absorbs([], AllWritten(es), read)
    ensures Covered(FROM_BOTH, Live(read))
  {
    assert es[0] == Added(FROM_P) && es[1] == Added(FROM_Q) && es[2] == Added(FROM_BOTH);
    WrittenMembers(es);
    assert Added(FROM_BOTH) in es;
    UnretiredIsPending(es, read, FROM_BOTH);
  }

  lemma NoneIsPending(es: seq<Event>, marker: Item, read: seq<Item>)
    requires ThreeAdded(es) && var all := es + [Delivered([FROM_P, FROM_Q], marker)];
             AllProper(all) && AntiEntropy.Absorbs([], AllWritten(all), read)
    ensures Live(read) == []
  {
    var all := es + [Delivered([FROM_P, FROM_Q], marker)];
    ThreeAreRetired(es, Delivered([FROM_P, FROM_Q], marker), all);
    if Live(read) != [] { LiveIsPending(all, read, Live(read)[0]); }
  }

  lemma ThreeAreRetired(es: seq<Event>, e: Event, all: seq<Event>)
    requires ThreeAdded(es) && e.Delivered? && e.batch == [FROM_P, FROM_Q] && all == es + [e]
    ensures forall x :: x in AddedItems(all) ==> Retired(x, all)
  {
    var join := UnionClock(e.batch);
    assert Leq(FROM_P.clock, join) && Leq(FROM_Q.clock, join) && Leq(FROM_BOTH.clock, join) by {
      OnlyTheJoinCovers();
      UnionClockIsLeast(e.batch, join);
      assert FROM_P in e.batch && FROM_Q in e.batch;
    }
    WrittenMembers(all);
    forall x | x in AddedItems(all) ensures Retired(x, all) {
      assert Added(x) in all && e in all;
      assert x == FROM_P || x == FROM_Q || x == FROM_BOTH;
    }
  }

  /** Without it the join retires more than was delivered: of three hints the first two are marked
      as delivered; neither covers the third, which was pending, and then nothing is. */
  method JoinRetiresUndelivered(target: string, key: string) returns (x: Item, a: Item, b: Item, before: seq<Hint>, after: seq<Hint>)
    requires ValidTarget(target)
    ensures !Covers(a, x) && !Covers(b, x)
    ensures exists h :: h in before && h.key == key && Covered(x, h.items)
    ensures forall h :: h in after ==> h.key != key
  {
    a, b, x := FROM_P, FROM_Q, FROM_BOTH;
    ghost var stored := StorageKey(target, key);
    var s := new Store();
    var ok := s.Add(target, key, a);
    ok := s.Add(target, key, b);
    ok := s.Add(target, key, x);
    ghost var es := EventsAt(s.events, stored);
    before := s.Pending(target);
    assert Reads(s.events, s.data, stored);
    ThreeArePending(es, Look(s.data, stored));
    assert Hint(key, Live(Look(s.data, stored))) in before;
    s.MarkDelivered(target, key, [a, b], 3);
    after := s.Pending(target);
    OnlyTheJoinCovers();
    ghost var marker :| EventsAt(s.events, stored) == es + [Delivered([a, b], marker)];
    assert Reads(s.events, s.data, stored);
    NoneIsPending(es, marker, Look(s.data, stored));
  }

  method LiveItems(items: seq<Item>) returns (live: seq<Item>)
    ensures live == Live(items)
  {
    live := [];
    for i := 0 to |items|
      invariant live == Live(items[..i])
    {
      assert items[..i + 1][..i] == items[..i];
      if !IsMarker(items[i]) { live := live + [items[i]]; }
    }
    assert items[..|items|] == items;
  }

  lemma PutKeepsReads(events: map<string, seq<Event>>, data: Layer, stored: string, item: Item, e: Event,
                      events': map<string, seq<Event>>, data': Layer)
    requires AllRead(events, data) && Proper(e) && Written(e) == item
    requires events' == events[stored := EventsAt(events, stored) + [e]] && data' == PutLayer(data, stored, item)
    ensures AllRead(events', data')
  {
    forall s ensures Reads(events', data', s) {
      assert Reads(events, data, s);
      if s == stored {
        PutReads(EventsAt(events, s), e, Look(data, s), item);
      } else {
        OtherReads(EventsAt(events, s), Look(data, s), EventsAt(events', s), Look(data', s));
      }
    }
  }

  lemma PutReads(before: seq<Event>, e: Event, held: seq<Item>, item: Item)
    requires AllProper(before) && Proper(e) && Written(e) == item && AntiEntropy.Absorbs([], AllWritten(before), held)
    ensures AllProper(before + [e]) && AntiEntropy.Absorbs([], AllWritten(before + [e]), PutItems(held, item))
  {
    PutItemsAntichain(held, item);
    PutItemsMembers(held, item);
    UnbeatenMembers(held, [item]);
    forall y ensures Covered(y, held + [item]) ==> Covered(y, PutItems(held, item)) { PutItemsCovers(held, item, y); }
    AntiEntropy.AbsorbsOne(held, item, PutItems(held, item));
    EventAdded(before, e, held, PutItems(held, item));
  }

  lemma OtherReads(before: seq<Event>, held: seq<Item>, events: seq<Event>, items: seq<Item>)
    requires AllProper(before) && AntiEntropy.Absorbs([], AllWritten(before), held) && events == before && items == held
    ensures AllProper(events) && AntiEntropy.Absorbs([], AllWritten(events), items)
  {
  }

  lemma EventAdded(before: seq<Event>, e: Event, held: seq<Item>, now: seq<Item>)
    requires AllProper(before) && Proper(e)
    requires AntiEntropy.Absorbs([], AllWritten(before), held) && AntiEntropy.Absorbs(held, [Written(e)], now)
    ensures AllProper(before + [e]) && AntiEntropy.Absorbs([], AllWritten(before + [e]), now)
  {
    assert (before + [e])[..|before|] == before;
    AntiEntropy.AbsorbsMore([], AllWritten(before), held, [Written(e)], now);
  }

  // Pending's loop, as a function of the keys gone through.
  function PendingOf(data: Layer, target: string, keys: seq<string>): seq<Hint> {
    if keys == [] then []
    else
      var stored := keys[|keys| - 1];
      var before := PendingOf(data, target, keys[..|keys| - 1]);
      if SplitKey(stored) == NoSeparator || SplitKey(stored).target != target || Live(Look(data, stored)) == [] then before
      else before + [Hint(SplitKey(stored).key, Live(Look(data, stored)))]
  }

  lemma {:induction false} PendingOfFacts(data: Layer, target: string, keys: seq<string>)
    requires SEP !in target && Keys.Ascending(keys)
    ensures forall h :: h in PendingOf(data, target, keys) <==>
              StorageKey(target, h.key) in keys && h.items == Live(Look(data, StorageKey(target, h.key))) != []
    ensures forall i, j :: 0 <= i < j < |PendingOf(data, target, keys)| ==>
              Keys.Less(StorageKey(target, PendingOf(data, target, keys)[i].key), StorageKey(target, PendingOf(data, target, keys)[j].key))
  {
    if keys != [] {
      var front, stored := keys[..|keys| - 1], keys[|keys| - 1];
      PendingOfFacts(data, target, front);
      assert keys == front + [stored];
      var before := PendingOf(data, target, front);
      if SplitKey(stored).Split? { StoreUndoesSplit(stored); }
      forall key ensures StorageKey(target, key) == stored ==> SplitKey(stored) == Split(target, key) {
        SplitUndoesStore(target, key);
      }
      assert forall i :: 0 <= i < |before| ==> before[i] in before;
    }
  }

  // A name with a separator in it is no target's.
  lemma {:induction false} NoTargetPending(data: Layer, target: string, keys: seq<string>)
    requires SEP in target
    ensures PendingOf(data, target, keys) == []
  {
    if keys != [] {
      NoTargetPending(data, target, keys[..|keys| - 1]);
      if SplitKey(keys[|keys| - 1]).Split? { StoreUndoesSplit(keys[|keys| - 1]); }
    }
  }

  lemma PendingListed(data: Layer, target: string, keys: seq<string>)
    requires SEP !in target && Keys.Ascending(keys) && Keys.Elements(keys) == data.Keys
    ensures forall h :: h in PendingOf(data, target, keys) ==> h.items == Live(Look(data, StorageKey(target, h.key))) != []
    ensures forall key :: Live(Look(data, StorageKey(target, key))) != [] ==>
              Hint(key, Live(Look(data, StorageKey(target, key)))) in PendingOf(data, target, keys)
    ensures forall i, j :: 0 <= i < j < |PendingOf(data, target, keys)| ==>
              Keys.Less(StorageKey(target, PendingOf(data, target, keys)[i].key), StorageKey(target, PendingOf(data, target, keys)[j].key))
  {
    PendingOfFacts(data, target, keys);
    forall key | Live(Look(data, StorageKey(target, key))) != []
      ensures Hint(key, Live(Look(data, StorageKey(target, key)))) in PendingOf(data, target, keys)
    {
      assert StorageKey(target, key) in data.Keys;
      assert StorageKey(target, key) in Keys.Elements(keys);
    }
  }
}
