/**
 A log as a sequence of framed records, whatever the frames look like: what a file cut short
 anywhere, or cut back and written to again, holds. The write-ahead log's records are one
 such format.
 */
module Framing {
  import opened Sequences

  // The first record of a file, if it is whole and sound; Unknown is one a newer version wrote.
  datatype First<E> = Entry(entry: E, end: nat) | Torn | Unknown

  // The entries a record can hold, its bytes, and how a file's first record is read.
  datatype Format<!E, !B> = Format(fits: E -> bool, write: E -> seq<B>, read: seq<B> -> First<E>)

  // Reading a written record gives the entry, whatever follows it.
  ghost predicate ReadsBack<E, B>(f: Format<E, B>, e: E, tail: seq<B>) {
    f.fits(e) ==> f.read(f.write(e) + tail) == Entry(e, |f.write(e)|)
  }

  // A record cut short reads as torn.
  ghost predicate CutIsTorn<E, B>(f: Format<E, B>, e: E, n: nat) {
    f.fits(e) && n < |f.write(e)| ==> f.read(f.write(e)[..n]) == Torn
  }

  // A file that begins with the whole first record of a has the same first record.
  ghost predicate ReadIsLocal<E, B>(f: Format<E, B>, a: seq<B>, b: seq<B>) {
    var first := f.read(a);
    first.Entry? ==>
      0 < first.end <= |a| && (first.end <= |b| && a[..first.end] == b[..first.end] ==> f.read(b) == first)
  }

  ghost predicate Framed<E(!new), B(!new)>(f: Format<E, B>) {
    && f.read([]) == Torn
    && (forall e, tail :: ReadsBack(f, e, tail))
    && (forall e, n :: CutIsTorn(f, e, n))
    && (forall a, b :: ReadIsLocal(f, a, b))
  }

  ghost predicate AllFit<E, B>(f: Format<E, B>, es: seq<E>) {
    forall e :: e in es ==> f.fits(e)
  }

  function Records<E, B>(f: Format<E, B>, es: seq<E>): seq<B> {
    if es == [] then [] else f.write(es[0]) + Records(f, es[1..])
  }

  lemma {:induction false} RecordsConcat<E, B>(f: Format<E, B>, a: seq<E>, b: seq<E>)
    ensures Records(f, a + b) == Records(f, a) + Records(f, b)
  {
    if a == [] {
      assert a + b == b;
    } else {
      RecordsConcat(f, a[1..], b);
      assert (a + b)[1..] == a[1..] + b;
    }
  }

  lemma RecordsAppend<E, B>(f: Format<E, B>, es: seq<E>, e: E)
    ensures Records(f, es + [e]) == Records(f, es) + f.write(e)
  {
    RecordsConcat(f, es, [e]);
    assert Records(f, [e]) == f.write(e) + Records(f, []);
  }

  // ---------------------------------------------------------------- what a file holds

  // The entries up to the first record that is not whole and sound, where they end, and
  // whether that record is an unknown one.
  datatype Parsed<E> = Parsed(entries: seq<E>, end: nat, unknown: bool)

  // What is parsed after some entries that end at `at`.
  function Then<E>(entries: seq<E>, at: nat, p: Parsed<E>): Parsed<E> {
    Parsed(entries + p.entries, at + p.end, p.unknown)
  }

  lemma ThenThen<E>(a: seq<E>, at: nat, b: seq<E>, more: nat, p: Parsed<E>)
    ensures Then(a, at, Then(b, more, p)) == Then(a + b, at + more, p)
  {
    assert a + (b + p.entries) == a + b + p.entries;
  }

  // (A frame is never empty: a reader that said so would be read as torn.)
  function Parse<E, B>(f: Format<E, B>, file: seq<B>): (p: Parsed<E>)
    ensures p.end <= |file|
    decreases |file|
  {
    match f.read(file)
    case Torn => Parsed([], 0, false)
    case Unknown => Parsed([], 0, true)
    case Entry(e, end) =>
      if 0 < end <= |file| then Then([e], end, Parse(f, file[end..])) else Parsed([], 0, false)
  }

  lemma ParseRecord<E(!new), B(!new)>(f: Format<E, B>, e: E, tail: seq<B>)
    requires Framed(f) && f.fits(e)
    ensures Parse(f, f.write(e) + tail) == Then([e], |f.write(e)|, Parse(f, tail))
  {
    var file := f.write(e) + tail;
    assert ReadsBack(f, e, tail) && ReadIsLocal(f, file, file);
    assert file[|f.write(e)|..] == tail;
  }

  lemma {:induction false} ParseRecords<E(!new), B(!new)>(f: Format<E, B>, es: seq<E>, tail: seq<B>)
    requires Framed(f) && AllFit(f, es)
    ensures Parse(f, Records(f, es) + tail) == Then(es, |Records(f, es)|, Parse(f, tail))
  {
    if es == [] {
      assert Records(f, es) + tail == tail;
    } else {
      var record, more := f.write(es[0]), Records(f, es[1..]);
      ParseRecords(f, es[1..], tail);
      ParseRecord(f, es[0], more + tail);
      ConcatAssociates(record, more, tail);
      ThenThen([es[0]], |record|, es[1..], |more|, Parse(f, tail));
      assert es == [es[0]] + es[1..];
    }
  }

  // ---------------------------------------------------------------- a write cut short

  // How many of the batch's records lie wholly inside its first n bytes.
  function WholeRecords<E, B>(f: Format<E, B>, batch: seq<E>, n: nat): (k: nat)
    ensures k <= |batch|
  {
    if batch == [] || n < |f.write(batch[0])| then 0
    else 1 + WholeRecords(f, batch[1..], n - |f.write(batch[0])|)
  }

  // It is the most records n bytes can hold, and they are the batch's first bytes.
  lemma {:induction false} WholeRecordsIsMost<E, B>(f: Format<E, B>, batch: seq<E>, n: nat)
    ensures var k := WholeRecords(f, batch, n);
            && |Records(f, batch[..k])| <= n
            && (k < |batch| ==> n < |Records(f, batch[..k])| + |f.write(batch[k])|)
  {
    if batch == [] || n < |f.write(batch[0])| {
      assert batch[..0] == [];
    } else {
      var rest := batch[1..];
      var k := WholeRecords(f, rest, n - |f.write(batch[0])|);
      WholeRecordsIsMost(f, rest, n - |f.write(batch[0])|);
      assert batch[..k + 1] == [batch[0]] + rest[..k];
      assert batch[..k + 1][1..] == rest[..k];
    }
  }

  // A batch cut at byte n is its whole records, then something that reads as nothing.
  lemma CutBatch<E(!new), B(!new)>(f: Format<E, B>, batch: seq<E>, n: nat) returns (cut: seq<B>)
    requires Framed(f) && AllFit(f, batch) && n <= |Records(f, batch)|
    ensures Records(f, batch)[..n] == Records(f, batch[..WholeRecords(f, batch, n)]) + cut
    ensures f.read(cut) == Torn
  {
    var k := WholeRecords(f, batch, n);
    var whole, later := Records(f, batch[..k]), Records(f, batch[k..]);
    WholeRecordsIsMost(f, batch, n);
    assert batch == batch[..k] + batch[k..];
    RecordsConcat(f, batch[..k], batch[k..]);
    var m := n - |whole|;
    cut := later[..m];
    assert Records(f, batch)[..n] == whole + cut;
    if k < |batch| {
      assert CutIsTorn(f, batch[k], m);
      assert cut == f.write(batch[k])[..m];
    } else {
      assert cut == [];
    }
  }

  /** Torn-tail round trip: after any records, a write cut at any byte reads back as exactly
      the records it completed, and the valid part ends where they end. */
  lemma TornBatch<E(!new), B(!new)>(f: Format<E, B>, es: seq<E>, batch: seq<E>, n: nat)
    requires Framed(f) && AllFit(f, es + batch) && n <= |Records(f, batch)|
    ensures var kept := es + batch[..WholeRecords(f, batch, n)];
            Parse(f, Records(f, es) + Records(f, batch)[..n]) == Parsed(kept, |Records(f, kept)|, false)
  {
    assert forall e :: e in batch ==> e in es + batch;
    var whole := batch[..WholeRecords(f, batch, n)];
    var cut := CutBatch(f, batch, n);
    RecordsConcat(f, es, whole);
    ConcatAssociates(Records(f, es), Records(f, whole), cut);
    assert forall e :: e in es + whole ==> e in es + batch;
    ParseRecords(f, es + whole, cut);
  }

  // ---------------------------------------------------------------- cut back, written again

  // A file with its torn tail cut off, and something written after that.
  function Rewritten<B>(file: seq<B>, end: nat, tail: seq<B>): seq<B>
    requires end <= |file|
  {
    file[..end] + tail
  }

  /** Whatever a file held, its valid part followed by anything parses as its entries followed
      by what that is: a file cut back to its valid part can be written to again. */
  lemma {:induction false} ValidPartExtends<E(!new), B(!new)>(f: Format<E, B>, file: seq<B>, tail: seq<B>, p: Parsed<E>)
    requires Framed(f) && p == Parse(f, file)
    ensures Parse(f, Rewritten(file, p.end, tail)) == Then(p.entries, p.end, Parse(f, tail))
    decreases |file|
  {
    var first := f.read(file);
    assert ReadIsLocal(f, file, file);
    if first.Entry? {
      var rest := file[first.end..];
      ValidPartExtends(f, rest, tail, Parse(f, rest));
      ExtendsByOne(f, file, tail, first.entry, first.end, Parse(f, rest));
    } else {
      assert Rewritten(file, 0, tail) == tail;
    }
  }

  lemma ExtendsByOne<E(!new), B(!new)>(f: Format<E, B>, file: seq<B>, tail: seq<B>, e: E, end: nat, p: Parsed<E>)
    requires Framed(f) && f.read(file) == Entry(e, end) && 0 < end && p.end <= |file| - end
    requires Parse(f, Rewritten(file[end..], p.end, tail)) == Then(p.entries, p.end, Parse(f, tail))
    ensures Parse(f, Rewritten(file, end + p.end, tail)) == Then([e] + p.entries, end + p.end, Parse(f, tail))
  {
    var longer := Rewritten(file, end + p.end, tail);
    assert longer[end..] == Rewritten(file[end..], p.end, tail);
    assert longer[..end] == file[..end];
    assert ReadIsLocal(f, file, longer);
    ThenThen([e], end, p.entries, p.end, Parse(f, tail));
  }

  /** Cutting a file back to its valid part changes nothing it holds, and a record written
      after that is read after what was kept, for any bytes at all. */
  lemma AppendAfterReplay<E(!new), B(!new)>(f: Format<E, B>, file: seq<B>, e: E)
    requires Framed(f) && f.fits(e)
    ensures var p := Parse(f, file);
            && Parse(f, file[..p.end]) == Parsed(p.entries, p.end, false)
            && Parse(f, file[..p.end] + f.write(e)) == Parsed(p.entries + [e], p.end + |f.write(e)|, false)
  {
    var p, record := Parse(f, file), f.write(e);
    ValidPartExtends(f, file, [], p);
    assert Rewritten(file, p.end, []) == file[..p.end];
    assert Then(p.entries, p.end, Parsed([], 0, false)) == Parsed(p.entries, p.end, false);
    ValidPartExtends(f, file, record, p);
    ParseOne(f, e);
  }

  lemma ParseOne<E(!new), B(!new)>(f: Format<E, B>, e: E)
    requires Framed(f) && f.fits(e)
    ensures Parse(f, f.write(e)) == Parsed([e], |f.write(e)|, false)
  {
    ParseRecord(f, e, []);
    assert f.write(e) + [] == f.write(e);
  }

  // ---------------------------------------------------------------- reading a file

  lemma ParseGoesOn<E, B>(f: Format<E, B>, file: seq<B>, found: seq<E>, at: nat, e: E, end: nat)
    requires at <= |file| && f.read(file[at..]) == Entry(e, end) && 0 < end <= |file| - at
    ensures Then(found, at, Parse(f, file[at..])) == Then(found + [e], at + end, Parse(f, file[at + end..]))
  {
    assert file[at..][end..] == file[at + end..];
    ThenThen(found, at, [e], end, Parse(f, file[at + end..]));
  }

  lemma ParseStops<E, B>(f: Format<E, B>, file: seq<B>, found: seq<E>, at: nat)
    requires at <= |file| && !(f.read(file[at..]).Entry? && 0 < f.read(file[at..]).end <= |file| - at)
    ensures Then(found, at, Parse(f, file[at..])) == Parsed(found, at, f.read(file[at..]).Unknown?)
  {
    assert found + [] == found;
  }

  lemma ParseStarts<E, B>(f: Format<E, B>, file: seq<B>)
    ensures Parse(f, file) == Then([], 0, Parse(f, file[0..]))
  {
    assert file[0..] == file;
    assert [] + Parse(f, file).entries == Parse(f, file).entries;
  }

  // Replay's loop: record after record, until one is not whole and sound.
  method Scan<E, B>(f: Format<E, B>, file: seq<B>) returns (p: Parsed<E>)
    ensures p == Parse(f, file)
  {
    var entries: seq<E>, validEnd := [], 0;
    ParseStarts(f, file);
    var first := f.read(file[0..]);
    while first.Entry? && 0 < first.end <= |file| - validEnd
      invariant validEnd <= |file| && first == f.read(file[validEnd..])
      invariant Parse(f, file) == Then(entries, validEnd, Parse(f, file[validEnd..]))
      decreases |file| - validEnd
    {
      ParseGoesOn(f, file, entries, validEnd, first.entry, first.end);
      entries := entries + [first.entry];
      validEnd := validEnd + first.end;
      first := f.read(file[validEnd..]);
    }
    ParseStops(f, file, entries, validEnd);
    p := Parsed(entries, validEnd, first.Unknown?);
  }
}
