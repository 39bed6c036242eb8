/**
 One write-ahead log file, byte by byte. A record is the payload's length and checksum, both
 32-bit big-endian, then the payload. The payload codec and the checksum are parameters: all
 that is asked of them is that a payload decodes to the entry it was made from.
 */
module Wal {
  import opened Wrappers
  import opened Framing
  import opened Sequences

  type Byte = n: int | 0 <= n < 256

  const HEADER_SIZE: nat := 8
  const TWO_32: nat := 0x1_0000_0000

  // What decoding a checksum-valid payload gives.
  datatype Decoded<E> = Good(entry: E) | Broken | UnknownOp

  // marshal is None for an entry the format cannot hold.
  datatype Codec<!E> = Codec(marshal: E -> Option<seq<Byte>>, unmarshal: seq<Byte> -> Decoded<E>,
                             checksum: seq<Byte> -> nat)

  ghost predicate Valid<E(!new)>(c: Codec<E>) {
    && (forall p :: c.checksum(p) < TWO_32)
    && (forall e :: c.marshal(e).Some? ==> c.unmarshal(c.marshal(e).value) == Good(e))
  }

  // ---------------------------------------------------------------- 32-bit integers

  function LowByte(n: nat): Byte {
    n % 256
  }

  // uint32(n), most significant byte first: a longer length loses its high bits.
  function PutUint32(n: nat): (b: seq<Byte>)
    ensures |b| == 4
  {
    [LowByte(n / 0x100_0000), LowByte(n / 0x1_0000), LowByte(n / 256), LowByte(n)]
  }

  function Uint32(b: seq<Byte>): (n: nat)
    requires |b| == 4
  {
    var b0: nat, b1: nat, b2: nat, b3: nat := b[0], b[1], b[2], b[3];
    b0 * 0x100_0000 + b1 * 0x1_0000 + b2 * 256 + b3
  }

  lemma Uint32RoundTrip(n: nat)
    requires n < TWO_32
    ensures Uint32(PutUint32(n)) == n
  {
    var a, b, c := n / 256, n / 0x1_0000, n / 0x100_0000;
    assert b == a / 256 && c == b / 256 && c < 256;
    assert n == a * 256 + LowByte(n) && a == b * 256 + LowByte(a) && b == c * 256 + LowByte(b) && c == LowByte(c);
  }

  // The first place where two byte strings differ has the smaller byte in a.
  predicate SortsBefore(a: seq<Byte>, b: seq<Byte>) {
    exists k | 0 <= k < |a| && k < |b| :: a[..k] == b[..k] && a[k] < b[k]
  }

  /** The most significant byte comes first: encoded numbers sort as the numbers do. */
  lemma BigEndian(m: nat, n: nat)
    requires m < n < TWO_32
    ensures SortsBefore(PutUint32(m), PutUint32(n))
  {
    var a, b := PutUint32(m), PutUint32(n);
    Uint32RoundTrip(m);
    Uint32RoundTrip(n);
    if a[0] != b[0] {
      assert a[..0] == b[..0] && a[0] < b[0];
    } else if a[1] != b[1] {
      assert a[..1] == b[..1] && a[1] < b[1];
    } else if a[2] != b[2] {
      assert a[..2] == b[..2] && a[2] < b[2];
    } else {
      assert a[..3] == b[..3] && a[3] < b[3];
    }
  }

  // ---------------------------------------------------------------- records

  function Encode<E>(c: Codec<E>, e: E): Option<seq<Byte>> {
    match c.marshal(e)
    case None => None
    case Some(p) => Some(PutUint32(|p|) + PutUint32(c.checksum(p)) + p)
  }

  // The entries whose record states their length truly.
  predicate Fits<E>(c: Codec<E>, e: E) {
    c.marshal(e).Some? && |c.marshal(e).value| < TWO_32
  }

  function Record<E>(c: Codec<E>, e: E): seq<Byte> {
    if Encode(c, e).Some? then Encode(c, e).value else []
  }

  function ReadFirst<E>(c: Codec<E>, file: seq<Byte>): (first: First<E>)
    ensures first.Entry? ==> HEADER_SIZE <= first.end <= |file|
  {
    if |file| < HEADER_SIZE then Torn
    else
      var length := Uint32(file[..4]);
      if HEADER_SIZE + length > |file| then Torn
      else
        var payload := file[HEADER_SIZE..HEADER_SIZE + length];
        if c.checksum(payload) != Uint32(file[4..HEADER_SIZE]) then Torn
        else
          match c.unmarshal(payload)
          case Good(e) => Entry(e, HEADER_SIZE + length)
          case Broken => Torn
          case UnknownOp => Unknown
  }

  // The log's record format.
  function FormatOf<E>(c: Codec<E>): Format<E, Byte> {
    Format(e => Fits(c, e), e => Record(c, e), file => ReadFirst(c, file))
  }

  lemma RecordReadsBack<E(!new)>(c: Codec<E>, e: E, tail: seq<Byte>)
    requires Valid(c) && Fits(c, e)
    ensures ReadFirst(c, Record(c, e) + tail) == Entry(e, |Record(c, e)|)
  {
    var p := c.marshal(e).value;
    var file := Record(c, e) + tail;
    Uint32RoundTrip(|p|);
    Uint32RoundTrip(c.checksum(p));
    assert file[..4] == PutUint32(|p|);
    assert file[4..8] == PutUint32(c.checksum(p));
    assert file[8..8 + |p|] == p;
  }

  // A record cut short anywhere is torn: its header promises more than is there.
  lemma CutRecordIsTorn<E(!new)>(c: Codec<E>, e: E, n: nat)
    requires Valid(c) && Fits(c, e) && n < |Record(c, e)|
    ensures ReadFirst(c, Record(c, e)[..n]) == Torn
  {
    var p, cut := c.marshal(e).value, Record(c, e)[..n];
    if n >= HEADER_SIZE {
      Uint32RoundTrip(|p|);
      assert cut[..4] == PutUint32(|p|);
    }
  }

  // A whole first record is read from its own bytes alone.
  lemma RecordReadIsLocal<E>(c: Codec<E>, a: seq<Byte>, b: seq<Byte>, end: nat)
    requires ReadFirst(c, a).Entry? && ReadFirst(c, a).end == end <= |b| && a[..end] == b[..end]
    ensures ReadFirst(c, b) == ReadFirst(c, a)
  {
    assert a[..4] == a[..end][..4] && b[..4] == b[..end][..4];
    assert a[4..8] == a[..end][4..8] && b[4..8] == b[..end][4..8];
    assert a[8..end] == a[..end][8..] && b[8..end] == b[..end][8..];
  }

  /** The log's records are framed, for every codec that decodes what it encoded: everything
      proved of framed records holds of the log. */
  lemma RecordsAreFramed<E(!new)>(c: Codec<E>)
    requires Valid(c)
    ensures Framed(FormatOf(c))
  {
    var f := FormatOf(c);
    forall e, tail ensures ReadsBack(f, e, tail) {
      if Fits(c, e) { RecordReadsBack(c, e, tail); }
    }
    forall e, n: nat ensures CutIsTorn(f, e, n) {
      if Fits(c, e) && n < |Record(c, e)| { CutRecordIsTorn(c, e, n); }
    }
    forall a, b ensures ReadIsLocal(f, a, b) {
      var first := ReadFirst(c, a);
      if first.Entry? && first.end <= |b| && a[..first.end] == b[..first.end] {
        RecordReadIsLocal(c, a, b, first.end);
      }
    }
  }

  // ---------------------------------------------------------------- the file

  // How a write ends: synced, or failed with some first bytes of it on disk.
  datatype Outcome = Synced | Failed(kept: nat)

  function Written(bytes: seq<Byte>, o: Outcome): seq<Byte> {
    if o.Failed? && o.kept < |bytes| then bytes[..o.kept] else bytes
  }

  function Joined(records: seq<seq<Byte>>): seq<Byte> {
    if records == [] then [] else Joined(records[..|records| - 1]) + records[|records| - 1]
  }

  // Joining the encoded entries gives their records.
  lemma {:induction false} JoinedRecords<E>(c: Codec<E>, es: seq<E>, records: seq<seq<Byte>>)
    requires |records| == |es| && forall i :: 0 <= i < |es| ==> Encode(c, es[i]) == Some(records[i])
    ensures Joined(records) == Records(FormatOf(c), es)
  {
    if es != [] {
      var n := |es| - 1;
      JoinedRecords(c, es[..n], records[..n]);
      assert es == es[..n] + [es[n]];
      RecordsAppend(FormatOf(c), es[..n], es[n]);
      assert Encode(c, es[n]) == Some(records[n]);
    }
  }

  lemma AppendedRecords<E>(c: Codec<E>, file: seq<Byte>, es: seq<E>, i: nat)
    requires i < |es|
    ensures file + Records(FormatOf(c), es[..i + 1])
         == file + Records(FormatOf(c), es[..i]) + Written(Record(c, es[i]), Synced)
  {
    assert es[..i + 1] == es[..i] + [es[i]];
    RecordsAppend(FormatOf(c), es[..i], es[i]);
    ConcatAssociates(file, Records(FormatOf(c), es[..i]), Record(c, es[i]));
  }

  // ---------------------------------------------------------------- whole and sound, by itself

  // These bytes are one record: the length in front is the payload's, and the checksum its own.
  ghost predicate Whole<E>(c: Codec<E>, frame: seq<Byte>) {
    && |frame| >= HEADER_SIZE && |frame| == HEADER_SIZE + Uint32(frame[..4])
    && Uint32(frame[4..HEADER_SIZE]) == c.checksum(frame[HEADER_SIZE..])
  }

  ghost predicate Holds<E>(c: Codec<E>, frame: seq<Byte>, what: Decoded<E>) {
    Whole(c, frame) && c.unmarshal(frame[HEADER_SIZE..]) == what
  }

  // Bytes that begin with a whole record of that.
  ghost predicate BeginsWith<E>(c: Codec<E>, file: seq<Byte>, what: Decoded<E>) {
    exists end :: 0 <= end <= |file| && Holds(c, file[..end], what)
  }

  // Where a record of these bytes would end: its header says.
  lemma WholeEnds<E>(c: Codec<E>, file: seq<Byte>, end: nat)
    requires end <= |file| && Whole(c, file[..end])
    ensures end == HEADER_SIZE + Uint32(file[..4]) && file[..end][HEADER_SIZE..] == file[HEADER_SIZE..end]
    ensures c.checksum(file[HEADER_SIZE..end]) == Uint32(file[4..HEADER_SIZE])
  {
    assert file[..end][..4] == file[..4] && file[..end][4..HEADER_SIZE] == file[4..HEADER_SIZE];
  }

  /** What the first record is read as, for any bytes: an entry exactly when they begin with a
      whole record of it, unknown exactly when with one of an unknown operation; anything else,
      a wrong checksum and an undecodable payload included, is torn. */
  lemma ReadFirstIs<E>(c: Codec<E>, file: seq<Byte>)
    ensures forall e, end: nat :: ReadFirst(c, file) == Entry(e, end) <==> end <= |file| && Holds(c, file[..end], Good(e))
    ensures ReadFirst(c, file) == Unknown <==> BeginsWith(c, file, UnknownOp)
  {
    forall what, end: nat | end <= |file| && Holds(c, file[..end], what)
      ensures ReadFirst(c, file) == match what case Good(e) => Entry(e, end) case Broken => Torn case UnknownOp => Unknown
    {
      WholeEnds(c, file, end);
    }
    if !ReadFirst(c, file).Torn? { ReadIsWhole(c, file); }
  }

  lemma ReadIsWhole<E>(c: Codec<E>, file: seq<Byte>)
    requires !ReadFirst(c, file).Torn?
    ensures |file| >= HEADER_SIZE && HEADER_SIZE + Uint32(file[..4]) <= |file|
    ensures var end := HEADER_SIZE + Uint32(file[..4]);
            Holds(c, file[..end], match ReadFirst(c, file) case Entry(e, _) => Good(e) case Unknown => UnknownOp)
    ensures ReadFirst(c, file).Entry? ==> ReadFirst(c, file).end == HEADER_SIZE + Uint32(file[..4])
  {
    var end := HEADER_SIZE + Uint32(file[..4]);
    assert file[..end][..4] == file[..4];
    assert file[..end][4..HEADER_SIZE] == file[4..HEADER_SIZE];
    assert file[..end][HEADER_SIZE..] == file[HEADER_SIZE..end];
  }

  // The file is such records of the entries, one after the other, and a rest that begins with no
  // whole record of an entry.
  ghost predicate HoldsExactly<E(!new)>(c: Codec<E>, file: seq<Byte>, frames: seq<seq<Byte>>, entries: seq<E>, rest: seq<Byte>) {
    && file == Joined(frames) + rest && |frames| == |entries|
    && (forall k :: 0 <= k < |frames| ==> Holds(c, frames[k], Good(entries[k])))
    && (forall e :: !BeginsWith(c, rest, Good(e)))
  }

  lemma {:induction false} JoinedFirst(first: seq<Byte>, frames: seq<seq<Byte>>)
    ensures Joined([first] + frames) == first + Joined(frames)
  {
    if frames == [] {
      assert [first] + frames == [first] && [first][..0] == [];
    } else {
      var n := |frames| - 1;
      JoinedFirst(first, frames[..n]);
      assert ([first] + frames)[..n + 1] == [first] + frames[..n];
      ConcatAssociates(first, Joined(frames[..n]), frames[n]);
    }
  }

  /** What a file holds, for any bytes: what is parsed is every whole, sound record from the start
      to the first that is not, and the file is unknown exactly if that one is whole and of an
      unknown operation. */
  lemma {:induction false} ParsedIsSound<E(!new)>(c: Codec<E>, file: seq<Byte>) returns (frames: seq<seq<Byte>>)
    ensures var p := Parse(FormatOf(c), file);
            && p.end <= |file| && HoldsExactly(c, file, frames, p.entries, file[p.end..]) && |Joined(frames)| == p.end
            && (p.unknown <==> BeginsWith(c, file[p.end..], UnknownOp))
    decreases |file|
  {
    ReadFirstIs(c, file);
    match ReadFirst(c, file)
    case Entry(e, end) =>
      var later := ParsedIsSound(c, file[end..]);
      frames := [file[..end]] + later;
      SoundFirst(c, file, e, end, later, Parse(FormatOf(c), file[end..]));
    case Torn =>
      frames := [];
      NoneIsSound(c, file);
    case Unknown =>
      frames := [];
      NoneIsSound(c, file);
  }

  lemma NoneIsSound<E(!new)>(c: Codec<E>, file: seq<Byte>)
    requires !ReadFirst(c, file).Entry?
    ensures HoldsExactly(c, file, [], [], file) && file[0..] == file
  {
    ReadFirstIs(c, file);
    assert Joined([]) + file == file;
  }

  lemma SoundFirst<E(!new)>(c: Codec<E>, file: seq<Byte>, e: E, end: nat, later: seq<seq<Byte>>, p: Parsed<E>)
    requires end <= |file| && Holds(c, file[..end], Good(e)) && p.end <= |file| - end
    requires HoldsExactly(c, file[end..], later, p.entries, file[end..][p.end..]) && |Joined(later)| == p.end
    ensures HoldsExactly(c, file, [file[..end]] + later, [e] + p.entries, file[end + p.end..])
    ensures |Joined([file[..end]] + later)| == end + p.end && file[end..][p.end..] == file[end + p.end..]
  {
    var first, rest := file[..end], file[end + p.end..];
    JoinedFirst(first, later);
    assert file[end..][p.end..] == rest;
    ConcatAssociates(first, Joined(later), rest);
    assert file == first + file[end..];
  }

  // ---------------------------------------------------------------- a record that is not sound

  // A record of full length, whatever its payload and the checksum stored with it.
  function FrameOf(payload: seq<Byte>, sum: nat): seq<Byte> {
    PutUint32(|payload|) + PutUint32(sum) + payload
  }

  lemma FramedReads<E>(c: Codec<E>, payload: seq<Byte>, sum: nat, tail: seq<Byte>)
    requires |payload| < TWO_32 && sum < TWO_32
    ensures ReadFirst(c, FrameOf(payload, sum) + tail) ==
            if sum != c.checksum(payload) then Torn
            else match c.unmarshal(payload)
                 case Good(e) => Entry(e, |FrameOf(payload, sum)|)
                 case Broken => Torn
                 case UnknownOp => Unknown
  {
    var file := FrameOf(payload, sum) + tail;
    Uint32RoundTrip(|payload|);
    Uint32RoundTrip(sum);
    assert file[..4] == PutUint32(|payload|) && file[4..8] == PutUint32(sum) && file[8..8 + |payload|] == payload;
  }

  /** After any records, a record of full length that is not sound ends what is replayed, whatever
      follows it: one whose stored checksum is not its payload's, or whose payload cannot be
      decoded; one of an unknown operation makes the replay fail. */
  lemma UnsoundRecordEnds<E(!new)>(c: Codec<E>, es: seq<E>, payload: seq<Byte>, sum: nat, tail: seq<Byte>)
    requires Valid(c) && AllFit(FormatOf(c), es) && |payload| < TWO_32 && sum < TWO_32
    requires sum != c.checksum(payload) || !c.unmarshal(payload).Good?
    ensures var f := FormatOf(c);
            Parse(f, Records(f, es) + (FrameOf(payload, sum) + tail)) ==
            Parsed(es, |Records(f, es)|, sum == c.checksum(payload) && c.unmarshal(payload).UnknownOp?)
  {
    var f, rest := FormatOf(c), FrameOf(payload, sum) + tail;
    RecordsAreFramed(c);
    FramedReads(c, payload, sum, tail);
    ParseRecords(f, es, rest);
    NothingBeside([], es);
  }

  class File<!E(!new)> {
    const codec: Codec<E>
    var bytes: seq<Byte>

    constructor (codec: Codec<E>, bytes: seq<Byte>)
      ensures this.codec == codec && this.bytes == bytes
    {
      this.codec := codec;
      this.bytes := bytes;
    }

    method Append(entry: E, o: Outcome) returns (ok: bool)
      modifies this
      ensures ok == (Encode(codec, entry).Some? && o.Synced?)
      ensures bytes == old(bytes) + Written(Record(codec, entry), o)
    {
      match Encode(codec, entry)
      case None => ok := false;
      case Some(record) =>
        bytes := bytes + Written(record, o);
        ok := o.Synced?;
    }

    // One write of all the records, joined.
    method WriteBatch(records: seq<seq<Byte>>, o: Outcome) returns (ok: bool)
      modifies this
      ensures ok == (o.Synced? || records == [])
      ensures bytes == old(bytes) + Written(Joined(records), o)
    {
      if |records| == 0 {
        return true;
      }
      var batch: seq<Byte> := [];
      if |records| == 1 {
        batch := records[0];
        assert Joined(records) == Joined(records[..0]) + records[0];
      } else {
        for i := 0 to |records|
          invariant batch == Joined(records[..i])
        {
          batch := batch + records[i];
          assert records[..i + 1][..i] == records[..i];
        }
        assert records[..|records|] == records;
      }
      bytes := bytes + Written(batch, o);
      ok := o.Synced?;
    }

    // Appending entries one by one writes the bytes of one batch of their records.
    method AppendEach(entries: seq<E>)
      modifies this
      ensures bytes == old(bytes) + Records(FormatOf(codec), entries)
    {
      for i := 0 to |entries|
        invariant bytes == old(bytes) + Records(FormatOf(codec), entries[..i])
      {
        var ok := Append(entries[i], Synced);
        AppendedRecords(codec, old(bytes), entries, i);
      }
      assert entries[..|entries|] == entries;
    }

    /** Returns the file's whole, sound records and cuts off what follows them; a record of a
        newer version is an error and changes nothing. */
    method Replay() returns (entries: Option<seq<E>>)
      modifies this
      ensures var p := Parse(FormatOf(codec), old(bytes));
              if p.unknown then entries == None && bytes == old(bytes)
              else entries == Some(p.entries) && bytes == old(bytes)[..p.end]
      ensures entries.Some? ==>
                exists frames :: bytes == Joined(frames) && |bytes| <= |old(bytes)|
                  && HoldsExactly(codec, old(bytes), frames, entries.value, old(bytes)[|bytes|..])
    {
      var p := Scan(FormatOf(codec), bytes);
      ghost var frames := ParsedIsSound(codec, bytes);
      if p.unknown {
        return None;
      }
      if p.end < |bytes| {
        bytes := bytes[..p.end];
      }
      entries := Some(p.entries);
    }
  }

  /** A crash while a batch is written, then a reopen and another write: a replay returns the
      earlier entries and the batch's completed records, and after the append also the new
      entry, in order. */
  lemma CrashReplayAppend<E(!new)>(c: Codec<E>, es: seq<E>, batch: seq<E>, n: nat, e: E)
    requires Valid(c) && (forall x :: x in es + batch ==> Fits(c, x)) && Fits(c, e)
    requires n <= |Records(FormatOf(c), batch)|
    ensures var f := FormatOf(c);
            var kept := es + batch[..WholeRecords(f, batch, n)];
            var cut := Records(f, es) + Records(f, batch)[..n];
            && Parse(f, cut) == Parsed(kept, |Records(f, kept)|, false)
            && Parse(f, cut[..|Records(f, kept)|] + Record(c, e)).entries == kept + [e]
  {
    var f := FormatOf(c);
    RecordsAreFramed(c);
    TornBatch(f, es, batch, n);
    AppendAfterReplay(f, Records(f, es) + Records(f, batch)[..n], e);
  }
}
