/**
 Group commit: one committer takes accepted writes off a queue, packs them into batches, and
 commits each batch with one log write. Whatever the timing of the queue and wherever the log
 first fails, every accepted write is in exactly one batch, in order, and is answered once.
 */
module GroupCommit {
  import opened Wrappers

  const MAX_BATCH_RECORDS: nat := 1000
  const MAX_BATCH_BYTES: nat := 0x10_0000

  // A write on its way to the log, with the size of its encoded record.
  datatype Request<W> = Request(entry: W, size: nat)

  // How a request was answered: applied; lost or not with a failed log write; refused.
  datatype Outcome = Applied | LogFailed | Halted

  datatype Answer<W> = Answer(req: Request<W>, outcome: Outcome)

  function Carry<W>(carried: Option<Request<W>>): seq<Request<W>> {
    if carried.Some? then [carried.value] else []
  }

  function Bytes<W>(batch: seq<Request<W>>): nat {
    if batch == [] then 0 else Bytes(batch[..|batch| - 1]) + batch[|batch| - 1].size
  }

  function Joined<W>(batches: seq<seq<Request<W>>>): seq<Request<W>> {
    if batches == [] then [] else Joined(batches[..|batches| - 1]) + batches[|batches| - 1]
  }

  function Answers<W>(reqs: seq<Request<W>>, o: Outcome): seq<Answer<W>> {
    if reqs == [] then [] else Answers(reqs[..|reqs| - 1], o) + [Answer(reqs[|reqs| - 1], o)]
  }

  lemma {:induction false} AnswersConcat<W>(a: seq<Request<W>>, b: seq<Request<W>>, o: Outcome)
    ensures Answers(a + b, o) == Answers(a, o) + Answers(b, o)
  {
    if b == [] {
      assert a + b == a;
    } else {
      AnswersConcat(a, b[..|b| - 1], o);
      assert (a + b)[..|a + b| - 1] == a + b[..|b| - 1];
    }
  }

  lemma JoinedAppend<W>(batches: seq<seq<Request<W>>>, batch: seq<Request<W>>)
    ensures Joined(batches + [batch]) == Joined(batches) + batch
  {
    assert (batches + [batch])[..|batches|] == batches;
  }

  lemma BytesAppend<W>(batch: seq<Request<W>>, req: Request<W>)
    ensures Bytes(batch + [req]) == Bytes(batch) + req.size
  {
    assert (batch + [req])[..|batch|] == batch;
  }

  // A batch stays within both caps, unless it is one record that is too big by itself.
  predicate WithinCaps<W>(batch: seq<Request<W>>) {
    && 0 < |batch| <= MAX_BATCH_RECORDS
    && (Bytes(batch) <= MAX_BATCH_BYTES || |batch| == 1)
  }

  predicate AllWithinCaps<W>(batches: seq<seq<Request<W>>>) {
    forall i :: 0 <= i < |batches| ==> WithinCaps(batches[i])
  }

  /** Fills a batch after its first request, for as long as the next one is queued and fits.
      `ready(i)` says whether the i-th accepted request was in the queue when it was polled. */
  method Fill<W>(accepted: seq<Request<W>>, first: Request<W>, from: nat, ready: nat -> bool)
    returns (batch: seq<Request<W>>, next: nat, carried: Option<Request<W>>)
    requires from <= |accepted|
    ensures from <= next <= |accepted| && WithinCaps(batch)
    ensures batch + Carry(carried) == [first] + accepted[from..next]
    ensures carried.Some? ==> |batch| < MAX_BATCH_RECORDS && Bytes(batch) + carried.value.size > MAX_BATCH_BYTES
    ensures carried.None? && |batch| < MAX_BATCH_RECORDS ==> next == |accepted| || !ready(next)
  {
    batch, next, carried := [first], from, None;
    var size := first.size;
    assert [first][..0] == [];
    while |batch| < MAX_BATCH_RECORDS && carried.None? && next < |accepted| && ready(next)
      invariant from <= next <= |accepted| && size == Bytes(batch) && WithinCaps(batch)
      invariant batch + Carry(carried) == [first] + accepted[from..next]
      invariant carried.Some? ==> |batch| < MAX_BATCH_RECORDS && size + carried.value.size > MAX_BATCH_BYTES
      decreases |accepted| - next
    {
      var req := accepted[next];
      assert [first] + accepted[from..next + 1] == [first] + accepted[from..next] + [req];
      assert batch + Carry<W>(None) == batch && (batch + [req]) + Carry<W>(None) == batch + [req];
      if size + req.size > MAX_BATCH_BYTES {
        carried := Some(req);
      } else {
        BytesAppend(batch, req);
        batch := batch + [req];
        size := size + req.size;
      }
      next := next + 1;
    }
  }

  // One answer per request, in order: applied ones, then a failed batch, then refused ones.
  function AllAnswers<W>(applied: seq<Request<W>>, failed: seq<Request<W>>, refused: seq<Request<W>>): seq<Answer<W>> {
    Answers(applied, Applied) + Answers(failed, LogFailed) + Answers(refused, Halted)
  }

  lemma AppliedMore<W>(applied: seq<Request<W>>, batch: seq<Request<W>>)
    ensures AllAnswers(applied + batch, [], []) == AllAnswers(applied, [], []) + Answers(batch, Applied)
  {
    AnswersConcat(applied, batch, Applied);
    assert Answers<W>([], LogFailed) == [] && Answers<W>([], Halted) == [];
  }

  lemma FailedOnce<W>(applied: seq<Request<W>>, batch: seq<Request<W>>)
    ensures AllAnswers(applied, batch, []) == AllAnswers(applied, [], []) + Answers(batch, LogFailed)
  {
    assert Answers<W>([], LogFailed) == [] && Answers<W>([], Halted) == [];
  }

  lemma RefusedMore<W>(applied: seq<Request<W>>, failed: seq<Request<W>>, refused: seq<Request<W>>, batch: seq<Request<W>>)
    ensures AllAnswers(applied, failed, refused + batch) == AllAnswers(applied, failed, refused) + Answers(batch, Halted)
  {
    AnswersConcat(refused, batch, Halted);
  }

  class Committer<W> {
    var halted: bool
    var logWrites: nat                     // how often the log was written to
    var applied: seq<Request<W>>           // what went into the memtable, in order
    var answers: seq<Answer<W>>
    ghost var failed: seq<Request<W>>      // the batch whose log write failed
    ghost var refused: seq<Request<W>>     // everything after it

    // Every log write succeeded but the one that halted writes, which was the last; each
    // request taken has one answer, in order, that says what became of it.
    ghost predicate Valid(logOk: nat -> bool)
      reads this
    {
      && (halted ==> logWrites > 0 && !logOk(logWrites - 1))
      && (!halted ==> failed == [] && refused == [])
      && (forall i: nat :: i + 1 < logWrites || (i < logWrites && !halted) ==> logOk(i))
      && answers == AllAnswers(applied, failed, refused)
    }

    ghost function Taken(): seq<Request<W>>
      reads this
    {
      applied + failed + refused
    }

    constructor ()
      ensures !halted && logWrites == 0 && Taken() == [] && answers == []
      ensures forall logOk :: Valid(logOk)
    {
      halted, logWrites, applied, answers, failed, refused := false, 0, [], [], [], [];
    }

    method Commit(batch: seq<Request<W>>, logOk: nat -> bool)
      requires Valid(logOk)
      modifies this
      ensures Valid(logOk) && Taken() == old(Taken()) + batch
      ensures old(halted) ==> halted && logWrites == old(logWrites) && applied == old(applied)
      ensures !old(halted) ==> logWrites == old(logWrites) + 1 && halted == !logOk(old(logWrites))
      ensures !old(halted) ==> applied == old(applied) + (if halted then [] else batch)
      ensures if old(halted) then failed == old(failed) && refused == old(refused) + batch
              else failed == (if halted then batch else []) && refused == []
    {
      if halted {
        answers := answers + Answers(batch, Halted);
        RefusedMore(applied, failed, refused, batch);
        refused := refused + batch;
        return;
      }
      var ok := logOk(logWrites);
      logWrites := logWrites + 1;
      if !ok {
        halted := true;
        answers := answers + Answers(batch, LogFailed);
        FailedOnce(applied, batch);
        failed := batch;
        return;
      }
      answers := answers + Answers(batch, Applied);
      AppliedMore(applied, batch);
      applied := applied + batch;
    }

    /** The committer's whole life, from the first accepted request to the closed and drained
        queue: its batches are the accepted requests, cut up, and each request is in the one
        list its answer puts it in. */
    method Run(accepted: seq<Request<W>>, ready: nat -> bool, logOk: nat -> bool)
      returns (ghost batches: seq<seq<Request<W>>>)
      requires Valid(logOk) && Taken() == []
      modifies this
      ensures Valid(logOk) && Taken() == accepted == Joined(batches)
      ensures AllWithinCaps(batches)
    {
      var next := 0;
      var carried: Option<Request<W>> := None;
      batches := [];
      while carried.Some? || next < |accepted|
        invariant next <= |accepted| && Valid(logOk)
        invariant Taken() == Joined(batches) && Taken() + Carry(carried) == accepted[..next]
        invariant AllWithinCaps(batches)
        decreases |accepted| - next + |Carry(carried)|
      {
        var first, from, batch;
        if carried.Some? {
          first, from := carried.value, next;
        } else {
          first, from := accepted[next], next + 1;
        }
        FirstTaken(accepted, Taken(), carried, next, first, from);
        batch, next, carried := Fill(accepted, first, from, ready);
        BatchTaken(accepted, Taken(), first, from, next, batch, carried);
        BatchJoined(batches, batch);
        Commit(batch, logOk);
        batches := batches + [batch];
      }
      assert accepted[..next] == accepted;
    }
  }

  lemma FirstTaken<W>(accepted: seq<Request<W>>, taken: seq<Request<W>>, carried: Option<Request<W>>, next: nat,
                      first: Request<W>, from: nat)
    requires next <= |accepted| && taken + Carry(carried) == accepted[..next]
    requires if carried.Some? then first == carried.value && from == next
             else next < |accepted| && first == accepted[next] && from == next + 1
    ensures taken + [first] == accepted[..from]
  {
    if carried.None? { assert taken + Carry(carried) == taken; }
  }

  lemma BatchJoined<W>(batches: seq<seq<Request<W>>>, batch: seq<Request<W>>)
    requires AllWithinCaps(batches) && WithinCaps(batch)
    ensures AllWithinCaps(batches + [batch]) && Joined(batches + [batch]) == Joined(batches) + batch
  {
    JoinedAppend(batches, batch);
  }

  lemma BatchTaken<W>(accepted: seq<Request<W>>, taken: seq<Request<W>>, first: Request<W>, from: nat, next: nat,
                      batch: seq<Request<W>>, carried: Option<Request<W>>)
    requires from <= next <= |accepted| && taken + [first] == accepted[..from]
    requires batch + Carry(carried) == [first] + accepted[from..next]
    ensures taken + batch + Carry(carried) == accepted[..next]
    ensures batch != [] ==> |Carry(carried)| <= next - from
  {
    assert accepted[..next] == accepted[..from] + accepted[from..next];
    assert taken + batch + Carry(carried) == taken + (batch + Carry(carried));
    assert taken + ([first] + accepted[from..next]) == taken + [first] + accepted[from..next];
    assert |batch + Carry(carried)| == 1 + next - from;
  }

  lemma {:induction false} AnswersAt<W>(reqs: seq<Request<W>>, o: Outcome, i: nat)
    requires i < |reqs|
    ensures |Answers(reqs, o)| == |reqs| && Answers(reqs, o)[i] == Answer(reqs[i], o)
  {
    var n := |reqs| - 1;
    if n > 0 {
      AnswersAt(reqs[..n], o, if i < n then i else 0);
    }
  }

  lemma AnswersLength<W>(reqs: seq<Request<W>>, o: Outcome)
    ensures |Answers(reqs, o)| == |reqs|
  {
    if reqs != [] { AnswersAt(reqs, o, 0); }
  }

  /** Conservation: the i-th accepted request has the i-th answer and no other. What is applied
      is a prefix of what was accepted; the batch that failed follows; everything after it is
      refused without touching the log. */
  lemma EachAnsweredOnce<W>(accepted: seq<Request<W>>, ok: seq<Request<W>>, failed: seq<Request<W>>, refused: seq<Request<W>>, i: nat)
    requires accepted == ok + failed + refused && i < |accepted|
    ensures var answers := AllAnswers(ok, failed, refused);
            && |answers| == |accepted| && answers[i].req == accepted[i]
            && answers[i].outcome == (if i < |ok| then Applied else if i < |ok + failed| then LogFailed else Halted)
  {
    AnswersLength(ok, Applied);
    AnswersLength(failed, LogFailed);
    AnswersLength(refused, Halted);
    if i < |ok| {
      AnswersAt(ok, Applied, i);
    } else if i < |ok + failed| {
      AnswersAt(failed, LogFailed, i - |ok|);
    } else {
      AnswersAt(refused, Halted, i - |ok + failed|);
    }
  }
}
