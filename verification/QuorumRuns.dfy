/**
 Quorum intersection over whole runs. One key, one membership view, no rollback of the key:
 replicas only merge, whether from writes, replication, hint deliveries or anti-entropy. With
 w + r above the number of replicas, a read that starts after a write returned sees it or
 something after it, whichever replicas answered each of them.
 */
module QuorumRuns {
  import opened Wrappers
  import opened Versions
  import AntiEntropy
  import Compaction
  import Q = Quorum

  // A write: its version, the replicas that merged it, those whose ack arrived, and whether
  // the caller was told it succeeded.
  datatype PutOp = PutOp(item: Item, merged: set<string>, acked: set<string>, returned: bool)

  // A read: the writes that had returned before it began, the answers so far, and its result.
  datatype GetOp = GetOp(earlier: set<nat>, answers: map<string, seq<Item>>, result: Option<seq<Item>>)

  datatype Config = Config(replicas: set<string>, w: nat, r: nat)

  datatype State = State(held: map<string, seq<Item>>, puts: map<nat, PutOp>, gets: map<nat, GetOp>)

  datatype Step =
    | Merge(node: string, items: seq<Item>)              // anything else a replica takes in
    | StartPut(id: nat, node: string, item: Item)        // the coordinator's own copy
    | Replicate(id: nat, node: string)                   // a replica merges a write sent to it
    | Ack(id: nat, node: string)
    | ReturnPut(id: nat)
    | StartGet(id: nat)
    | Answer(id: nat, node: string)                      // a replica is read
    | ReturnGet(id: nat, self: Option<string>, order: seq<string>)

  ghost predicate Init(c: Config, s: State) {
    s.held.Keys == c.replicas && s.puts == map[] && s.gets == map[]
  }

  // A replica's set after it merged items; every other replica's is unchanged.
  ghost predicate Merged(s: State, node: string, items: seq<Item>, s': State) {
    && node in s.held && s'.held.Keys == s.held.Keys
    && AntiEntropy.Absorbs(s.held[node], items, s'.held[node])
    && forall n :: n in s.held && n != node ==> s'.held[n] == s.held[n]
  }

  function AnswersOf(g: GetOp, nodes: seq<string>): seq<seq<Item>>
    requires forall n :: n in nodes ==> n in g.answers
  {
    seq(|nodes|, i requires 0 <= i < |nodes| => g.answers[nodes[i]])
  }

  // The answers a read merges: its own node's first, if it is a replica, then others as they
  // arrived.
  ghost predicate Counts(c: Config, g: GetOp, self: Option<string>, order: seq<string>) {
    && (self.Some? ==> self.value in g.answers && self.value !in order)
    && (forall n :: n in order ==> n in g.answers)
    && (forall i, j :: 0 <= i < j < |order| ==> order[i] != order[j])
    && (if self.Some? then 1 else 0) + |order| >= c.r
  }

  ghost predicate Next(c: Config, s: State, step: Step, s': State) {
    match step
    case Merge(node, items) =>
      Merged(s, node, items, s') && s'.puts == s.puts && s'.gets == s.gets
    case StartPut(id, node, item) =>
      && id !in s.puts && Merged(s, node, [item], s') && s'.gets == s.gets
      && s'.puts == s.puts[id := PutOp(item, {node}, {node}, false)]
    case Replicate(id, node) =>
      && id in s.puts && Merged(s, node, [s.puts[id].item], s') && s'.gets == s.gets
      && s'.puts == s.puts[id := s.puts[id].(merged := s.puts[id].merged + {node})]
    case Ack(id, node) =>
      && id in s.puts && node in s.puts[id].merged && !s.puts[id].returned
      && s' == s.(puts := s.puts[id := s.puts[id].(acked := s.puts[id].acked + {node})])
    case ReturnPut(id) =>
      && id in s.puts && |s.puts[id].acked| >= c.w
      && s' == s.(puts := s.puts[id := s.puts[id].(returned := true)])
    case StartGet(id) =>
      && id !in s.gets
      && s' == s.(gets := s.gets[id := GetOp(set p | p in s.puts && s.puts[p].returned, map[], None)])
    case Answer(id, node) =>
      && id in s.gets && node in s.held && node !in s.gets[id].answers && s.gets[id].result.None?
      && s' == s.(gets := s.gets[id := s.gets[id].(answers := s.gets[id].answers[node := s.held[node]])])
    case ReturnGet(id, self, order) =>
      && id in s.gets && s.gets[id].result.None? && Counts(c, s.gets[id], self, order)
      && var g := s.gets[id];
         var own := if self.Some? then g.answers[self.value] else [];
         s' == s.(gets := s.gets[id := g.(result := Some(Q.Gathered(own, AnswersOf(g, order))))])
  }

  // ---------------------------------------------------------------- the invariant

  ghost predicate CoveredAt(s: State, node: string, item: Item) {
    node in s.held && Covered(item, s.held[node])
  }

  // Every replica that merged a write covers it; acks come from those; a returned write has w.
  ghost predicate PutInv(c: Config, s: State, p: PutOp) {
    && p.acked <= p.merged
    && (forall n :: n in p.merged ==> n in c.replicas && CoveredAt(s, n, p.item))
    && (p.returned ==> |p.acked| >= c.w)
  }

  // An answer from a replica that acked an earlier write covers that write.
  ghost predicate GetInv(c: Config, s: State, g: GetOp) {
    && g.answers.Keys <= c.replicas
    && (forall p :: p in g.earlier ==> p in s.puts && s.puts[p].returned)
    && (forall p, n :: p in g.earlier && n in g.answers && n in s.puts[p].acked ==> Covered(s.puts[p].item, g.answers[n]))
    && (g.result.Some? ==> forall p :: p in g.earlier ==> Covered(s.puts[p].item, g.result.value))
  }

  ghost predicate Inv(c: Config, s: State) {
    && s.held.Keys == c.replicas
    && (forall i :: i in s.puts ==> PutInv(c, s, s.puts[i]))
    && (forall i :: i in s.gets ==> GetInv(c, s, s.gets[i]))
  }

  // ---------------------------------------------------------------- merging only adds

  lemma MergedKeepsCovered(s: State, node: string, items: seq<Item>, s': State, n: string, x: Item)
    requires Merged(s, node, items, s') && CoveredAt(s, n, x)
    ensures CoveredAt(s', n, x)
  {
    if n == node {
      var y :| y in s.held[n] && Covers(y, x);
      assert y in s.held[n] + items;
      CoveredMonotone(x, y, s'.held[n]);
    }
  }

  lemma MergedCovers(s: State, node: string, items: seq<Item>, s': State, x: Item)
    requires Merged(s, node, items, s') && x in items
    ensures CoveredAt(s', node, x)
  {
    assert x in s.held[node] + items;
  }

  lemma MergeKeepsPut(c: Config, s: State, node: string, items: seq<Item>, s': State, p: PutOp)
    requires Merged(s, node, items, s') && PutInv(c, s, p)
    ensures PutInv(c, s', p)
  {
    forall n | n in p.merged ensures CoveredAt(s', n, p.item) {
      MergedKeepsCovered(s, node, items, s', n, p.item);
    }
  }

  // A read's record says nothing about replicas, so it stays true while writes only gain.
  lemma GetStays(c: Config, s: State, s': State, g: GetOp)
    requires GetInv(c, s, g)
    requires forall p :: p in s.puts && s.puts[p].returned ==>
               p in s'.puts && s'.puts[p].returned && s'.puts[p].item == s.puts[p].item && s'.puts[p].acked == s.puts[p].acked
    ensures GetInv(c, s', g)
  {
  }

  // ---------------------------------------------------------------- intersection

  lemma SubsetIsSmaller(a: set<string>, b: set<string>)
    requires a <= b
    ensures |a| <= |b|
  {
    assert b == a + (b - a);
  }

  lemma QuorumsMeet(a: set<string>, b: set<string>, all: set<string>) returns (n: string)
    requires a <= all && b <= all && |a| + |b| > |all|
    ensures n in a && n in b
  {
    SubsetIsSmaller(a + b, all);
    assert |a + b| + |a * b| == |a| + |b|;
    assert a * b != {};
    n :| n in a * b;
  }

  function Named(order: seq<string>): set<string> {
    set n | n in order
  }

  lemma {:induction false} DistinctCount(order: seq<string>)
    requires forall i, j :: 0 <= i < j < |order| ==> order[i] != order[j]
    ensures |Named(order)| == |order|
  {
    if order != [] {
      var front, last := order[..|order| - 1], order[|order| - 1];
      DistinctCount(front);
      assert order == front + [last];
      assert last !in front;
      assert Named(order) == Named(front) + {last};
    }
  }

  ghost function AckedPeers(results: seq<Q.Result>): set<string> {
    set i | 0 <= i < |results| && results[i].reply.Ok? :: results[i].peer
  }

  lemma AnotherReplica(self: string, acked: set<string>, peer: string)
    requires peer != self && peer !in acked
    ensures |{self} + (acked + {peer})| == |{self} + acked| + 1
  {
    assert {self} + (acked + {peer}) == {self} + acked + {peer};
  }

  lemma AckedNext(results: seq<Q.Result>, n: nat)
    requires |results| == n + 1
    ensures var before, last := AckedPeers(results[..n]), results[n];
            AckedPeers(results) == if last.reply.Ok? then before + {last.peer} else before
  {
    var before, last := AckedPeers(results[..n]), results[n];
    forall p | p in AckedPeers(results) ensures p in before || (last.reply.Ok? && p == last.peer) {
      var i :| 0 <= i < |results| && results[i].reply.Ok? && results[i].peer == p;
      if i < n { assert results[..n][i] == results[i]; }
    }
    forall p | p in before ensures p in AckedPeers(results) {
      var i :| 0 <= i < n && results[..n][i].reply.Ok? && results[..n][i].peer == p;
      assert results[i] == results[..n][i];
    }
  }

  // A coordinator that counted w acks, its own included, has them from w replicas.
  lemma {:induction false} AcksAreReplicas(self: string, results: seq<Q.Result>)
    requires forall i, j :: 0 <= i < j < |results| ==> results[i].peer != results[j].peer
    requires forall i :: 0 <= i < |results| ==> results[i].peer != self
    ensures |{self} + AckedPeers(results)| == 1 + Q.Acks(results)
  {
    if results == [] {
      assert {self} + AckedPeers(results) == {self};
    } else {
      var front, last := results[..|results| - 1], results[|results| - 1];
      AcksAreReplicas(self, front);
      AckedNext(results, |results| - 1);
      if last.reply.Ok? { AnotherReplica(self, AckedPeers(front), last.peer); }
    }
  }

  // Enough answers for a read include one from a replica that acked an earlier write.
  lemma ReadMeetsWrite(c: Config, s: State, g: GetOp, self: Option<string>, order: seq<string>, p: nat)
    requires GetInv(c, s, g) && p in g.earlier && PutInv(c, s, s.puts[p]) && c.w + c.r > |c.replicas|
    requires Counts(c, g, self, order)
    ensures var own := if self.Some? then g.answers[self.value] else [];
            Covered(s.puts[p].item, Q.Gathered(own, AnswersOf(g, order)))
  {
    var own := if self.Some? then {self.value} else {};
    var readers := own + Named(order);
    DistinctCount(order);
    assert own * Named(order) == {};
    assert |readers| == |own| + |order|;
    var n := QuorumsMeet(s.puts[p].acked, readers, c.replicas);
    assert Covered(s.puts[p].item, g.answers[n]);
    var mine := if self.Some? then g.answers[self.value] else [];
    if n in order {
      var i :| 0 <= i < |order| && order[i] == n;
      assert AnswersOf(g, order)[i] == g.answers[n];
    }
    Q.GatheredCovers(mine, AnswersOf(g, order), s.puts[p].item);
  }

  // ---------------------------------------------------------------- steps

  lemma MergeStep(c: Config, s: State, node: string, items: seq<Item>, s': State)
    requires Inv(c, s) && Merged(s, node, items, s') && s'.puts == s.puts && s'.gets == s.gets
    ensures Inv(c, s')
  {
    forall i | i in s'.puts ensures PutInv(c, s', s'.puts[i]) { MergeKeepsPut(c, s, node, items, s', s.puts[i]); }
    forall i | i in s'.gets ensures GetInv(c, s', s'.gets[i]) { GetStays(c, s, s', s.gets[i]); }
  }

  // A replica merges the item of write id, which then counts it among those that did.
  lemma WriteStep(c: Config, s: State, id: nat, node: string, p: PutOp, s': State)
    requires Inv(c, s) && Merged(s, node, [p.item], s') && s'.gets == s.gets && s'.puts == s.puts[id := p]
    requires node in p.merged && p.acked <= p.merged && (p.returned ==> |p.acked| >= c.w)
    requires forall n :: n in p.merged && n != node ==> n in c.replicas && CoveredAt(s, n, p.item)
    requires id in s.puts ==> p.item == s.puts[id].item && p.acked == s.puts[id].acked && p.returned == s.puts[id].returned
    ensures Inv(c, s')
  {
    MergedCovers(s, node, [p.item], s', p.item);
    forall i | i in s'.puts ensures PutInv(c, s', s'.puts[i]) {
      if i == id {
        forall n | n in p.merged && n != node ensures CoveredAt(s', n, p.item) {
          MergedKeepsCovered(s, node, [p.item], s', n, p.item);
        }
      } else {
        MergeKeepsPut(c, s, node, [p.item], s', s.puts[i]);
      }
    }
    forall i | i in s'.gets ensures GetInv(c, s', s'.gets[i]) { GetStays(c, s, s', s.gets[i]); }
  }

  // A write's record changes before it has returned, or only to say that it has.
  lemma RecordStep(c: Config, s: State, id: nat, p: PutOp, s': State)
    requires Inv(c, s) && id in s.puts && s' == s.(puts := s.puts[id := p]) && PutInv(c, s, p)
    requires p.item == s.puts[id].item
    requires s.puts[id].returned ==> p.returned && p.acked == s.puts[id].acked
    ensures Inv(c, s')
  {
    forall i | i in s'.puts ensures PutInv(c, s', s'.puts[i]) {
      assert PutInv(c, s, if i == id then p else s.puts[i]);
      SameReplicas(c, s, s', s'.puts[i]);
    }
    forall i | i in s'.gets ensures GetInv(c, s', s'.gets[i]) { GetStays(c, s, s', s.gets[i]); }
  }

  lemma SameReplicas(c: Config, s: State, s': State, p: PutOp)
    requires PutInv(c, s, p) && s'.held == s.held
    ensures PutInv(c, s', p)
  {
    assert forall n :: CoveredAt(s, n, p.item) ==> CoveredAt(s', n, p.item);
  }

  lemma ReadStep(c: Config, s: State, id: nat, g: GetOp, s': State)
    requires Inv(c, s) && s' == s.(gets := s.gets[id := g]) && GetInv(c, s, g)
    ensures Inv(c, s')
  {
    forall i | i in s'.puts ensures PutInv(c, s', s'.puts[i]) { SameReplicas(c, s, s', s.puts[i]); }
    forall i | i in s'.gets ensures GetInv(c, s', s'.gets[i]) {
      GetStays(c, s, s', if i == id then g else s.gets[i]);
    }
  }

  // A replica read after a write returned answers with something that covers it, if it acked.
  lemma AnswerCovers(c: Config, s: State, g: GetOp, node: string)
    requires Inv(c, s) && GetInv(c, s, g) && node in s.held && g.result.None?
    ensures GetInv(c, s, g.(answers := g.answers[node := s.held[node]]))
  {
    var g' := g.(answers := g.answers[node := s.held[node]]);
    forall p, n | p in g'.earlier && n in g'.answers && n in s.puts[p].acked
      ensures Covered(s.puts[p].item, g'.answers[n])
    {
      assert PutInv(c, s, s.puts[p]);
      if n == node { assert CoveredAt(s, n, s.puts[p].item); }
    }
  }

  lemma ReturnCovers(c: Config, s: State, g: GetOp, self: Option<string>, order: seq<string>)
    requires Inv(c, s) && GetInv(c, s, g) && Counts(c, g, self, order) && c.w + c.r > |c.replicas|
    ensures var own := if self.Some? then g.answers[self.value] else [];
            GetInv(c, s, g.(result := Some(Q.Gathered(own, AnswersOf(g, order)))))
  {
    forall p | p in g.earlier
      ensures var own := if self.Some? then g.answers[self.value] else [];
              Covered(s.puts[p].item, Q.Gathered(own, AnswersOf(g, order)))
    {
      assert PutInv(c, s, s.puts[p]);
      ReadMeetsWrite(c, s, g, self, order, p);
    }
  }

  lemma StepKeeps(c: Config, s: State, step: Step, s': State)
    requires Inv(c, s) && Next(c, s, step, s') && c.w + c.r > |c.replicas|
    ensures Inv(c, s')
  {
    match step
    case Merge(node, items) => MergeStep(c, s, node, items, s');
    case StartPut(id, node, item) =>
      WriteStep(c, s, id, node, PutOp(item, {node}, {node}, false), s');
    case Replicate(id, node) =>
      var p := s.puts[id];
      assert PutInv(c, s, p);
      WriteStep(c, s, id, node, p.(merged := p.merged + {node}), s');
    case Ack(id, node) =>
      var p := s.puts[id];
      assert PutInv(c, s, p);
      RecordStep(c, s, id, p.(acked := p.acked + {node}), s');
    case ReturnPut(id) =>
      var p := s.puts[id];
      assert PutInv(c, s, p);
      RecordStep(c, s, id, p.(returned := true), s');
    case StartGet(id) =>
      ReadStep(c, s, id, GetOp(set p | p in s.puts && s.puts[p].returned, map[], None), s');
    case Answer(id, node) =>
      var g := s.gets[id];
      assert GetInv(c, s, g);
      AnswerCovers(c, s, g, node);
      ReadStep(c, s, id, g.(answers := g.answers[node := s.held[node]]), s');
    case ReturnGet(id, self, order) =>
      var g := s.gets[id];
      assert GetInv(c, s, g);
      ReturnCovers(c, s, g, self, order);
      ReadStep(c, s, id, s'.gets[id], s');
  }

  ghost predicate StepAt(c: Config, states: seq<State>, steps: seq<Step>, i: nat)
    requires i < |steps| < |states|
  {
    Next(c, states[i], steps[i], states[i + 1])
  }

  ghost predicate Run(c: Config, states: seq<State>, steps: seq<Step>) {
    && |states| == |steps| + 1 && Init(c, states[0])
    && forall i: nat :: i < |steps| ==> StepAt(c, states, steps, i)
  }

  lemma {:induction false} RunKeeps(c: Config, states: seq<State>, steps: seq<Step>, i: nat)
    requires Run(c, states, steps) && i < |states| && c.w + c.r > |c.replicas|
    ensures Inv(c, states[i])
  {
    if i > 0 {
      RunKeeps(c, states, steps, i - 1);
      assert StepAt(c, states, steps, i - 1);
      StepKeeps(c, states[i - 1], steps[i - 1], states[i]);
    }
  }

  /** Quorum intersection: in every run, the result of a read covers the version of every write
      that had returned before the read began. */
  lemma ReadsSeeReturnedWrites(c: Config, states: seq<State>, steps: seq<Step>, i: nat, get: nat, put: nat)
    requires Run(c, states, steps) && i < |states| && c.w + c.r > |c.replicas|
    requires get in states[i].gets && states[i].gets[get].result.Some? && put in states[i].gets[get].earlier
    ensures put in states[i].puts
    ensures Covered(states[i].puts[put].item, states[i].gets[get].result.value)
  {
    RunKeeps(c, states, steps, i);
    assert GetInv(c, states[i], states[i].gets[get]);
  }

  // ---------------------------------------------------------------- over the steps alone

  // What a step leaves of an operation once it is there: a write's version, that it returned, the
  // writes a read began after, and its result.
  lemma StepFixes(c: Config, s: State, step: Step, s': State)
    requires Next(c, s, step, s')
    ensures forall p :: p in s.puts ==> p in s'.puts && s'.puts[p].item == s.puts[p].item && (s.puts[p].returned ==> s'.puts[p].returned)
    ensures forall g :: g in s.gets ==> g in s'.gets && s'.gets[g].earlier == s.gets[g].earlier
  {
  }

  lemma {:induction false} PutStays(c: Config, states: seq<State>, steps: seq<Step>, i: nat, j: nat, put: nat)
    requires Run(c, states, steps) && i <= j < |states| && put in states[i].puts
    ensures put in states[j].puts && states[j].puts[put].item == states[i].puts[put].item
    ensures states[i].puts[put].returned ==> states[j].puts[put].returned
    decreases j
  {
    if i < j {
      PutStays(c, states, steps, i, j - 1, put);
      assert StepAt(c, states, steps, j - 1);
      StepFixes(c, states[j - 1], steps[j - 1], states[j]);
    }
  }

  lemma {:induction false} EarlierStays(c: Config, states: seq<State>, steps: seq<Step>, i: nat, j: nat, get: nat)
    requires Run(c, states, steps) && i <= j < |states| && get in states[i].gets
    ensures get in states[j].gets && states[j].gets[get].earlier == states[i].gets[get].earlier
    decreases j
  {
    if i < j {
      EarlierStays(c, states, steps, i, j - 1, get);
      assert StepAt(c, states, steps, j - 1);
      StepFixes(c, states[j - 1], steps[j - 1], states[j]);
    }
  }

  /** The same, over the steps alone: a write started, and returned, before a read started is
      covered by what the read returns. */
  lemma ReadAfterWrite(c: Config, states: seq<State>, steps: seq<Step>, put: nat, get: nat, p: nat, a: nat, b: nat, e: nat)
    requires Run(c, states, steps) && c.w + c.r > |c.replicas| && p < a < b < e < |steps|
    requires steps[p].StartPut? && steps[p].id == put && steps[a] == ReturnPut(put)
    requires steps[b] == StartGet(get) && steps[e].ReturnGet? && steps[e].id == get
    ensures get in states[e + 1].gets && states[e + 1].gets[get].result.Some?
    ensures Covered(steps[p].item, states[e + 1].gets[get].result.value)
  {
    assert put in states[p + 1].puts && states[p + 1].puts[put].item == steps[p].item by { assert StepAt(c, states, steps, p); }
    assert put in states[a + 1].puts && states[a + 1].puts[put].returned by { assert StepAt(c, states, steps, a); }
    PutStays(c, states, steps, a + 1, b, put);
    assert get in states[b + 1].gets && put in states[b + 1].gets[get].earlier by { assert StepAt(c, states, steps, b); }
    EarlierStays(c, states, steps, b + 1, e + 1, get);
    assert states[e + 1].gets[get].result.Some? by { assert StepAt(c, states, steps, e); }
    PutStays(c, states, steps, p + 1, e + 1, put);
    ReadsSeeReturnedWrites(c, states, steps, e + 1, get, put);
  }

  // ---------------------------------------------------------------- what exactly a read returns

  ghost predicate AllSiblings(s: State) {
    && (forall n :: n in s.held ==> Antichain(s.held[n]))
    && (forall g, n :: g in s.gets && n in s.gets[g].answers ==> Antichain(s.gets[g].answers[n]))
  }

  lemma StepKeepsSiblings(c: Config, s: State, step: Step, s': State)
    requires AllSiblings(s) && Next(c, s, step, s')
    ensures AllSiblings(s')
  {
  }

  lemma {:induction false} RunKeepsSiblings(c: Config, states: seq<State>, steps: seq<Step>, i: nat)
    requires Run(c, states, steps) && i < |states| && AllSiblings(states[0])
    ensures AllSiblings(states[i])
  {
    if i > 0 {
      RunKeepsSiblings(c, states, steps, i - 1);
      assert StepAt(c, states, steps, i - 1);
      StepKeepsSiblings(c, states[i - 1], steps[i - 1], states[i]);
    }
  }

  /** In every run of replicas that begin with sibling sets, whatever w and r: what a read returns
      is a sibling set, of versions in the answers it merged, with exactly the maximal clocks of
      them all. */
  lemma ReadsAreMaximal(c: Config, states: seq<State>, steps: seq<Step>, i: nat)
    requires Run(c, states, steps) && i < |steps| && steps[i].ReturnGet? && AllSiblings(states[0])
    ensures steps[i].id in states[i].gets && steps[i].id in states[i + 1].gets
    ensures var g, self, order, result := states[i].gets[steps[i].id], steps[i].self, steps[i].order, states[i + 1].gets[steps[i].id].result;
            && result.Some? && Counts(c, g, self, order)
            && var own := if self.Some? then g.answers[self.value] else [];
               var all := own + Compaction.Concat(AnswersOf(g, order));
               Antichain(result.value) && Subset(result.value, all) && ClockSet(result.value) == MaximalClocks(all)
  {
    RunKeepsSiblings(c, states, steps, i);
    assert StepAt(c, states, steps, i);
    var g, self := states[i].gets[steps[i].id], steps[i].self;
    var own := if self.Some? then g.answers[self.value] else [];
    Q.GatheredIsMaximal(own, AnswersOf(g, steps[i].order));
  }
}
