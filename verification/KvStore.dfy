/** One replicated key-value node: its store, its vote counting and its warm-up. */
module KvStore {
  import opened Basics
  import opened Lww

  datatype Mode = Ap | Cp

  /** Everything a node keeps in memory. `pending` maps each peer to the newest record per key it still has to get. */
  datatype Node = Node(
    clock: nat,
    data: map<Key, Record>,
    pending: map<NodeId, map<Key, Record>>,
    mode: Mode,
    ready: bool)

  function Max(a: nat, b: nat): nat {
    if a < b then b else a
  }

  function Quorum(clusterSize: nat): nat {
    clusterSize / 2 + 1
  }

  function MintNode(n: Node): Node {
    n.(clock := n.clock + 1)
  }

  function MintRecord(n: Node, self: NodeId, value: string): Record {
    Record(value, Version(n.clock + 1, self))
  }

  function ApplyNode(n: Node, w: Write): Node {
    n.(clock := Max(n.clock, w.record.version.counter), data := Merge(n.data, w))
  }

  function EnqueueNode(n: Node, peers: set<NodeId>, w: Write): Node {
    n.(pending := map q | q in n.pending :: if q in peers then Merge(n.pending[q], w) else n.pending[q])
  }

  /** What stays queued after `sent` was acknowledged: every entry that is not the very record that was sent. */
  function Undelivered(queue: map<Key, Record>, sent: map<Key, Record>): map<Key, Record> {
    map k | k in queue && !(k in sent && sent[k] == queue[k]) :: queue[k]
  }

  /** The same while only the keys in `done` have been looked at. */
  function UndeliveredAfter(queue: map<Key, Record>, sent: map<Key, Record>, done: set<Key>): map<Key, Record> {
    map k | k in queue && !(k in done && k in sent && sent[k] == queue[k]) :: queue[k]
  }

  function DropNode(n: Node, peer: NodeId, sent: map<Key, Record>): Node
    requires peer in n.pending
  {
    n.(pending := n.pending[peer := Undelivered(n.pending[peer], sent)])
  }

  function ReplicateNode(n: Node, writes: seq<Write>): Node
    decreases |writes|
  {
    if writes == [] then n else ReplicateNode(ApplyNode(n, writes[0]), writes[1..])
  }

  function CountTrue(answers: seq<bool>): nat {
    if answers == [] then 0 else (if answers[0] then 1 else 0) + CountTrue(answers[1..])
  }

  lemma {:induction false} CountTrueOfAppend(xs: seq<bool>, ys: seq<bool>)
    ensures CountTrue(xs + ys) == CountTrue(xs) + CountTrue(ys)
  {
    if xs == [] {
      assert xs + ys == ys;
    } else {
      assert (xs + ys)[1..] == xs[1..] + ys;
      CountTrueOfAppend(xs[1..], ys);
    }
  }

  lemma {:induction false} CountTrueIsMultiplicity(answers: seq<bool>)
    ensures CountTrue(answers) == multiset(answers)[true]
  {
    if answers != [] {
      assert answers == [answers[0]] + answers[1..];
      CountTrueIsMultiplicity(answers[1..]);
    }
  }

  /** Waits for the peers' answers in completion order and stops as soon as a majority is known. */
  method CountUntilQuorum(answers: seq<bool>, clusterSize: nat) returns (votes: nat)
    requires clusterSize == |answers| + 1
    ensures votes == if 1 + CountTrue(answers) < Quorum(clusterSize) then 1 + CountTrue(answers) else Quorum(clusterSize)
    ensures votes >= Quorum(clusterSize) <==> 1 + CountTrue(answers) >= Quorum(clusterSize)
  {
    votes := 1;
    for i := 0 to |answers|
      invariant votes == 1 + CountTrue(answers[..i])
      invariant i < |answers| ==> votes < Quorum(clusterSize)
      invariant votes <= Quorum(clusterSize)
    {
      assert answers[..i + 1] == answers[..i] + [answers[i]];
      CountTrueOfAppend(answers[..i], [answers[i]]);
      if answers[i] {
        votes := votes + 1;
      }
      if votes >= Quorum(clusterSize) {
        assert answers == answers[..i + 1] + answers[i + 1..];
        CountTrueOfAppend(answers[..i + 1], answers[i + 1..]);
        return;
      }
    }
    assert answers[..|answers|] == answers;
  }

  // The verdict does not depend on the order in which the peers answer.
  lemma VotesIgnoreCompletionOrder(xs: seq<bool>, ys: seq<bool>)
    requires multiset(xs) == multiset(ys)
    ensures CountTrue(xs) == CountTrue(ys)
  {
    CountTrueIsMultiplicity(xs);
    CountTrueIsMultiplicity(ys);
  }

  datatype Status = Ok200 | NotReady503 | NoQuorum503

  /** A peer's final answer to one replication request. */
  datatype Answer = Answer(peer: NodeId, ok: bool)

  function Oks(answers: seq<Answer>): seq<bool> {
    seq(|answers|, i requires 0 <= i < |answers| => answers[i].ok)
  }

  function Missed(answers: seq<Answer>): set<NodeId> {
    set a | a in answers && !a.ok :: a.peer
  }

  /** The node after a PUT that no other thread interleaves with, every peer's answer included. */
  function PutNode(n: Node, self: NodeId, key: Key, value: string, answers: seq<Answer>): (Node, Status) {
    var w := Write(key, MintRecord(n, self, value));
    if !n.ready then (n, NotReady503)
    else if n.mode == Ap then (EnqueueNode(ApplyNode(MintNode(n), w), n.pending.Keys, w), Ok200)
    else if 1 + CountTrue(Oks(answers)) < Quorum(|answers| + 1) then (MintNode(n), NoQuorum503)
    else (ApplyNode(EnqueueNode(MintNode(n), Missed(answers), w), w), Ok200)
  }

  /** The clock is at least every counter the node holds, in its data or in a queue. */
  ghost predicate ClockCovers(n: Node) {
    && (forall k :: k in n.data ==> n.data[k].version.counter <= n.clock)
    && (forall q, k :: q in n.pending && k in n.pending[q] ==> n.pending[q][k].version.counter <= n.clock)
  }

  // The quorum is the least majority.
  lemma QuorumIsLeastMajority(size: nat, votes: nat)
    ensures votes >= Quorum(size) <==> 2 * votes > size
  {
  }

  // A PUT is accepted by a ready node in ap mode, or in cp mode with a majority; refused, it stores nothing.
  lemma PutOutcome(n: Node, self: NodeId, key: Key, value: string, answers: seq<Answer>)
    ensures var (d, status) := PutNode(n, self, key, value, answers);
            && (status == NotReady503 <==> !n.ready)
            && (status == Ok200 <==> n.ready && (n.mode.Ap? || 2 * (1 + CountTrue(Oks(answers))) > |answers| + 1))
            && (status != Ok200 ==> d.data == n.data && d.pending == n.pending)
            && d.clock == n.clock + if n.ready then 1 else 0
  {
    QuorumIsLeastMajority(|answers| + 1, 1 + CountTrue(Oks(answers)));
  }

  // A PUT answered 200 leaves exactly this value under the key: in the node's data, and in the queue of every peer
  // (ap) or of every peer that answered no (cp). Every other key and queue is untouched.
  lemma PutStoresTheValue(n: Node, self: NodeId, key: Key, value: string, answers: seq<Answer>)
    requires ClockCovers(n) && PutNode(n, self, key, value, answers).1 == Ok200
    ensures var d := PutNode(n, self, key, value, answers).0;
            var record := Record(value, Version(n.clock + 1, self));
            && d.clock == n.clock + 1 && d.data == n.data[key := record] && d.pending.Keys == n.pending.Keys
            && (forall q :: q in n.pending ==>
                  d.pending[q] == if n.mode.Ap? || Answer(q, false) in answers then n.pending[q][key := record]
                                  else n.pending[q])
  {
    forall q | q in Missed(answers) ensures Answer(q, false) in answers {
      var a :| a in answers && !a.ok && a.peer == q;
      assert a == Answer(q, false);
    }
  }

  class Store {
    const self: NodeId
    const peers: seq<NodeId>
    var clock: nat
    var data: map<Key, Record>
    var pending: map<NodeId, map<Key, Record>>
    var mode: Mode
    var ready: bool

    constructor (self: NodeId, peers: seq<NodeId>, mode: Mode)
      ensures this.self == self && this.peers == peers
      ensures View() == Node(0, map[], map q | q in peers :: map[], mode, false)
    {
      this.self, this.peers, this.mode := self, peers, mode;
      clock, data, ready := 0, map[], false;
      pending := map q | q in peers :: map[];
    }

    function View(): Node
      reads this
    {
      Node(clock, data, pending, mode, ready)
    }

    ghost predicate Valid()
      reads this
    {
      pending.Keys == Members(peers)
    }

    method NewRecord(value: string) returns (record: Record)
      modifies this`clock
      ensures View() == MintNode(old(View()))
      ensures record == MintRecord(old(View()), self, value)
      ensures clock == old(clock) + 1 && record == Record(value, Version(clock, self))
    {
      clock := clock + 1;
      record := Record(value, Version(clock, self));
    }

    method Apply(key: Key, record: Record) returns (applied: bool)
      modifies this`clock, this`data
      ensures View() == ApplyNode(old(View()), Write(key, record))
      ensures applied <==> IsNewer(record, Lookup(old(data), key))
      ensures clock >= old(clock) && clock >= record.version.counter
      ensures data == if applied then old(data)[key := record] else old(data)
      ensures HoldsAtLeast(data, key, record.version) && NoOlder(old(data), data)
    {
      clock := Max(clock, record.version.counter);
      applied := IsNewer(record, Lookup(data, key));
      if applied {
        data := data[key := record];
      }
    }

    method Enqueue(targets: seq<NodeId>, key: Key, record: Record)
      requires forall q :: q in targets ==> q in pending
      modifies this`pending
      ensures View() == EnqueueNode(old(View()), Members(targets), Write(key, record))
      ensures forall q :: q in targets ==> HoldsAtLeast(pending[q], key, record.version)
    {
      ghost var w := Write(key, record);
      for i := 0 to |targets|
        invariant pending.Keys == old(pending).Keys
        invariant forall q :: q in pending ==>
                                pending[q] == if q in targets[..i] then Merge(old(pending)[q], w) else old(pending)[q]
      {
        var q := targets[i];
        assert targets[..i + 1] == targets[..i] + [q];
        if IsNewer(record, Lookup(pending[q], key)) {
          pending := pending[q := pending[q][key := record]];
        }
      }
      assert targets[..|targets|] == targets;
      assert pending == EnqueueNode(old(View()), Members(targets), w).pending;
    }

    method Snapshot() returns (clockNow: nat, dataNow: map<Key, Record>)
      ensures clockNow == clock && dataNow == data
    {
      return clock, data;
    }

    /** The handler of a peer's replication request; returns how many of its records were stored. */
    method Replicate(writes: seq<Write>) returns (applied: nat)
      modifies this`clock, this`data
      ensures View() == ReplicateNode(old(View()), writes)
      ensures applied == AppliedCount(old(data), writes)
    {
      applied := 0;
      for i := 0 to |writes|
        invariant unchanged(this`pending, this`mode, this`ready)
        invariant ReplicateNode(View(), writes[i..]) == ReplicateNode(old(View()), writes)
        invariant applied + AppliedCount(data, writes[i..]) == AppliedCount(old(data), writes)
      {
        assert writes[i..][1..] == writes[i + 1..];
        var stored := Apply(writes[i].key, writes[i].record);
        if stored {
          applied := applied + 1;
        }
      }
    }

    /** The second half of one sync exchange: forget what the peer acknowledged, if it is still the record sent. */
    method DropDelivered(peer: NodeId, sent: map<Key, Record>)
      requires peer in pending
      modifies this`pending
      ensures View() == DropNode(old(View()), peer, sent)
    {
      var left := sent.Keys;
      ghost var queue := pending[peer];
      assert UndeliveredAfter(queue, sent, left - left) == queue;
      while left != {}
        invariant left <= sent.Keys
        invariant pending == old(pending)[peer := UndeliveredAfter(queue, sent, sent.Keys - left)]
        decreases |left|
      {
        var k :| k in left;
        ghost var done := sent.Keys - left;
        left := left - {k};
        assert sent.Keys - left == done + {k};
        assert UndeliveredAfter(queue, sent, done + {k}) ==
               if k in queue && sent[k] == queue[k] then UndeliveredAfter(queue, sent, done) - {k}
               else UndeliveredAfter(queue, sent, done);
        if k in pending[peer] && pending[peer][k] == sent[k] {
          pending := pending[peer := pending[peer] - {k}];
        }
      }
      assert sent.Keys - left == sent.Keys;
      assert UndeliveredAfter(queue, sent, sent.Keys) == Undelivered(queue, sent);
    }

    /** One round of the background sync that runs alone; `acked` are the peers that acknowledge what they are sent. */
    method SyncRound(acked: set<NodeId>)
      requires Valid()
      modifies this`pending
      ensures Valid()
      ensures forall q :: q in pending ==> pending[q] == if q in acked then map[] else old(pending)[q]
    {
      for i := 0 to |peers|
        invariant pending.Keys == old(pending).Keys
        invariant forall q :: q in pending ==>
                                pending[q] == if q in acked && q in peers[..i] then map[] else old(pending)[q]
      {
        var q := peers[i];
        assert peers[..i + 1] == peers[..i] + [q];
        assert q in pending;
        var queued := pending[q];
        if queued != map[] {
          if q in acked {
            DropDelivered(q, queued);
            assert Undelivered(queued, queued) == map[];
          }
        }
      }
      assert peers[..|peers|] == peers;
    }

    /** Copies the data of every peer that answered (`None` is a peer that did not), then serves. */
    method WarmUp(snapshots: seq<Option<map<Key, Record>>>)
      modifies this`clock, this`data, this`ready
      ensures ready && CaughtUp(old(View()), View(), Reached(snapshots))
    {
      ghost var order: seq<Write> := [];
      for i := 0 to |snapshots|
        invariant View() == ReplicateNode(old(View()), order)
        invariant WritesIn(order) == Reached(snapshots[..i])
      {
        assert snapshots[..i + 1] == snapshots[..i] + [snapshots[i]];
        ReachedOfAppend(snapshots[..i], snapshots[i]);
        if snapshots[i].Some? {
          ghost var more := WarmUpFrom(snapshots[i].value);
          ReplicateOfAppend(old(View()), order, more);
          assert WritesIn(order + more) == WritesIn(order) + WritesIn(more);
          order := order + more;
        }
      }
      assert snapshots[..|snapshots|] == snapshots;
      ReplicateCatchesUp(old(View()), order);
      ready := true;
    }

    method WarmUpFrom(snap: map<Key, Record>) returns (ghost order: seq<Write>)
      modifies this`clock, this`data
      ensures View() == ReplicateNode(old(View()), order)
      ensures WritesIn(order) == WritesOf(snap)
    {
      order := [];
      var left := snap.Keys;
      while left != {}
        invariant left <= snap.Keys
        invariant View() == ReplicateNode(old(View()), order)
        invariant forall w :: w in order <==> w.key in snap && w.key !in left && w.record == snap[w.key]
        decreases |left|
      {
        var k :| k in left;
        left := left - {k};
        ReplicateOfAppend(old(View()), order, [Write(k, snap[k])]);
        order := order + [Write(k, snap[k])];
        var _ := Apply(k, snap[k]);
      }
    }

    /** The done-callbacks of a committed write: every peer that answered no is queued for the background sync. */
    method QueueMissed(answers: seq<Answer>, key: Key, record: Record)
      requires forall a :: a in answers ==> a.peer in pending
      modifies this`pending
      ensures View() == EnqueueNode(old(View()), Missed(answers), Write(key, record))
    {
      ghost var w := Write(key, record);
      assert EnqueueNode(View(), Missed([]), w) == View();
      for i := 0 to |answers|
        invariant View() == EnqueueNode(old(View()), Missed(answers[..i]), w)
      {
        EnqueueOneMore(old(View()), answers, i, w);
        if !answers[i].ok {
          Enqueue([answers[i].peer], key, record);
        }
      }
      assert answers[..|answers|] == answers;
    }

    /** A PUT that runs without interleaving; `answers` are the peers' answers in completion order. */
    method Put(key: Key, value: string, answers: seq<Answer>) returns (status: Status)
      requires Valid()
      requires |answers| == |peers| && forall a :: a in answers ==> a.peer in peers
      modifies this`clock, this`data, this`pending
      ensures (View(), status) == PutNode(old(View()), self, key, value, answers)
      ensures Valid()
      ensures status == NotReady503 <==> !ready
      ensures status == Ok200 <==> ready && (mode.Ap? || 2 * (1 + CountTrue(Oks(answers))) > |answers| + 1)
      ensures status != Ok200 ==> data == old(data) && pending == old(pending)
      ensures clock == old(clock) + if ready then 1 else 0
      ensures status == Ok200 && ClockCovers(old(View())) ==>
                var record := Record(value, Version(old(clock) + 1, self));
                && data == old(data)[key := record]
                && forall q :: q in pending ==>
                     pending[q] == if mode.Ap? || Answer(q, false) in answers then old(pending)[q][key := record]
                                   else old(pending)[q]
    {
      ghost var before := View();
      PutOutcome(before, self, key, value, answers);
      if ClockCovers(before) && PutNode(before, self, key, value, answers).1 == Ok200 {
        PutStoresTheValue(before, self, key, value, answers);
      }
      if !ready {
        return NotReady503;
      }
      var record := NewRecord(value);
      if mode == Cp {
        var acks := CountUntilQuorum(Oks(answers), |answers| + 1);
        if acks < Quorum(|answers| + 1) {
          return NoQuorum503;
        }
        QueueMissed(answers, key, record);
        var _ := Apply(key, record);
        return Ok200;
      }
      var _ := Apply(key, record);
      Enqueue(peers, key, record);
      return Ok200;
    }
  }

  lemma EnqueueOneMore(n: Node, answers: seq<Answer>, i: nat, w: Write)
    requires i < |answers|
    ensures EnqueueNode(n, Missed(answers[..i + 1]), w) ==
            if answers[i].ok then EnqueueNode(n, Missed(answers[..i]), w)
            else EnqueueNode(EnqueueNode(n, Missed(answers[..i]), w), Members([answers[i].peer]), w)
  {
    assert answers[..i + 1] == answers[..i] + [answers[i]];
    assert Missed(answers[..i + 1]) == Missed(answers[..i]) + (if answers[i].ok then {} else {answers[i].peer});
    assert Members([answers[i].peer]) == {answers[i].peer};
  }

  function Reached(snapshots: seq<Option<map<Key, Record>>>): set<Write> {
    set s, k | s in snapshots && s.Some? && k in s.value :: Write(k, s.value[k])
  }

  /** `now` is `start` after it took in exactly `writes`: the newest of both, and the clock they call for. */
  ghost predicate CaughtUp(start: Node, now: Node, writes: set<Write>) {
    && now.pending == start.pending && now.mode == start.mode
    && IsPointwiseNewest(now.data, WritesOf(start.data) + writes)
    && now.clock >= start.clock
    && (forall w :: w in writes ==> w.record.version.counter <= now.clock)
    && (now.clock == start.clock || exists w :: w in writes && w.record.version.counter == now.clock)
  }

  lemma {:induction false} ReplicateOfAppend(n: Node, xs: seq<Write>, ys: seq<Write>)
    ensures ReplicateNode(n, xs + ys) == ReplicateNode(ReplicateNode(n, xs), ys)
    decreases |xs|
  {
    if xs == [] {
      assert xs + ys == ys;
    } else {
      assert (xs + ys)[1..] == xs[1..] + ys;
      ReplicateOfAppend(ApplyNode(n, xs[0]), xs[1..], ys);
    }
  }

  lemma {:induction false} ReplicateClock(n: Node, order: seq<Write>)
    ensures ReplicateNode(n, order).clock == n.clock
            || exists w :: w in order && w.record.version.counter == ReplicateNode(n, order).clock
    decreases |order|
  {
    if order != [] {
      assert order == [order[0]] + order[1..];
      ReplicateClock(ApplyNode(n, order[0]), order[1..]);
      assert order[0] in order;
    }
  }

  lemma ReplicateCatchesUp(n: Node, order: seq<Write>)
    ensures CaughtUp(n, ReplicateNode(n, order), WritesIn(order))
  {
    ReplicateIsMergeAll(n, order);
    ReplicateClock(n, order);
    assert IsPointwiseNewest(n.data, WritesOf(n.data));
    MergeAllIsPointwiseNewest(n.data, order, WritesOf(n.data));
  }

  lemma ReachedOfAppend(snapshots: seq<Option<map<Key, Record>>>, last: Option<map<Key, Record>>)
    ensures Reached(snapshots + [last]) == Reached(snapshots) + if last.Some? then WritesOf(last.value) else {}
  {
    var all := snapshots + [last];
    assert all[|snapshots|] == last;
    forall s | s in all ensures s in snapshots || s == last {}
    forall s | s in snapshots ensures s in all {}
  }

  lemma SameClock(start: Node, a: Node, b: Node, writes: set<Write>)
    requires CaughtUp(start, a, writes) && CaughtUp(start, b, writes)
    ensures a.clock <= b.clock
  {
    if a.clock != start.clock {
      var w :| w in writes && w.record.version.counter == a.clock;
    }
  }

  // A node that warms up ends in the same state whatever the order of the peers: data, clock, queues and mode.
  lemma WarmUpIgnoresPeerOrder(start: Node, xs: seq<Option<map<Key, Record>>>, ys: seq<Option<map<Key, Record>>>,
                               a: Node, b: Node)
    requires multiset(xs) == multiset(ys)
    requires UniqueVersions(WritesOf(start.data) + Reached(xs))
    requires a.ready && CaughtUp(start, a, Reached(xs))
    requires b.ready && CaughtUp(start, b, Reached(ys))
    ensures a == b
  {
    SameReached(xs, ys);
    SameClock(start, a, b, Reached(xs));
    SameClock(start, b, a, Reached(xs));
    PointwiseNewestIsUnique(a.data, b.data, WritesOf(start.data) + Reached(xs));
  }

  lemma SameReached(xs: seq<Option<map<Key, Record>>>, ys: seq<Option<map<Key, Record>>>)
    requires multiset(xs) == multiset(ys)
    ensures Reached(xs) == Reached(ys)
  {
    assert forall s :: s in xs <==> s in multiset(xs);
    assert forall s :: s in ys <==> s in multiset(ys);
  }

  // A batch leaves the data the pure fold leaves, and a clock no counter in the batch exceeds.
  lemma {:induction false} ReplicateIsMergeAll(n: Node, writes: seq<Write>)
    ensures ReplicateNode(n, writes).data == MergeAll(n.data, writes)
    ensures ReplicateNode(n, writes).clock >= n.clock
    ensures forall w :: w in writes ==> w.record.version.counter <= ReplicateNode(n, writes).clock
    ensures ReplicateNode(n, writes) == n.(clock := ReplicateNode(n, writes).clock, data := MergeAll(n.data, writes))
    decreases |writes|
  {
    if writes != [] {
      ReplicateIsMergeAll(ApplyNode(n, writes[0]), writes[1..]);
      assert writes == [writes[0]] + writes[1..];
    }
  }
}
