/** Every step keeps the cluster invariant. */
module KvProofs {
  import opened Basics
  import opened Lww
  import opened KvStore
  import opened KvCluster

  // ---- what no step undoes ----

  /** Data and clocks only move forward, and nothing leaves a queue before its peer holds it. */
  ghost predicate NodesGrow(xs: seq<Node>, ys: seq<Node>) {
    && |xs| == |ys|
    && (forall n :: 0 <= n < |xs| ==> NoOlder(xs[n].data, ys[n].data) && xs[n].clock <= ys[n].clock)
    && (forall n, q, k :: 0 <= n < |xs| && q in xs[n].pending && k in xs[n].pending[q] ==>
                            StillComing(ys, n, q, Write(k, xs[n].pending[q][k])))
  }

  predicate StillComing(nodes: seq<Node>, n: NodeId, q: NodeId, w: Write) {
    Holds(nodes, q, w) || Queued(nodes, n, q, w)
  }

  ghost predicate PutsGrow(xs: seq<Put>, ys: seq<Put>) {
    && |xs| <= |ys|
    && forall p :: 0 <= p < |xs| ==>
                     && ys[p].origin == xs[p].origin && ys[p].write == xs[p].write
                     && (Visible(xs[p]) ==> Visible(ys[p]))
  }

  lemma CoveredForever(xs: seq<Node>, ys: seq<Node>, put: Put, q: NodeId)
    requires NodesGrow(xs, ys) && Covered(xs, put, q)
    ensures Covered(ys, put, q)
  {
    if Queued(xs, put.origin, q, put.write) {
      var held := xs[put.origin].pending[q][put.write.key];
      assert StillComing(ys, put.origin, q, Write(put.write.key, held));
    }
  }

  lemma WrittenForever(xs: seq<Put>, ys: seq<Put>, items: map<Key, Record>)
    requires PutsGrow(xs, ys) && AllWritten(xs, items)
    ensures AllWritten(ys, items)
  {
    forall k | k in items ensures Written(ys, Write(k, items[k])) {
      assert Written(xs, Write(k, items[k]));
      var p :| 0 <= p < |xs| && Visible(xs[p]) && xs[p].write == Write(k, items[k]);
      assert Visible(ys[p]) && ys[p].write == Write(k, items[k]);
    }
  }

  lemma PutStaysOk(xs: seq<Node>, ys: seq<Node>, put: Put)
    requires NodesGrow(xs, ys) && PutOk(xs, put)
    ensures PutOk(ys, put)
  {
    if put.stage.ApDone? {
      forall q | q in Peers(|ys|, put.origin) ensures Covered(ys, put, q) {
        CoveredForever(xs, ys, put, q);
      }
    }
    forall q | q in put.calls ensures CallOk(ys, put, q, put.calls[q]) {
      if put.calls[q].settled {
        CoveredForever(xs, ys, put, q);
      }
    }
  }

  lemma SyncStaysOk(puts: seq<Put>, xs: seq<Node>, ys: seq<Node>, sync: Sync)
    requires NodesGrow(xs, ys) && SyncOk(puts, xs, sync)
    ensures SyncOk(puts, ys, sync)
  {
  }

  // ---- the invariant under one change of a node, a PUT, a sync exchange or a copy ----

  lemma NodeChange(c: Cluster, n: NodeId, node: Node)
    requires Inv(c) && n < |c.nodes| && NodeOk(c.puts, |c.nodes|, n, node)
    requires NodesGrow(c.nodes, c.nodes[n := node])
    ensures Inv(SetNode(c, n, node))
  {
    var d := SetNode(c, n, node);
    forall p | 0 <= p < |d.puts| ensures PutOk(d.nodes, d.puts[p]) {
      PutStaysOk(c.nodes, d.nodes, c.puts[p]);
    }
    forall s | 0 <= s < |d.syncs| ensures SyncOk(d.puts, d.nodes, d.syncs[s]) {
      SyncStaysOk(c.puts, c.nodes, d.nodes, c.syncs[s]);
    }
  }

  lemma PutsChange(c: Cluster, puts: seq<Put>)
    requires Inv(c) && PutsGrow(c.puts, puts) && VersionsUnique(puts)
    requires forall p :: 0 <= p < |puts| ==> PutOk(c.nodes, puts[p])
    ensures Inv(c.(puts := puts))
  {
    forall n | 0 <= n < |c.nodes| ensures NodeOk(puts, |c.nodes|, n, c.nodes[n]) {
      NodeStaysOk(c.puts, puts, |c.nodes|, n, c.nodes[n]);
    }
    forall s | 0 <= s < |c.syncs| ensures SyncOk(puts, c.nodes, c.syncs[s]) {
      WrittenForever(c.puts, puts, c.syncs[s].items);
    }
    forall i | 0 <= i < |c.copies| ensures CopyOk(puts, |c.nodes|, c.copies[i]) {
      WrittenForever(c.puts, puts, c.copies[i].items);
    }
  }

  lemma NodeStaysOk(xs: seq<Put>, ys: seq<Put>, size: nat, n: NodeId, node: Node)
    requires PutsGrow(xs, ys) && NodeOk(xs, size, n, node)
    ensures NodeOk(ys, size, n, node)
  {
    WrittenForever(xs, ys, node.data);
    forall q | q in node.pending ensures QueueOk(ys, n, node.clock, node.pending[q]) {
      WrittenForever(xs, ys, node.pending[q]);
    }
  }

  lemma PutChange(c: Cluster, p: nat, put: Put)
    requires Inv(c) && p < |c.puts| && PutOk(c.nodes, put)
    requires put.origin == c.puts[p].origin && put.write == c.puts[p].write
    requires Visible(c.puts[p]) ==> Visible(put)
    ensures Inv(SetPut(c, p, put))
  {
    PutsChange(c, c.puts[p := put]);
  }

  // ---- the four changes of a node ----

  lemma MergeKeepsWritten(puts: seq<Put>, items: map<Key, Record>, w: Write)
    requires AllWritten(puts, items) && Written(puts, w)
    ensures AllWritten(puts, Merge(items, w))
  {
  }

  lemma ApplyGrows(nodes: seq<Node>, n: NodeId, w: Write)
    requires n < |nodes|
    ensures NodesGrow(nodes, nodes[n := ApplyNode(nodes[n], w)])
    ensures Holds(nodes[n := ApplyNode(nodes[n], w)], n, w)
  {
    var after := nodes[n := ApplyNode(nodes[n], w)];
    forall m, q, k | 0 <= m < |nodes| && q in nodes[m].pending && k in nodes[m].pending[q]
      ensures StillComing(after, m, q, Write(k, nodes[m].pending[q][k]))
    {
      assert after[m].pending == nodes[m].pending;
    }
  }

  lemma ApplyKeepsInv(c: Cluster, n: NodeId, w: Write)
    requires Inv(c) && n < |c.nodes| && Written(c.puts, w)
    ensures Inv(SetNode(c, n, ApplyNode(c.nodes[n], w)))
    ensures Holds(SetNode(c, n, ApplyNode(c.nodes[n], w)).nodes, n, w)
  {
    NodeIsOk(c, n);
    ApplyKeepsNodeOk(c.puts, |c.nodes|, n, c.nodes[n], w);
    ApplyGrows(c.nodes, n, w);
    NodeChange(c, n, ApplyNode(c.nodes[n], w));
  }

  lemma EnqueueGrows(nodes: seq<Node>, n: NodeId, peers: set<NodeId>, w: Write)
    requires n < |nodes| && peers <= nodes[n].pending.Keys
    ensures NodesGrow(nodes, nodes[n := EnqueueNode(nodes[n], peers, w)])
    ensures forall q :: q in peers ==> Queued(nodes[n := EnqueueNode(nodes[n], peers, w)], n, q, w)
  {
    var after := nodes[n := EnqueueNode(nodes[n], peers, w)];
    forall m, q, k | 0 <= m < |nodes| && q in nodes[m].pending && k in nodes[m].pending[q]
      ensures StillComing(after, m, q, Write(k, nodes[m].pending[q][k]))
    {
      assert q in after[m].pending;
      assert after[m].pending[q] == nodes[m].pending[q] || after[m].pending[q] == Merge(nodes[m].pending[q], w);
    }
  }

  lemma MergeKeepsQueueOk(puts: seq<Put>, n: NodeId, clock: nat, queue: map<Key, Record>, w: Write)
    requires QueueOk(puts, n, clock, queue)
    requires Written(puts, w) && w.record.version.node == n && w.record.version.counter <= clock
    ensures QueueOk(puts, n, clock, Merge(queue, w))
  {
  }

  lemma EnqueueKeepsInv(c: Cluster, peers: set<NodeId>, p: nat)
    requires Inv(c) && p < |c.puts| && c.puts[p].origin < |c.nodes| && Visible(c.puts[p])
    requires peers <= c.nodes[c.puts[p].origin].pending.Keys
    ensures Inv(SetNode(c, c.puts[p].origin, EnqueueNode(c.nodes[c.puts[p].origin], peers, c.puts[p].write)))
  {
    var n, w := c.puts[p].origin, c.puts[p].write;
    var node := c.nodes[n];
    assert Written(c.puts, w);
    assert NodeOk(c.puts, |c.nodes|, n, node);
    assert PutOk(c.nodes, c.puts[p]);
    forall q | q in node.pending ensures QueueOk(c.puts, n, node.clock, EnqueueNode(node, peers, w).pending[q]) {
      assert QueueOk(c.puts, n, node.clock, node.pending[q]);
      MergeKeepsQueueOk(c.puts, n, node.clock, node.pending[q], w);
    }
    EnqueueGrows(c.nodes, n, peers, w);
    NodeChange(c, n, EnqueueNode(node, peers, w));
  }

  lemma DropGrows(nodes: seq<Node>, n: NodeId, q: NodeId, sent: map<Key, Record>)
    requires n < |nodes| && q in nodes[n].pending && n != q
    requires forall k :: k in sent ==> Holds(nodes, q, Write(k, sent[k]))
    ensures NodesGrow(nodes, nodes[n := DropNode(nodes[n], q, sent)])
  {
    var after := nodes[n := DropNode(nodes[n], q, sent)];
    forall m, r, k | 0 <= m < |nodes| && r in nodes[m].pending && k in nodes[m].pending[r]
      ensures StillComing(after, m, r, Write(k, nodes[m].pending[r][k]))
    {
      if m == n && r == q && k in sent && sent[k] == nodes[m].pending[r][k] {
        assert Holds(nodes, q, Write(k, sent[k]));
        assert Holds(after, q, Write(k, sent[k]));
      } else {
        assert k in after[m].pending[r] && after[m].pending[r][k] == nodes[m].pending[r][k];
      }
    }
  }

  lemma DropKeepsNodeOk(puts: seq<Put>, size: nat, n: NodeId, node: Node, q: NodeId, sent: map<Key, Record>)
    requires NodeOk(puts, size, n, node) && q in node.pending
    ensures NodeOk(puts, size, n, DropNode(node, q, sent))
  {
    assert QueueOk(puts, n, node.clock, node.pending[q]);
    assert QueueOk(puts, n, node.clock, Undelivered(node.pending[q], sent));
  }

  lemma DropKeepsInv(c: Cluster, s: nat)
    requires Inv(c) && Enabled(c, SyncDrop(s))
    ensures Inv(SetNode(c, c.syncs[s].from, DropNode(c.nodes[c.syncs[s].from], c.syncs[s].to, c.syncs[s].items)))
  {
    var sync := c.syncs[s];
    SyncIsOk(c, s);
    NodeIsOk(c, sync.from);
    DropKeepsNodeOk(c.puts, |c.nodes|, sync.from, c.nodes[sync.from], sync.to, sync.items);
    DropGrows(c.nodes, sync.from, sync.to, sync.items);
    NodeChange(c, sync.from, DropNode(c.nodes[sync.from], sync.to, sync.items));
  }

  lemma SyncIsOk(c: Cluster, s: nat)
    requires Inv(c) && s < |c.syncs|
    ensures SyncOk(c.puts, c.nodes, c.syncs[s])
  {
  }

  lemma NodeIsOk(c: Cluster, n: NodeId)
    requires Inv(c) && n < |c.nodes|
    ensures NodeOk(c.puts, |c.nodes|, n, c.nodes[n])
  {
  }

  lemma PutIsOk(c: Cluster, p: nat)
    requires Inv(c) && p < |c.puts|
    ensures PutOk(c.nodes, c.puts[p])
    ensures Visible(c.puts[p]) ==> Written(c.puts, c.puts[p].write)
  {
  }

  // ---- every step ----

  lemma MintKeepsInv(c: Cluster, n: NodeId, key: Key, value: string)
    requires Inv(c) && Enabled(c, Mint(n, key, value))
    ensures Inv(Next(c, Mint(n, key, value)))
  {
    NodeIsOk(c, n);
    MintKeepsNodeOk(c.puts, |c.nodes|, n, c.nodes[n]);
    NodeChange(c, n, MintNode(c.nodes[n]));
    var d := SetNode(c, n, MintNode(c.nodes[n]));
    var put := Put(n, Write(key, MintRecord(c.nodes[n], n, value)), Minted, map[]);
    forall p | 0 <= p < |c.puts| ensures c.puts[p].write.record.version != put.write.record.version {
      PutIsOk(c, p);
    }
    NewPutOk(d.nodes, put);
    AddPut(d, put);
  }

  lemma NewPutOk(nodes: seq<Node>, put: Put)
    requires put.origin < |nodes| && put.stage.Minted? && put.calls == map[] && MintedBy(put, nodes[put.origin].clock)
    ensures PutOk(nodes, put)
  {
  }

  lemma AddPut(c: Cluster, put: Put)
    requires Inv(c) && PutOk(c.nodes, put)
    requires forall p :: 0 <= p < |c.puts| ==> c.puts[p].write.record.version != put.write.record.version
    ensures Inv(c.(puts := c.puts + [put]))
  {
    PutsChange(c, c.puts + [put]);
  }

  lemma MintKeepsNodeOk(puts: seq<Put>, size: nat, n: NodeId, node: Node)
    requires NodeOk(puts, size, n, node)
    ensures NodeOk(puts, size, n, MintNode(node))
  {
    forall q | q in node.pending ensures QueueOk(puts, n, MintNode(node).clock, node.pending[q]) {
      assert QueueOk(puts, n, node.clock, node.pending[q]);
    }
  }

  lemma ApStoreKeepsInv(c: Cluster, p: nat)
    requires Inv(c) && Enabled(c, KvCluster.ApStore(p))
    ensures Inv(Next(c, KvCluster.ApStore(p)))
  {
    var put := c.puts[p];
    var stored := put.(stage := ApStored);
    var n := put.origin;
    var d := Next(c, KvCluster.ApStore(p));
    assert PutOk(c.nodes, put);
    // The PUT becomes visible as a write that no promise was made about yet, is applied, and then counts as stored.
    PutChange(c, p, put.(stage := CpChosen));
    ApplyGrows(c.nodes, n, put.write);
    PutStaysOk(c.nodes, d.nodes, put);
    assert PutOk(d.nodes, stored);
    VisibleThenApplied(c, p, stored);
  }

  lemma ApplyKeepsNodeOk(puts: seq<Put>, size: nat, n: NodeId, node: Node, w: Write)
    requires NodeOk(puts, size, n, node) && Written(puts, w)
    ensures NodeOk(puts, size, n, ApplyNode(node, w))
  {
    MergeKeepsWritten(puts, node.data, w);
    forall q | q in node.pending ensures QueueOk(puts, n, ApplyNode(node, w).clock, node.pending[q]) {
      assert QueueOk(puts, n, node.clock, node.pending[q]);
    }
  }

  /** One PUT becomes visible and its record is applied where it was minted. */
  lemma VisibleThenApplied(c: Cluster, p: nat, stored: Put)
    requires Inv(c) && p < |c.puts|
    requires stored.origin == c.puts[p].origin && stored.write == c.puts[p].write && stored.origin < |c.nodes|
    requires Visible(stored)
    requires PutOk(c.nodes[stored.origin := ApplyNode(c.nodes[stored.origin], stored.write)], stored)
    ensures Inv(SetNode(SetPut(c, p, stored), stored.origin, ApplyNode(c.nodes[stored.origin], stored.write)))
  {
    var n := stored.origin;
    var puts := c.puts[p := stored];
    var nodes := c.nodes[n := ApplyNode(c.nodes[n], stored.write)];
    assert Written(puts, stored.write) by { assert puts[p] == stored; }
    assert PutsGrow(c.puts, puts);
    ApplyGrows(c.nodes, n, stored.write);
    forall m | 0 <= m < |nodes| ensures NodeOk(puts, |nodes|, m, nodes[m]) {
      NodeIsOk(c, m);
      NodeStaysOk(c.puts, puts, |nodes|, m, c.nodes[m]);
      if m == n {
        ApplyKeepsNodeOk(puts, |nodes|, n, c.nodes[n], stored.write);
      }
    }
    forall i | 0 <= i < |puts| ensures PutOk(nodes, puts[i]) {
      if i != p {
        PutIsOk(c, i);
        PutStaysOk(c.nodes, nodes, c.puts[i]);
      }
    }
    forall s | 0 <= s < |c.syncs| ensures SyncOk(puts, nodes, c.syncs[s]) {
      SyncIsOk(c, s);
      SyncStaysOk(c.puts, c.nodes, nodes, c.syncs[s]);
      WrittenForever(c.puts, puts, c.syncs[s].items);
    }
    forall i | 0 <= i < |c.copies| ensures CopyOk(puts, |nodes|, c.copies[i]) {
      assert CopyOk(c.puts, |c.nodes|, c.copies[i]);
      WrittenForever(c.puts, puts, c.copies[i].items);
    }
  }

  lemma ApDoneOk(nodes: seq<Node>, put: Put)
    requires PutOk(nodes, put) && put.stage.ApStored?
    requires forall q :: q in Peers(|nodes|, put.origin) ==> Queued(nodes, put.origin, q, put.write)
    ensures PutOk(nodes, put.(stage := ApDone))
  {
    var done := put.(stage := ApDone);
    forall q | q in Peers(|nodes|, put.origin) ensures Covered(nodes, done, q) {
      assert Queued(nodes, put.origin, q, put.write);
    }
  }

  lemma ApEnqueueKeepsInv(c: Cluster, p: nat)
    requires Inv(c) && Enabled(c, ApEnqueue(p))
    ensures Inv(Next(c, ApEnqueue(p)))
  {
    var put := c.puts[p];
    var node := c.nodes[put.origin];
    assert NodeOk(c.puts, |c.nodes|, put.origin, node);
    EnqueueKeepsInv(c, node.pending.Keys, p);
    EnqueueGrows(c.nodes, put.origin, node.pending.Keys, put.write);
    var d := SetNode(c, put.origin, EnqueueNode(node, node.pending.Keys, put.write));
    ApDoneOk(d.nodes, d.puts[p]);
    PutChange(d, p, put.(stage := ApDone));
  }

  lemma CpSendKeepsInv(c: Cluster, p: nat)
    requires Inv(c) && Enabled(c, CpSend(p))
    ensures Inv(Next(c, CpSend(p)))
  {
    var put := c.puts[p];
    assert PutOk(c.nodes, put);
    PutChange(c, p, Next(c, CpSend(p)).puts[p]);
  }

  lemma AckersAfterCall(put: Put, q: NodeId, call: PeerCall)
    requires q in put.calls && (put.calls[q].result == Some(true) ==> call.result == Some(true))
    ensures |Ackers(SetCall(put, q, call))| >= |Ackers(put)|
  {
    SubsetIsSmaller(Ackers(put), Ackers(SetCall(put, q, call)));
  }

  lemma CallChangeOk(nodes: seq<Node>, put: Put, q: NodeId, call: PeerCall)
    requires PutOk(nodes, put) && q in put.calls && CallOk(nodes, put, q, call)
    requires put.calls[q].result == Some(true) ==> call.result == Some(true)
    ensures PutOk(nodes, SetCall(put, q, call))
  {
    var after := SetCall(put, q, call);
    assert after.calls.Keys == put.calls.Keys;
    AckersAfterCall(put, q, call);
    forall r | r in after.calls ensures CallOk(nodes, after, r, after.calls[r]) {
      assert CallOk(nodes, put, r, if r == q then call else put.calls[r]);
    }
  }

  lemma CallChange(c: Cluster, p: nat, q: NodeId, call: PeerCall)
    requires Inv(c) && p < |c.puts| && q in c.puts[p].calls && CallOk(c.nodes, c.puts[p], q, call)
    requires c.puts[p].calls[q].result == Some(true) ==> call.result == Some(true)
    ensures Inv(SetPut(c, p, SetCall(c.puts[p], q, call)))
  {
    CallChangeOk(c.nodes, c.puts[p], q, call);
    PutChange(c, p, SetCall(c.puts[p], q, call));
  }

  lemma CallIsOk(c: Cluster, p: nat, q: NodeId)
    requires Inv(c) && p < |c.puts| && q in c.puts[p].calls
    ensures CallOk(c.nodes, c.puts[p], q, c.puts[p].calls[q]) && Visible(c.puts[p])
    ensures Written(c.puts, c.puts[p].write)
  {
    assert PutOk(c.nodes, c.puts[p]);
  }

  lemma CpDeliverKeepsInv(c: Cluster, p: nat, q: NodeId)
    requires Inv(c) && Enabled(c, CpDeliver(p, q))
    ensures Inv(Next(c, CpDeliver(p, q)))
  {
    var put := c.puts[p];
    CallIsOk(c, p, q);
    ApplyKeepsInv(c, q, put.write);
    var d := SetNode(c, q, ApplyNode(c.nodes[q], put.write));
    CallIsOk(d, p, q);
    CallChange(d, p, q, put.calls[q].(delivered := true));
  }

  lemma CpAnswerKeepsInv(c: Cluster, p: nat, q: NodeId, ok: bool)
    requires Inv(c) && Enabled(c, CpAnswer(p, q, ok))
    ensures Inv(Next(c, CpAnswer(p, q, ok)))
  {
    CallIsOk(c, p, q);
    CallChange(c, p, q, c.puts[p].calls[q].(result := Some(ok)));
  }

  lemma CpCallbackKeepsInv(c: Cluster, p: nat, q: NodeId)
    requires Inv(c) && Enabled(c, CpCallback(p, q))
    ensures Inv(Next(c, CpCallback(p, q)))
  {
    var put := c.puts[p];
    CallIsOk(c, p, q);
    if put.calls[q].result.value {
      CallChange(c, p, q, put.calls[q].(settled := true));
    } else {
      var node := c.nodes[put.origin];
      assert NodeOk(c.puts, |c.nodes|, put.origin, node);
      assert PutOk(c.nodes, put);
      EnqueueKeepsInv(c, {q}, p);
      EnqueueGrows(c.nodes, put.origin, {q}, put.write);
      var d := SetNode(c, put.origin, EnqueueNode(node, {q}, put.write));
      CallIsOk(d, p, q);
      CallChange(d, p, q, put.calls[q].(settled := true));
    }
  }

  lemma CpDecideKeepsInv(c: Cluster, p: nat, a: Action)
    requires Inv(c) && (a == CpCommit(p) || a == CpReject(p)) && Enabled(c, a)
    ensures Inv(Next(c, a))
  {
    var put := c.puts[p];
    assert PutOk(c.nodes, put);
    var after := Next(c, a).puts[p];
    assert Ackers(after) == Ackers(put);
    PutChange(c, p, after);
  }

  lemma CpDoneOk(nodes: seq<Node>, put: Put)
    requires PutOk(nodes, put) && put.stage.CpCommitted? && Holds(nodes, put.origin, put.write)
    ensures PutOk(nodes, put.(stage := CpDone))
  {
    var done := put.(stage := CpDone);
    assert Ackers(done) == Ackers(put);
    forall q | q in done.calls ensures CallOk(nodes, done, q, done.calls[q]) {
      assert CallOk(nodes, put, q, put.calls[q]);
    }
  }

  lemma CpStoreKeepsInv(c: Cluster, p: nat)
    requires Inv(c) && Enabled(c, CpStore(p))
    ensures Inv(Next(c, CpStore(p)))
  {
    var put := c.puts[p];
    PutIsOk(c, p);
    ApplyKeepsInv(c, put.origin, put.write);
    var d := SetNode(c, put.origin, ApplyNode(c.nodes[put.origin], put.write));
    PutIsOk(d, p);
    CpDoneOk(d.nodes, put);
    PutChange(d, p, put.(stage := CpDone));
  }

  lemma SyncChange(c: Cluster, syncs: seq<Sync>)
    requires Inv(c) && forall s :: 0 <= s < |syncs| ==> SyncOk(c.puts, c.nodes, syncs[s])
    ensures Inv(c.(syncs := syncs))
  {
  }

  lemma SyncStartKeepsInv(c: Cluster, n: NodeId, q: NodeId)
    requires Inv(c) && Enabled(c, SyncStart(n, q))
    ensures Inv(Next(c, SyncStart(n, q)))
  {
    assert NodeOk(c.puts, |c.nodes|, n, c.nodes[n]);
    assert QueueOk(c.puts, n, c.nodes[n].clock, c.nodes[n].pending[q]);
    SyncChange(c, Next(c, SyncStart(n, q)).syncs);
  }

  lemma SyncAppliedOk(puts: seq<Put>, nodes: seq<Node>, sync: Sync, k: Key)
    requires SyncOk(puts, nodes, sync) && k in sync.items && Holds(nodes, sync.to, Write(k, sync.items[k]))
    ensures SyncOk(puts, nodes, sync.(applied := sync.applied + {k}))
  {
    assert sync.result == Some(true) ==> sync.applied + {k} == sync.applied;
  }

  lemma SyncOneChange(c: Cluster, s: nat, sync: Sync)
    requires Inv(c) && s < |c.syncs| && SyncOk(c.puts, c.nodes, sync)
    ensures Inv(SetSync(c, s, sync))
  {
  }

  lemma SyncDeliverKeepsInv(c: Cluster, s: nat, k: Key)
    requires Inv(c) && Enabled(c, SyncDeliver(s, k))
    ensures Inv(Next(c, SyncDeliver(s, k)))
  {
    var sync := c.syncs[s];
    SyncIsOk(c, s);
    ApplyKeepsInv(c, sync.to, Write(k, sync.items[k]));
    var d := SetNode(c, sync.to, ApplyNode(c.nodes[sync.to], Write(k, sync.items[k])));
    SyncIsOk(d, s);
    SyncAppliedOk(d.puts, d.nodes, sync, k);
    SyncOneChange(d, s, sync.(applied := sync.applied + {k}));
  }

  lemma SyncDropKeepsInv(c: Cluster, s: nat)
    requires Inv(c) && Enabled(c, SyncDrop(s))
    ensures Inv(Next(c, SyncDrop(s)))
  {
    DropKeepsInv(c, s);
    var sync := c.syncs[s];
    var d := SetNode(c, sync.from, DropNode(c.nodes[sync.from], sync.to, sync.items));
    SyncIsOk(d, s);
    SyncOneChange(d, s, sync.(closed := true));
  }

  lemma QuietChange(c: Cluster, n: NodeId, node: Node)
    requires Inv(c) && n < |c.nodes|
    requires node.clock == c.nodes[n].clock && node.data == c.nodes[n].data && node.pending == c.nodes[n].pending
    ensures Inv(SetNode(c, n, node))
  {
    assert NodeOk(c.puts, |c.nodes|, n, c.nodes[n]);
    NodeChange(c, n, node);
  }

  lemma ReadModeKeepsInv(c: Cluster, p: nat)
    requires Inv(c) && Enabled(c, ReadMode(p))
    ensures Inv(Next(c, ReadMode(p)))
  {
    PutIsOk(c, p);
    PutChange(c, p, Next(c, ReadMode(p)).puts[p]);
  }

  lemma PutStepKeepsInv(c: Cluster, a: Action)
    requires Inv(c) && Enabled(c, a) && (a.ReadMode? || a.ApStore? || a.ApEnqueue? || a.CpSend? || a.CpStore?)
    ensures Inv(Next(c, a))
  {
    match a
    case ReadMode(p) => ReadModeKeepsInv(c, p);
    case ApStore(p) => ApStoreKeepsInv(c, p);
    case ApEnqueue(p) => ApEnqueueKeepsInv(c, p);
    case CpSend(p) => CpSendKeepsInv(c, p);
    case CpStore(p) => CpStoreKeepsInv(c, p);
  }

  lemma CallStepKeepsInv(c: Cluster, a: Action)
    requires Inv(c) && Enabled(c, a) && (a.CpDeliver? || a.CpAnswer? || a.CpCommit? || a.CpReject? || a.CpCallback?)
    ensures Inv(Next(c, a))
  {
    match a
    case CpDeliver(p, q) => CpDeliverKeepsInv(c, p, q);
    case CpAnswer(p, q, ok) => CpAnswerKeepsInv(c, p, q, ok);
    case CpCommit(p) => CpDecideKeepsInv(c, p, a);
    case CpReject(p) => CpDecideKeepsInv(c, p, a);
    case CpCallback(p, q) => CpCallbackKeepsInv(c, p, q);
  }

  lemma SyncAnswerKeepsInv(c: Cluster, s: nat, ok: bool)
    requires Inv(c) && Enabled(c, SyncAnswer(s, ok))
    ensures Inv(Next(c, SyncAnswer(s, ok)))
  {
    SyncIsOk(c, s);
    SyncOneChange(c, s, c.syncs[s].(result := Some(ok)));
  }

  lemma SyncStepKeepsInv(c: Cluster, a: Action)
    requires Inv(c) && Enabled(c, a) && (a.SyncStart? || a.SyncDeliver? || a.SyncAnswer? || a.SyncDrop?)
    ensures Inv(Next(c, a))
  {
    match a
    case SyncStart(n, q) => SyncStartKeepsInv(c, n, q);
    case SyncDeliver(s, k) => SyncDeliverKeepsInv(c, s, k);
    case SyncAnswer(s, ok) => SyncAnswerKeepsInv(c, s, ok);
    case SyncDrop(s) => SyncDropKeepsInv(c, s);
  }

  lemma NodeStepKeepsInv(c: Cluster, a: Action)
    requires Inv(c) && Enabled(c, a)
    requires a.SetMode? || a.BecomeReady? || a.FetchSnapshot? || a.CopyItem? || a.Mint?
    ensures Inv(Next(c, a))
  {
    match a
    case SetMode(n, mode) => QuietChange(c, n, c.nodes[n].(mode := mode));
    case BecomeReady(n) => QuietChange(c, n, c.nodes[n].(ready := true));
    case FetchSnapshot(n, q) => NodeIsOk(c, q);
    case CopyItem(i, k) =>
      assert CopyOk(c.puts, |c.nodes|, c.copies[i]);
      ApplyKeepsInv(c, c.copies[i].to, Write(k, c.copies[i].items[k]));
    case Mint(n, key, value) => MintKeepsInv(c, n, key, value);
  }

  lemma NextKeepsInv(c: Cluster, a: Action)
    requires Inv(c) && Enabled(c, a)
    ensures Inv(Next(c, a))
  {
    if a.ReadMode? || a.ApStore? || a.ApEnqueue? || a.CpSend? || a.CpStore? {
      PutStepKeepsInv(c, a);
    } else if a.CpDeliver? || a.CpAnswer? || a.CpCommit? || a.CpReject? || a.CpCallback? {
      CallStepKeepsInv(c, a);
    } else if a.SyncStart? || a.SyncDeliver? || a.SyncAnswer? || a.SyncDrop? {
      SyncStepKeepsInv(c, a);
    } else {
      NodeStepKeepsInv(c, a);
    }
  }

  lemma InitialInv(c: Cluster)
    requires Initial(c)
    ensures Inv(c)
  {
  }

  // The invariant holds in every state of every run.
  lemma {:induction false} RunKeepsInv(c: Cluster, actions: seq<Action>)
    requires Inv(c) && CanRun(c, actions)
    ensures Inv(Run(c, actions))
    decreases |actions|
  {
    if actions != [] {
      NextKeepsInv(c, actions[0]);
      RunKeepsInv(Next(c, actions[0]), actions[1..]);
    }
  }
}
