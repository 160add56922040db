/** What the cluster promises, over every run from the initial state. */
module KvGuarantees {
  import opened Basics
  import opened Lww
  import opened KvStore
  import opened KvCluster
  import opened KvProofs

  // ---- runs ----

  ghost predicate NoNodeOlder(xs: seq<Node>, ys: seq<Node>) {
    && |ys| == |xs|
    && forall n :: 0 <= n < |xs| ==> NoOlder(xs[n].data, ys[n].data) && xs[n].clock <= ys[n].clock
  }

  lemma ApplyNoOlder(xs: seq<Node>, n: NodeId, w: Write)
    requires n < |xs|
    ensures NoNodeOlder(xs, xs[n := ApplyNode(xs[n], w)])
  {
  }

  lemma SameDataNoOlder(xs: seq<Node>, n: NodeId, node: Node)
    requires n < |xs| && node.data == xs[n].data && xs[n].clock <= node.clock
    ensures NoNodeOlder(xs, xs[n := node])
  {
  }

  lemma PutNoOlder(c: Cluster, a: Action)
    requires Inv(c) && Enabled(c, a) && (a.ApStore? || a.ApEnqueue? || a.CpDeliver? || a.CpCallback? || a.CpStore?)
    ensures NoNodeOlder(c.nodes, Next(c, a).nodes)
  {
    var put := c.puts[a.p];
    var node := c.nodes[put.origin];
    match a
    case CpDeliver(_, q) => ApplyNoOlder(c.nodes, q, put.write);
    case ApEnqueue(_) => SameDataNoOlder(c.nodes, put.origin, EnqueueNode(node, node.pending.Keys, put.write));
    case CpCallback(_, q) => SameDataNoOlder(c.nodes, put.origin, EnqueueNode(node, {q}, put.write));
    case _ => ApplyNoOlder(c.nodes, put.origin, put.write);
  }

  lemma NextNoOlder(c: Cluster, a: Action)
    requires Inv(c) && Enabled(c, a)
    ensures NoNodeOlder(c.nodes, Next(c, a).nodes)
  {
    if a.ApStore? || a.ApEnqueue? || a.CpDeliver? || a.CpCallback? || a.CpStore? {
      PutNoOlder(c, a);
    } else {
      match a
      case SetMode(n, mode) => SameDataNoOlder(c.nodes, n, c.nodes[n].(mode := mode));
      case BecomeReady(n) => SameDataNoOlder(c.nodes, n, c.nodes[n].(ready := true));
      case CopyItem(i, k) => ApplyNoOlder(c.nodes, c.copies[i].to, Write(k, c.copies[i].items[k]));
      case Mint(n, _, _) => SameDataNoOlder(c.nodes, n, MintNode(c.nodes[n]));
      case SyncDeliver(s, k) => ApplyNoOlder(c.nodes, c.syncs[s].to, Write(k, c.syncs[s].items[k]));
      case SyncDrop(s) =>
        var sync := c.syncs[s];
        SameDataNoOlder(c.nodes, sync.from, DropNode(c.nodes[sync.from], sync.to, sync.items));
      case _ =>
    }
  }

  lemma NextKeepsPut(c: Cluster, a: Action, p: nat)
    requires Enabled(c, a) && p < |c.puts|
    ensures p < |Next(c, a).puts|
    ensures Next(c, a).puts[p].write == c.puts[p].write && Next(c, a).puts[p].origin == c.puts[p].origin
    ensures Answered200(c.puts[p]) ==> Next(c, a).puts[p].stage == c.puts[p].stage
    ensures c.puts[p].stage.CpCommitted? ==> Next(c, a).puts[p].stage.CpCommitted? || Next(c, a).puts[p].stage.CpDone?
  {
  }

  // A node never goes back: what it holds for a key, and its clock, only move forward.
  lemma {:induction false} RunNeverForgets(c: Cluster, actions: seq<Action>)
    requires Inv(c) && CanRun(c, actions)
    ensures NoNodeOlder(c.nodes, Run(c, actions).nodes)
    decreases |actions|
  {
    if actions != [] {
      NextNoOlder(c, actions[0]);
      NextKeepsInv(c, actions[0]);
      RunNeverForgets(Next(c, actions[0]), actions[1..]);
    }
  }

  // An answer is final: a PUT answered 200 stays answered, with the same write.
  lemma {:induction false} AnswersAreFinal(c: Cluster, actions: seq<Action>, p: nat)
    requires CanRun(c, actions) && p < |c.puts| && Answered200(c.puts[p])
    ensures p < |Run(c, actions).puts| && Run(c, actions).puts[p].stage == c.puts[p].stage
    ensures Run(c, actions).puts[p].write == c.puts[p].write
    decreases |actions|
  {
    if actions != [] {
      NextKeepsPut(c, actions[0], p);
      AnswersAreFinal(Next(c, actions[0]), actions[1..], p);
    }
  }

  // ---- versions and clocks ----

  lemma VersionsAndClocks(start: Cluster, actions: seq<Action>)
    requires Initial(start) && CanRun(start, actions)
    ensures var c := Run(start, actions);
            && VersionsUnique(c.puts)
            && (forall n, k :: 0 <= n < |c.nodes| && k in c.nodes[n].data ==>
                                 c.nodes[n].data[k].version.counter <= c.nodes[n].clock)
            && (forall n, q, k :: 0 <= n < |c.nodes| && q in c.nodes[n].pending && k in c.nodes[n].pending[q] ==>
                                    && c.nodes[n].pending[q][k].version.counter <= c.nodes[n].clock
                                    && c.nodes[n].pending[q][k].version.node == n)
  {
    InitialInv(start);
    RunKeepsInv(start, actions);
    var c := Run(start, actions);
    forall n, q, k | 0 <= n < |c.nodes| && q in c.nodes[n].pending && k in c.nodes[n].pending[q]
      ensures c.nodes[n].pending[q][k].version.counter <= c.nodes[n].clock && c.nodes[n].pending[q][k].version.node == n
    {
      assert QueueOk(c.puts, n, c.nodes[n].clock, c.nodes[n].pending[q]);
    }
  }

  // ---- values ----

  /** This PUT is the one of a Mint step of the run: same origin, key and value. */
  ghost predicate MintedIn(actions: seq<Action>, put: Put) {
    exists i :: 0 <= i < |actions| && actions[i] == Mint(put.origin, put.write.key, put.write.record.value)
  }

  lemma StepMints(c: Cluster, a: Action, p: nat)
    requires Enabled(c, a) && p < |Next(c, a).puts|
    ensures p < |c.puts| || a == Mint(Next(c, a).puts[p].origin, Next(c, a).puts[p].write.key,
                                      Next(c, a).puts[p].write.record.value)
  {
  }

  lemma {:induction false} SameWriteLater(c: Cluster, actions: seq<Action>, p: nat)
    requires CanRun(c, actions) && p < |c.puts|
    ensures p < |Run(c, actions).puts|
    ensures Run(c, actions).puts[p].write == c.puts[p].write && Run(c, actions).puts[p].origin == c.puts[p].origin
    decreases |actions|
  {
    if actions != [] {
      NextKeepsPut(c, actions[0], p);
      SameWriteLater(Next(c, actions[0]), actions[1..], p);
    }
  }

  lemma {:induction false} NewPutsAreMinted(c: Cluster, actions: seq<Action>, p: nat)
    requires CanRun(c, actions) && |c.puts| <= p < |Run(c, actions).puts|
    ensures MintedIn(actions, Run(c, actions).puts[p])
    decreases |actions|
  {
    if actions != [] {
      var next := Next(c, actions[0]);
      if p < |next.puts| {
        StepMints(c, actions[0], p);
        SameWriteLater(next, actions[1..], p);
      } else {
        NewPutsAreMinted(next, actions[1..], p);
        var i :| 0 <= i < |actions[1..]| && actions[1..][i] == Mint(Run(c, actions).puts[p].origin,
                   Run(c, actions).puts[p].write.key, Run(c, actions).puts[p].write.record.value);
        assert actions[i + 1] == actions[1..][i];
      }
    }
  }

  /** Some Mint step of the run wrote this value to this key. */
  ghost predicate ValueMinted(actions: seq<Action>, key: Key, value: string) {
    exists i :: 0 <= i < |actions| && actions[i].Mint? && actions[i].key == key && actions[i].value == value
  }

  // Over every run, each value that any node holds or queues under a key is the value that some PUT of the run gave
  // for that key.
  lemma ValuesComeFromPuts(start: Cluster, actions: seq<Action>, n: NodeId, key: Key)
    requires Initial(start) && CanRun(start, actions) && n < |Run(start, actions).nodes|
    ensures var node := Run(start, actions).nodes[n];
            && (key in node.data ==> ValueMinted(actions, key, node.data[key].value))
            && (forall q :: q in node.pending && key in node.pending[q] ==>
                              ValueMinted(actions, key, node.pending[q][key].value))
  {
    InitialInv(start);
    RunKeepsInv(start, actions);
    var c := Run(start, actions);
    assert NodeOk(c.puts, |c.nodes|, n, c.nodes[n]);
    if key in c.nodes[n].data {
      WrittenIsMinted(start, actions, Write(key, c.nodes[n].data[key]));
    }
    forall q | q in c.nodes[n].pending && key in c.nodes[n].pending[q]
      ensures ValueMinted(actions, key, c.nodes[n].pending[q][key].value)
    {
      assert QueueOk(c.puts, n, c.nodes[n].clock, c.nodes[n].pending[q]);
      WrittenIsMinted(start, actions, Write(key, c.nodes[n].pending[q][key]));
    }
  }

  lemma WrittenIsMinted(start: Cluster, actions: seq<Action>, w: Write)
    requires Initial(start) && CanRun(start, actions) && Written(Run(start, actions).puts, w)
    ensures ValueMinted(actions, w.key, w.record.value)
  {
    var c := Run(start, actions);
    var p :| 0 <= p < |c.puts| && Visible(c.puts[p]) && c.puts[p].write == w;
    NewPutsAreMinted(start, actions, p);
  }

  // Equal versions mean the same write: this is what justifies comparing a queued record by identity.
  lemma SameVersionSameWrite(c: Cluster, v: Write, w: Write)
    requires Inv(c) && Written(c.puts, v) && Written(c.puts, w) && v.record.version == w.record.version
    ensures v == w
  {
    var p :| 0 <= p < |c.puts| && Visible(c.puts[p]) && c.puts[p].write == v;
    var q :| 0 <= q < |c.puts| && Visible(c.puts[q]) && c.puts[q].write == w;
    assert !(p < q) && !(q < p);
  }

  // A record minted at a node is strictly newer than everything the node stored at any earlier moment of the run.
  lemma MintedLaterIsNewer(c: Cluster, actions: seq<Action>, n: NodeId, k: Key, key: Key, value: string)
    requires Inv(c) && CanRun(c, actions) && n < |c.nodes| && k in c.nodes[n].data
    requires Enabled(Run(c, actions), Mint(n, key, value))
    ensures var d := Next(Run(c, actions), Mint(n, key, value));
            Older(c.nodes[n].data[k].version, d.puts[|d.puts| - 1].write.record.version)
  {
    RunNeverForgets(c, actions);
    assert NodeOk(c.puts, |c.nodes|, n, c.nodes[n]);
  }

  // ---- convergence ----

  function VisibleWrites(puts: seq<Put>): set<Write> {
    set p | 0 <= p < |puts| && Visible(puts[p]) :: puts[p].write
  }

  ghost predicate QueuesEmpty(c: Cluster) {
    forall n, q :: 0 <= n < |c.nodes| && q in c.nodes[n].pending ==> c.nodes[n].pending[q] == map[]
  }

  ghost predicate AllAp(c: Cluster) {
    forall p :: 0 <= p < |c.puts| ==> !CpTaken(c.puts[p])
  }

  ghost predicate NoneBetweenApplyAndEnqueue(c: Cluster) {
    forall p :: 0 <= p < |c.puts| ==> !c.puts[p].stage.ApStored?
  }

  ghost predicate AllNodesAgree(c: Cluster) {
    forall n, m :: 0 <= n < m < |c.nodes| ==> c.nodes[n].data == c.nodes[m].data
  }

  lemma WritesAreUnique(c: Cluster)
    requires Inv(c)
    ensures UniqueVersions(VisibleWrites(c.puts))
  {
    forall v, w | v in VisibleWrites(c.puts) && w in VisibleWrites(c.puts) && v.record.version == w.record.version
      ensures v == w
    {
      SameVersionSameWrite(c, v, w);
    }
  }

  lemma EverywhereMeansNewest(c: Cluster)
    requires Inv(c)
    requires forall p, n :: 0 <= p < |c.puts| && Visible(c.puts[p]) && 0 <= n < |c.nodes| ==>
                              Holds(c.nodes, n, c.puts[p].write)
    ensures AllNodesAgree(c)
    ensures forall n :: 0 <= n < |c.nodes| ==> IsPointwiseNewest(c.nodes[n].data, VisibleWrites(c.puts))
  {
    forall n | 0 <= n < |c.nodes| ensures IsPointwiseNewest(c.nodes[n].data, VisibleWrites(c.puts)) {
      assert NodeOk(c.puts, |c.nodes|, n, c.nodes[n]);
      forall k | k in c.nodes[n].data ensures Write(k, c.nodes[n].data[k]) in VisibleWrites(c.puts) {
        assert Written(c.puts, Write(k, c.nodes[n].data[k]));
      }
      forall w | w in VisibleWrites(c.puts) ensures HoldsAtLeast(c.nodes[n].data, w.key, w.record.version) {
        var p :| 0 <= p < |c.puts| && Visible(c.puts[p]) && c.puts[p].write == w;
        assert Holds(c.nodes, n, c.puts[p].write);
      }
    }
    WritesAreUnique(c);
    forall n, m | 0 <= n < m < |c.nodes| ensures c.nodes[n].data == c.nodes[m].data {
      PointwiseNewestIsUnique(c.nodes[n].data, c.nodes[m].data, VisibleWrites(c.puts));
    }
  }

  lemma CoveredAndNotQueuedIsHeld(c: Cluster, put: Put, n: NodeId)
    requires QueuesEmpty(c) && put.origin < |c.nodes| && n < |c.nodes| && Covered(c.nodes, put, n)
    ensures Holds(c.nodes, n, put.write)
  {
  }

  // In an all-ap run, each finished write is at every peer or still queued for it, at that version or newer.
  lemma ApWritesAreNeverLost(start: Cluster, actions: seq<Action>, p: nat, q: NodeId)
    requires Initial(start) && CanRun(start, actions) && p < |Run(start, actions).puts|
    requires Run(start, actions).puts[p].stage.ApDone? && q < |start.nodes|
    ensures Covered(Run(start, actions).nodes, Run(start, actions).puts[p], q)
  {
    InitialInv(start);
    RunKeepsInv(start, actions);
    RunNeverForgets(start, actions);
    var c := Run(start, actions);
    assert PutOk(c.nodes, c.puts[p]);
    if q != c.puts[p].origin {
      assert q in Peers(|c.nodes|, c.puts[p].origin);
    }
  }

  lemma ApAnsweredIsEverywhere(c: Cluster, p: nat, n: NodeId)
    requires Inv(c) && QueuesEmpty(c) && p < |c.puts| && n < |c.nodes| && c.puts[p].stage.ApDone?
    ensures Holds(c.nodes, n, c.puts[p].write)
  {
    assert PutOk(c.nodes, c.puts[p]);
    if n != c.puts[p].origin {
      assert n in Peers(|c.nodes|, c.puts[p].origin);
      CoveredAndNotQueuedIsHeld(c, c.puts[p], n);
    }
  }

  lemma ApConverges(c: Cluster)
    requires Inv(c) && AllAp(c) && NoneBetweenApplyAndEnqueue(c) && QueuesEmpty(c)
    ensures AllNodesAgree(c)
    ensures forall n :: 0 <= n < |c.nodes| ==> IsPointwiseNewest(c.nodes[n].data, VisibleWrites(c.puts))
  {
    forall p, n | 0 <= p < |c.puts| && Visible(c.puts[p]) && 0 <= n < |c.nodes|
      ensures Holds(c.nodes, n, c.puts[p].write)
    {
      ApAnsweredIsEverywhere(c, p, n);
    }
    EverywhereMeansNewest(c);
  }

  // All-ap runs converge: whenever no PUT is between apply and enqueue and every queue is empty, all nodes hold the
  // same map, and it holds the newest record ever written to each key. Sync exchanges may still be outstanding.
  lemma ApRunsConverge(start: Cluster, actions: seq<Action>)
    requires Initial(start) && CanRun(start, actions)
    requires AllAp(Run(start, actions)) && NoneBetweenApplyAndEnqueue(Run(start, actions))
    requires QueuesEmpty(Run(start, actions))
    ensures AllNodesAgree(Run(start, actions))
    ensures forall n :: 0 <= n < |start.nodes| ==>
                          && |Run(start, actions).nodes| == |start.nodes|
                          && IsPointwiseNewest(Run(start, actions).nodes[n].data, VisibleWrites(Run(start, actions).puts))
  {
    InitialInv(start);
    RunKeepsInv(start, actions);
    RunNeverForgets(start, actions);
    ApConverges(Run(start, actions));
  }

  /** No PUT is being served, no done-callback of a committed write is still to run, and every queue is empty. */
  ghost predicate AtRest(c: Cluster) {
    && QueuesEmpty(c)
    && (forall p :: 0 <= p < |c.puts| && Visible(c.puts[p]) ==> Answered200(c.puts[p]) || c.puts[p].stage.CpRejected?)
    && (forall p, q :: 0 <= p < |c.puts| && c.puts[p].stage.CpDone? && q in c.puts[p].calls ==>
                         c.puts[p].calls[q].settled)
  }

  lemma CpAnsweredIsEverywhere(c: Cluster, put: Put, n: NodeId)
    requires PutOk(c.nodes, put) && put.stage.CpDone? && QueuesEmpty(c) && n < |c.nodes|
    requires forall q :: q in put.calls ==> put.calls[q].settled
    ensures Holds(c.nodes, n, put.write)
  {
    if n != put.origin {
      assert n in Peers(|c.nodes|, put.origin);
      assert CallOk(c.nodes, put, n, put.calls[n]);
      CoveredAndNotQueuedIsHeld(c, put, n);
    }
  }

  lemma AnsweredIsEverywhere(c: Cluster, p: nat, n: NodeId)
    requires Inv(c) && AtRest(c) && p < |c.puts| && n < |c.nodes| && Answered200(c.puts[p])
    ensures Holds(c.nodes, n, c.puts[p].write)
  {
    if c.puts[p].stage.ApDone? {
      ApAnsweredIsEverywhere(c, p, n);
    } else {
      PutIsOk(c, p);
      CpAnsweredIsEverywhere(c, c.puts[p], n);
    }
  }

  // With nodes switching freely between the modes: at rest, every node is at least as new as every write answered 200,
  // including cp writes whose late failures reached the queue only through a done-callback.
  lemma MixedRunsKeepEveryAnsweredWrite(start: Cluster, actions: seq<Action>, p: nat, n: NodeId)
    requires Initial(start) && CanRun(start, actions) && AtRest(Run(start, actions))
    requires p < |Run(start, actions).puts| && Answered200(Run(start, actions).puts[p]) && n < |start.nodes|
    ensures Holds(Run(start, actions).nodes, n, Run(start, actions).puts[p].write)
  {
    InitialInv(start);
    RunKeepsInv(start, actions);
    RunNeverForgets(start, actions);
    AnsweredIsEverywhere(Run(start, actions), p, n);
  }

  /** A cp write answered 503 reached either every node or none (a version at least as new counts as reached). */
  ghost predicate RejectedAllOrNothing(c: Cluster) {
    forall p, n, m :: 0 <= p < |c.puts| && c.puts[p].stage.CpRejected? && 0 <= n < |c.nodes| && 0 <= m < |c.nodes| ==>
                        (Holds(c.nodes, n, c.puts[p].write) <==> Holds(c.nodes, m, c.puts[p].write))
  }

  // Replicas that differ on a key at rest differ by a rejected write: one node holds it, the other does not.
  lemma DifferenceComesFromRejection(c: Cluster, n: NodeId, m: NodeId, k: Key)
    requires Inv(c) && AtRest(c) && n < |c.nodes| && m < |c.nodes|
    requires k in c.nodes[n].data && !HoldsAtLeast(c.nodes[m].data, k, c.nodes[n].data[k].version)
    ensures !RejectedAllOrNothing(c)
  {
    assert NodeOk(c.puts, |c.nodes|, n, c.nodes[n]);
    var w := Write(k, c.nodes[n].data[k]);
    assert Written(c.puts, w);
    var p :| 0 <= p < |c.puts| && Visible(c.puts[p]) && c.puts[p].write == w;
    assert Holds(c.nodes, n, c.puts[p].write) && !Holds(c.nodes, m, c.puts[p].write);
    if Answered200(c.puts[p]) {
      AnsweredIsEverywhere(c, p, m);
    }
  }

  // The exact condition for agreement at rest in mixed mode.
  lemma MixedAgreementIff(c: Cluster)
    requires Inv(c) && AtRest(c)
    ensures AllNodesAgree(c) <==> RejectedAllOrNothing(c)
  {
    if AllNodesAgree(c) {
      forall p, n, m | 0 <= p < |c.puts| && c.puts[p].stage.CpRejected? && 0 <= n < |c.nodes| && 0 <= m < |c.nodes|
        ensures Holds(c.nodes, n, c.puts[p].write) <==> Holds(c.nodes, m, c.puts[p].write)
      {
        assert n < m || m < n || n == m;
      }
    }
    if RejectedAllOrNothing(c) {
      forall n, m | 0 <= n < m < |c.nodes| ensures c.nodes[n].data == c.nodes[m].data {
        forall k | k in c.nodes[n].data || k in c.nodes[m].data
          ensures k in c.nodes[n].data && k in c.nodes[m].data && c.nodes[n].data[k] == c.nodes[m].data[k]
        {
          MustMatch(c, n, m, k);
        }
      }
    }
  }

  lemma MustMatch(c: Cluster, n: NodeId, m: NodeId, k: Key)
    requires Inv(c) && AtRest(c) && RejectedAllOrNothing(c) && n < |c.nodes| && m < |c.nodes|
    requires k in c.nodes[n].data || k in c.nodes[m].data
    ensures k in c.nodes[n].data && k in c.nodes[m].data && c.nodes[n].data[k] == c.nodes[m].data[k]
  {
    if k in c.nodes[n].data && !HoldsAtLeast(c.nodes[m].data, k, c.nodes[n].data[k].version) {
      DifferenceComesFromRejection(c, n, m, k);
    }
    if k in c.nodes[m].data && !HoldsAtLeast(c.nodes[n].data, k, c.nodes[m].data[k].version) {
      DifferenceComesFromRejection(c, m, n, k);
    }
    assert NodeOk(c.puts, |c.nodes|, n, c.nodes[n]) && NodeOk(c.puts, |c.nodes|, m, c.nodes[m]);
    SameVersionSameWrite(c, Write(k, c.nodes[n].data[k]), Write(k, c.nodes[m].data[k]));
  }

  // ---- durability of committed cp writes ----

  function Ids(size: nat): set<NodeId> {
    if size == 0 then {} else Ids(size - 1) + {size - 1}
  }

  lemma {:induction false} IdsCount(size: nat)
    ensures |Ids(size)| == size && forall n: NodeId :: n in Ids(size) <==> n < size
  {
    if size > 0 {
      IdsCount(size - 1);
    }
  }

  function Holders(nodes: seq<Node>, w: Write): set<NodeId> {
    set n: nat | n < |nodes| && Holds(nodes, n, w)
  }

  lemma QuorumsIntersect(size: nat, a: set<NodeId>, b: set<NodeId>)
    requires |a| >= Quorum(size) && |b| >= Quorum(size)
    requires forall n :: n in a || n in b ==> n < size
    ensures a * b != {}
  {
    IdsCount(size);
    SubsetIsSmaller(a + b, Ids(size));
    assert |a + b| == |a| + |b| - |a * b|;
    assert |a * b| > 0;
  }

  lemma VotersAreAQuorum(nodes: seq<Node>, put: Put)
    requires PutOk(nodes, put) && (put.stage.CpCommitted? || put.stage.CpDone?)
    ensures |Ackers(put) + {put.origin}| >= Quorum(|nodes|)
  {
    assert put.origin !in Ackers(put);
  }

  lemma VotersHold(nodes: seq<Node>, put: Put)
    requires PutOk(nodes, put) && put.stage.CpDone?
    ensures Ackers(put) + {put.origin} <= Holders(nodes, put.write)
  {
    forall q | q in Ackers(put) ensures q in Holders(nodes, put.write) {
      assert CallOk(nodes, put, q, put.calls[q]);
    }
  }

  lemma CommittedIsOnAQuorum(c: Cluster, p: nat)
    requires Inv(c) && p < |c.puts| && c.puts[p].stage.CpDone?
    ensures |Holders(c.nodes, c.puts[p].write)| >= Quorum(|c.nodes|)
  {
    var put := c.puts[p];
    assert PutOk(c.nodes, put);
    VotersAreAQuorum(c.nodes, put);
    VotersHold(c.nodes, put);
    SubsetIsSmaller(Ackers(put) + {put.origin}, Holders(c.nodes, put.write));
  }

  // From the moment a cp write is answered 200, in every later state a quorum of nodes holds it or something newer,
  // so every set of quorum size contains such a node.
  lemma CommittedWritesAreDurable(c: Cluster, actions: seq<Action>, p: nat, readers: set<NodeId>)
    requires Inv(c) && CanRun(c, actions) && p < |c.puts| && c.puts[p].stage.CpDone?
    requires |readers| >= Quorum(|c.nodes|) && forall n :: n in readers ==> n < |c.nodes|
    ensures var d := Run(c, actions);
            && |Holders(d.nodes, c.puts[p].write)| >= Quorum(|c.nodes|)
            && exists n :: n in readers && Holds(d.nodes, n, c.puts[p].write)
  {
    RunKeepsInv(c, actions);
    RunNeverForgets(c, actions);
    AnswersAreFinal(c, actions, p);
    var d := Run(c, actions);
    CommittedIsOnAQuorum(d, p);
    QuorumsIntersect(|c.nodes|, readers, Holders(d.nodes, c.puts[p].write));
    var n :| n in readers * Holders(d.nodes, c.puts[p].write);
    assert Holds(d.nodes, n, c.puts[p].write);
  }

  // ---- partitions ----

  /** Since PUT number `since`, no positive answer crossed from outside `group` to a cp write of a node inside it. */
  ghost predicate CutOff(c: Cluster, group: set<NodeId>, since: nat) {
    forall p, q :: since <= p < |c.puts| && c.puts[p].origin in group && q in Ackers(c.puts[p]) ==> q in group
  }

  ghost predicate Committed(c: Cluster, group: set<NodeId>, since: nat) {
    exists p :: since <= p < |c.puts| && c.puts[p].origin in group
                && (c.puts[p].stage.CpCommitted? || c.puts[p].stage.CpDone?)
  }

  // A group that is cut off from every other node commits only if it is itself a majority.
  lemma OnlyAMajorityCommits(c: Cluster, group: set<NodeId>, since: nat)
    requires Inv(c) && CutOff(c, group, since) && Committed(c, group, since)
    ensures |group| >= Quorum(|c.nodes|)
  {
    var p :| since <= p < |c.puts| && c.puts[p].origin in group
             && (c.puts[p].stage.CpCommitted? || c.puts[p].stage.CpDone?);
    VotersAreInside(c, group, since, p);
    assert PutOk(c.nodes, c.puts[p]);
    VotersAreAQuorum(c.nodes, c.puts[p]);
    SubsetIsSmaller(Ackers(c.puts[p]) + {c.puts[p].origin}, group);
  }

  lemma VotersAreInside(c: Cluster, group: set<NodeId>, since: nat, p: nat)
    requires CutOff(c, group, since) && since <= p < |c.puts| && c.puts[p].origin in group
    ensures Ackers(c.puts[p]) + {c.puts[p].origin} <= group
  {
  }

  // So of two disjoint groups that are both cut off from every other node, at most one ever commits cp writes.
  lemma OneSideCommits(start: Cluster, actions: seq<Action>, a: set<NodeId>, b: set<NodeId>, since: nat)
    requires Initial(start) && CanRun(start, actions)
    requires a !! b && forall n :: n in a || n in b ==> n < |start.nodes|
    requires CutOff(Run(start, actions), a, since) && CutOff(Run(start, actions), b, since)
    ensures !(Committed(Run(start, actions), a, since) && Committed(Run(start, actions), b, since))
  {
    InitialInv(start);
    RunKeepsInv(start, actions);
    RunNeverForgets(start, actions);
    var c := Run(start, actions);
    if Committed(c, a, since) && Committed(c, b, since) {
      OnlyAMajorityCommits(c, a, since);
      OnlyAMajorityCommits(c, b, since);
      QuorumsIntersect(|c.nodes|, a, b);
    }
  }
}
