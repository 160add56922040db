/**
 * The cluster as a step system. Every step is one atomic section of a node (what runs under the store's lock, or one
 * read of a field), or one event of the network. Messages are lost by never being delivered, delayed by being
 * delivered late, duplicated by being delivered again; an answer may be lost whatever the peer did.
 */
module KvCluster {
  import opened Basics
  import opened Lww
  import opened KvStore

  /** Where a PUT is. A reply of 200 is ApDone or CpDone; a reply of 503 is CpRejected. */
  datatype Stage =
    | Minted | ApChosen | ApStored | ApDone
    | CpChosen | CpSent | CpCommitted | CpDone | CpRejected

  /** The request of a cp write to one peer: stored there at least once, answered (None: not yet), callback run. */
  datatype PeerCall = PeerCall(delivered: bool, result: Option<bool>, settled: bool)

  datatype Put = Put(origin: NodeId, write: Write, stage: Stage, calls: map<NodeId, PeerCall>)

  /** One exchange of the sync loop: the queue it copied, the keys the peer has applied so far, the answer. */
  datatype Sync = Sync(
    from: NodeId, to: NodeId, items: map<Key, Record>, applied: set<Key>, result: Option<bool>, closed: bool)

  /** A snapshot that a warming-up node fetched and copies into its store. */
  datatype Copy = Copy(to: NodeId, items: map<Key, Record>)

  datatype Cluster = Cluster(nodes: seq<Node>, puts: seq<Put>, syncs: seq<Sync>, copies: seq<Copy>)

  datatype Action =
    | SetMode(n: NodeId, mode: Mode)
    | FetchSnapshot(n: NodeId, peer: NodeId)
    | CopyItem(copy: nat, key: Key)
    | BecomeReady(n: NodeId)
    | Mint(n: NodeId, key: Key, value: string)
    | ReadMode(p: nat)
    | ApStore(p: nat)
    | ApEnqueue(p: nat)
    | CpSend(p: nat)
    | CpDeliver(p: nat, peer: NodeId)
    | CpAnswer(p: nat, peer: NodeId, ok: bool)
    | CpCommit(p: nat)
    | CpReject(p: nat)
    | CpCallback(p: nat, peer: NodeId)
    | CpStore(p: nat)
    | SyncStart(n: NodeId, peer: NodeId)
    | SyncDeliver(s: nat, key: Key)
    | SyncAnswer(s: nat, ok: bool)
    | SyncDrop(s: nat)

  predicate Differs(q: NodeId, self: NodeId) {
    q != self
  }

  function Peers(size: nat, self: NodeId): set<NodeId> {
    set q: nat | q < size && Differs(q, self)
  }

  /** The peers whose positive answer arrived. */
  function Ackers(put: Put): set<NodeId> {
    set q | q in put.calls && put.calls[q].result == Some(true)
  }

  predicate Initial(c: Cluster) {
    && c.puts == [] && c.syncs == [] && c.copies == []
    && forall n :: 0 <= n < |c.nodes| ==>
                     && c.nodes[n].clock == 0 && c.nodes[n].data == map[] && !c.nodes[n].ready
                     && c.nodes[n].pending == map q | q in Peers(|c.nodes|, n) :: map[]
  }

  function SetNode(c: Cluster, n: NodeId, node: Node): Cluster
    requires n < |c.nodes|
  {
    c.(nodes := c.nodes[n := node])
  }

  function SetPut(c: Cluster, p: nat, put: Put): Cluster
    requires p < |c.puts|
  {
    c.(puts := c.puts[p := put])
  }

  function SetSync(c: Cluster, s: nat, sync: Sync): Cluster
    requires s < |c.syncs|
  {
    c.(syncs := c.syncs[s := sync])
  }

  function SetCall(put: Put, q: NodeId, call: PeerCall): Put {
    put.(calls := put.calls[q := call])
  }

  predicate AtStage(c: Cluster, p: nat, stage: Stage) {
    p < |c.puts| && c.puts[p].origin < |c.nodes| && c.puts[p].stage == stage
  }

  predicate Enabled(c: Cluster, a: Action) {
    match a
    case SetMode(n, _) => n < |c.nodes|
    case FetchSnapshot(n, q) => n < |c.nodes| && q < |c.nodes| && q != n && !c.nodes[n].ready
    case CopyItem(i, k) => i < |c.copies| && c.copies[i].to < |c.nodes| && k in c.copies[i].items
    case BecomeReady(n) => n < |c.nodes|
    case Mint(n, _, _) => n < |c.nodes| && c.nodes[n].ready
    case ReadMode(p) => AtStage(c, p, Minted)
    case ApStore(p) => AtStage(c, p, ApChosen)
    case ApEnqueue(p) => AtStage(c, p, ApStored)
    case CpSend(p) => AtStage(c, p, CpChosen)
    case CpDeliver(p, q) => p < |c.puts| && q in c.puts[p].calls && q < |c.nodes|
    case CpAnswer(p, q, ok) =>
      && p < |c.puts| && q in c.puts[p].calls
      && c.puts[p].calls[q].result.None? && (ok ==> c.puts[p].calls[q].delivered)
    case CpCommit(p) => AtStage(c, p, CpSent) && 1 + |Ackers(c.puts[p])| >= Quorum(|c.nodes|)
    case CpReject(p) =>
      && AtStage(c, p, CpSent) && 1 + |Ackers(c.puts[p])| < Quorum(|c.nodes|)
      && forall q :: q in c.puts[p].calls ==> c.puts[p].calls[q].result.Some?
    case CpCallback(p, q) =>
      && (AtStage(c, p, CpCommitted) || AtStage(c, p, CpDone)) && q in c.puts[p].calls
      && c.puts[p].calls[q].result.Some? && !c.puts[p].calls[q].settled
    case CpStore(p) => AtStage(c, p, CpCommitted)
    case SyncStart(n, q) => n < |c.nodes| && q in c.nodes[n].pending && c.nodes[n].pending[q] != map[]
    case SyncDeliver(s, k) => s < |c.syncs| && c.syncs[s].to < |c.nodes| && k in c.syncs[s].items
    case SyncAnswer(s, ok) =>
      s < |c.syncs| && c.syncs[s].result.None? && (ok ==> c.syncs[s].applied == c.syncs[s].items.Keys)
    case SyncDrop(s) =>
      && s < |c.syncs| && c.syncs[s].result == Some(true) && !c.syncs[s].closed
      && c.syncs[s].from < |c.nodes| && c.syncs[s].to in c.nodes[c.syncs[s].from].pending
  }

  function Next(c: Cluster, a: Action): Cluster
    requires Enabled(c, a)
  {
    match a
    case SetMode(n, mode) => SetNode(c, n, c.nodes[n].(mode := mode))
    case FetchSnapshot(n, q) => c.(copies := c.copies + [Copy(n, c.nodes[q].data)])
    case CopyItem(i, k) =>
      var n := c.copies[i].to;
      SetNode(c, n, ApplyNode(c.nodes[n], Write(k, c.copies[i].items[k])))
    case BecomeReady(n) => SetNode(c, n, c.nodes[n].(ready := true))
    case Mint(n, key, value) =>
      var put := Put(n, Write(key, MintRecord(c.nodes[n], n, value)), Minted, map[]);
      SetNode(c, n, MintNode(c.nodes[n])).(puts := c.puts + [put])
    case ReadMode(p) =>
      var put := c.puts[p];
      SetPut(c, p, put.(stage := if c.nodes[put.origin].mode == Cp then CpChosen else ApChosen))
    case ApStore(p) =>
      var put := c.puts[p];
      SetNode(SetPut(c, p, put.(stage := ApStored)), put.origin, ApplyNode(c.nodes[put.origin], put.write))
    case ApEnqueue(p) =>
      var put := c.puts[p];
      var node := c.nodes[put.origin];
      SetNode(SetPut(c, p, put.(stage := ApDone)), put.origin, EnqueueNode(node, node.pending.Keys, put.write))
    case CpSend(p) =>
      var put := c.puts[p];
      var calls := map q | q in Peers(|c.nodes|, put.origin) :: PeerCall(false, None, false);
      SetPut(c, p, put.(stage := CpSent, calls := calls))
    case CpDeliver(p, q) =>
      var put := c.puts[p];
      SetNode(SetPut(c, p, SetCall(put, q, put.calls[q].(delivered := true))), q, ApplyNode(c.nodes[q], put.write))
    case CpAnswer(p, q, ok) =>
      var put := c.puts[p];
      SetPut(c, p, SetCall(put, q, put.calls[q].(result := Some(ok))))
    case CpCommit(p) => SetPut(c, p, c.puts[p].(stage := CpCommitted))
    case CpReject(p) => SetPut(c, p, c.puts[p].(stage := CpRejected))
    case CpCallback(p, q) =>
      var put := c.puts[p];
      var done := SetPut(c, p, SetCall(put, q, put.calls[q].(settled := true)));
      if put.calls[q].result.value then done
      else SetNode(done, put.origin, EnqueueNode(c.nodes[put.origin], {q}, put.write))
    case CpStore(p) =>
      var put := c.puts[p];
      SetNode(SetPut(c, p, put.(stage := CpDone)), put.origin, ApplyNode(c.nodes[put.origin], put.write))
    case SyncStart(n, q) => c.(syncs := c.syncs + [Sync(n, q, c.nodes[n].pending[q], {}, None, false)])
    case SyncDeliver(s, k) =>
      var sync := c.syncs[s];
      SetNode(SetSync(c, s, sync.(applied := sync.applied + {k})), sync.to,
              ApplyNode(c.nodes[sync.to], Write(k, sync.items[k])))
    case SyncAnswer(s, ok) => SetSync(c, s, c.syncs[s].(result := Some(ok)))
    case SyncDrop(s) =>
      var sync := c.syncs[s];
      SetNode(SetSync(c, s, sync.(closed := true)), sync.from, DropNode(c.nodes[sync.from], sync.to, sync.items))
  }

  /** `actions` can be taken one after the other from `c`. */
  predicate CanRun(c: Cluster, actions: seq<Action>)
    decreases |actions|
  {
    actions == [] || (Enabled(c, actions[0]) && CanRun(Next(c, actions[0]), actions[1..]))
  }

  function Run(c: Cluster, actions: seq<Action>): Cluster
    requires CanRun(c, actions)
    decreases |actions|
  {
    if actions == [] then c else Run(Next(c, actions[0]), actions[1..])
  }

  // ---- the invariant ----

  /** Some node stores, queues or sends this write: every later stage of a PUT, but not a record only minted. */
  predicate Visible(put: Put) {
    !put.stage.Minted? && !put.stage.ApChosen? && !put.stage.CpChosen?
  }

  predicate CpTaken(put: Put) {
    put.stage.CpSent? || put.stage.CpCommitted? || put.stage.CpDone? || put.stage.CpRejected?
  }

  predicate Answered200(put: Put) {
    put.stage.ApDone? || put.stage.CpDone?
  }

  predicate Written(puts: seq<Put>, w: Write) {
    exists p :: 0 <= p < |puts| && Visible(puts[p]) && puts[p].write == w
  }

  predicate Holds(nodes: seq<Node>, n: NodeId, w: Write) {
    n < |nodes| && HoldsAtLeast(nodes[n].data, w.key, w.record.version)
  }

  predicate Queued(nodes: seq<Node>, n: NodeId, peer: NodeId, w: Write) {
    n < |nodes| && peer in nodes[n].pending && HoldsAtLeast(nodes[n].pending[peer], w.key, w.record.version)
  }

  /** The peer already has the write or something newer, or the writer still has it or something newer to send. */
  predicate Covered(nodes: seq<Node>, put: Put, peer: NodeId) {
    Holds(nodes, peer, put.write) || Queued(nodes, put.origin, peer, put.write)
  }

  ghost predicate AllWritten(puts: seq<Put>, items: map<Key, Record>) {
    forall k :: k in items ==> Written(puts, Write(k, items[k]))
  }

  ghost predicate ClockBounds(clock: nat, items: map<Key, Record>) {
    forall k :: k in items ==> items[k].version.counter <= clock
  }

  /** What a node queues was written, by this very node, and its clock bounds it. */
  ghost predicate QueueOk(puts: seq<Put>, n: NodeId, clock: nat, queue: map<Key, Record>) {
    AllWritten(puts, queue) && ClockBounds(clock, queue) && forall k :: k in queue ==> queue[k].version.node == n
  }

  ghost predicate NodeOk(puts: seq<Put>, size: nat, n: NodeId, node: Node) {
    && node.pending.Keys == Peers(size, n)
    && AllWritten(puts, node.data) && ClockBounds(node.clock, node.data)
    && forall q :: q in node.pending ==> QueueOk(puts, n, node.clock, node.pending[q])
  }

  predicate MintedBy(put: Put, clock: nat) {
    put.write.record.version.node == put.origin && 1 <= put.write.record.version.counter <= clock
  }

  /** A stored request is held at that version or newer; an acknowledged one was stored; a settled one is covered. */
  predicate CallOk(nodes: seq<Node>, put: Put, q: NodeId, call: PeerCall) {
    && (call.delivered ==> Holds(nodes, q, put.write))
    && (call.result == Some(true) ==> call.delivered)
    && (call.settled ==> Covered(nodes, put, q))
  }

  ghost predicate PutOk(nodes: seq<Node>, put: Put) {
    && put.origin < |nodes| && MintedBy(put, nodes[put.origin].clock)
    && put.calls.Keys == (if CpTaken(put) then Peers(|nodes|, put.origin) else {})
    && (put.stage.ApStored? || Answered200(put) ==> Holds(nodes, put.origin, put.write))
    && (put.stage.ApDone? ==> forall q :: q in Peers(|nodes|, put.origin) ==> Covered(nodes, put, q))
    && (forall q :: q in put.calls ==> CallOk(nodes, put, q, put.calls[q]))
    && (put.stage.CpCommitted? || put.stage.CpDone? ==> 1 + |Ackers(put)| >= Quorum(|nodes|))
  }

  ghost predicate SyncOk(puts: seq<Put>, nodes: seq<Node>, sync: Sync) {
    && sync.from < |nodes| && sync.to < |nodes| && sync.from != sync.to
    && AllWritten(puts, sync.items)
    && sync.applied <= sync.items.Keys
    && (forall k :: k in sync.applied ==> Holds(nodes, sync.to, Write(k, sync.items[k])))
    && (sync.result == Some(true) ==> sync.applied == sync.items.Keys)
  }

  ghost predicate CopyOk(puts: seq<Put>, size: nat, copy: Copy) {
    copy.to < size && AllWritten(puts, copy.items)
  }

  /** No two records minted anywhere share a version. */
  ghost predicate VersionsUnique(puts: seq<Put>) {
    forall p, p' :: 0 <= p < p' < |puts| ==> puts[p].write.record.version != puts[p'].write.record.version
  }

  ghost predicate Inv(c: Cluster) {
    && VersionsUnique(c.puts)
    && (forall n :: 0 <= n < |c.nodes| ==> NodeOk(c.puts, |c.nodes|, n, c.nodes[n]))
    && (forall p :: 0 <= p < |c.puts| ==> PutOk(c.nodes, c.puts[p]))
    && (forall s :: 0 <= s < |c.syncs| ==> SyncOk(c.puts, c.nodes, c.syncs[s]))
    && (forall i :: 0 <= i < |c.copies| ==> CopyOk(c.puts, |c.nodes|, c.copies[i]))
  }
}
