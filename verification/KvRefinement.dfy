/** A PUT that nothing interleaves with does in the step system what the store's own method does. */
module KvRefinement {
  import opened Basics
  import opened Lww
  import opened KvStore
  import opened KvCluster
  import opened KvGuarantees
  import opened KvScripts

  lemma ApplyAfterMint(n: Node, self: NodeId, key: Key, value: string)
    ensures ApplyNode(MintNode(n), Write(key, MintRecord(n, self, value))).pending == n.pending
  {
  }

  // In ap mode: mint, read the mode, apply, enqueue.
  lemma ApPutAlone(c: Cluster, n: NodeId, key: Key, value: string) returns (actions: seq<Action>)
    requires n < |c.nodes| && c.nodes[n].ready && c.nodes[n].mode == Ap
    ensures CanRun(c, actions)
    ensures var d := Run(c, actions);
            && d.nodes == c.nodes[n := PutNode(c.nodes[n], n, key, value, []).0]
            && |d.puts| == |c.puts| + 1 && d.puts[|c.puts|].stage.ApDone?
            && PutNode(c.nodes[n], n, key, value, []).1 == Ok200
  {
    var p := |c.puts|;
    var node := c.nodes[n];
    var w := Write(key, MintRecord(node, n, value));
    actions := ChooseAp(c, n, key, value);
    var chosen := Run(c, actions);
    var stored := Next(chosen, ApStore(p));
    var more := Take(chosen, ApStore(p));
    actions := Then(c, actions, more);
    more := Take(stored, ApEnqueue(p));
    actions := Then(c, actions, more);
    ApplyAfterMint(node, n, key, value);
    assert stored.nodes[n] == ApplyNode(MintNode(node), w);
  }

  lemma ChooseAp(c: Cluster, n: NodeId, key: Key, value: string) returns (actions: seq<Action>)
    requires n < |c.nodes| && c.nodes[n].ready && c.nodes[n].mode == Ap
    ensures CanRun(c, actions)
    ensures var put := Put(n, Write(key, MintRecord(c.nodes[n], n, value)), ApChosen, map[]);
            Run(c, actions) == SetNode(c, n, MintNode(c.nodes[n])).(puts := c.puts + [put])
  {
    var p := |c.puts|;
    var minted := Next(c, Mint(n, key, value));
    actions := Take(c, Mint(n, key, value));
    var more := Take(minted, ReadMode(p));
    actions := Then(c, actions, more);
    var put := Put(n, Write(key, MintRecord(c.nodes[n], n, value)), ApChosen, map[]);
    assert Next(minted, ReadMode(p)).puts == c.puts + [put];
  }

  /** The peers that answered no, among those whose callback is still to run. */
  function StillToQueue(put: Put, left: set<NodeId>): set<NodeId> {
    set q | q in left && q in put.calls && put.calls[q].result == Some(false)
  }

  lemma EnqueueTwice(n: Node, a: set<NodeId>, b: set<NodeId>, w: Write)
    ensures EnqueueNode(EnqueueNode(n, a, w), b, w) == EnqueueNode(n, a + b, w)
  {
    var once := EnqueueNode(n, a, w);
    assert EnqueueNode(once, b, w).pending == EnqueueNode(n, a + b, w).pending;
  }

  lemma EnqueueNone(n: Node, w: Write)
    ensures EnqueueNode(n, {}, w) == n
  {
    assert EnqueueNode(n, {}, w).pending == n.pending;
  }

  lemma CallbackStep(c: Cluster, p: nat, q: NodeId)
    requires p < |c.puts| && Enabled(c, CpCallback(p, q))
    ensures var put := c.puts[p];
            var d := Next(c, CpCallback(p, q));
            && d.puts == c.puts[p := SetCall(put, q, put.calls[q].(settled := true))]
            && d.nodes == c.nodes[put.origin := EnqueueNode(c.nodes[put.origin], StillToQueue(put, {q}), put.write)]
  {
    var put := c.puts[p];
    if put.calls[q].result.value {
      assert StillToQueue(put, {q}) == {};
      EnqueueNone(c.nodes[put.origin], put.write);
    } else {
      assert StillToQueue(put, {q}) == {q};
    }
  }

  /** From `c` to `d` the callbacks for the peers in `left` ran: the origin queued the write for those that missed it. */
  ghost predicate CallbacksRan(c: Cluster, d: Cluster, p: nat, left: set<NodeId>) {
    && AtStage(c, p, CpCommitted) && AtStage(d, p, CpCommitted)
    && var put := c.puts[p];
       && d.nodes == c.nodes[put.origin := EnqueueNode(c.nodes[put.origin], StillToQueue(put, left), put.write)]
       && d.puts[p].write == put.write && d.puts[p].origin == put.origin
  }

  ghost predicate Unsettled(put: Put, left: set<NodeId>) {
    forall q :: q in left ==> q in put.calls && put.calls[q].result.Some? && !put.calls[q].settled
  }

  lemma SplitQueue(put: Put, q: NodeId, rest: set<NodeId>)
    requires q in put.calls && q !in rest
    ensures StillToQueue(SetCall(put, q, put.calls[q].(settled := true)), rest) == StillToQueue(put, rest)
    ensures StillToQueue(put, {q}) + StillToQueue(put, rest) == StillToQueue(put, {q} + rest)
  {
  }

  lemma FirstCallback(c: Cluster, p: nat, q: NodeId, rest: set<NodeId>)
    requires AtStage(c, p, CpCommitted) && Unsettled(c.puts[p], {q} + rest) && q !in rest
    ensures Enabled(c, CpCallback(p, q))
    ensures var d := Next(c, CpCallback(p, q)); AtStage(d, p, CpCommitted) && Unsettled(d.puts[p], rest)
  {
    assert q in {q} + rest;
    CallbackStep(c, p, q);
  }

  lemma OneMoreCallback(c: Cluster, p: nat, q: NodeId, e: Cluster, rest: set<NodeId>)
    requires AtStage(c, p, CpCommitted) && Enabled(c, CpCallback(p, q)) && q !in rest
    requires CallbacksRan(Next(c, CpCallback(p, q)), e, p, rest)
    ensures CallbacksRan(c, e, p, {q} + rest)
  {
    var put := c.puts[p];
    CallbackStep(c, p, q);
    SplitQueue(put, q, rest);
    EnqueueTwice(c.nodes[put.origin], StillToQueue(put, {q}), StillToQueue(put, rest), put.write);
  }

  lemma NoCallback(c: Cluster, p: nat)
    requires AtStage(c, p, CpCommitted)
    ensures CallbacksRan(c, c, p, {})
  {
    var put := c.puts[p];
    assert StillToQueue(put, {}) == {};
    EnqueueNone(c.nodes[put.origin], put.write);
  }

  // The done-callbacks of a committed write queue exactly the peers that answered no, whatever order they run in.
  lemma {:induction false} CallbacksQueueTheMissed(c: Cluster, p: nat, left: set<NodeId>) returns (actions: seq<Action>)
    requires AtStage(c, p, CpCommitted) && Unsettled(c.puts[p], left)
    ensures CanRun(c, actions) && CallbacksRan(c, Run(c, actions), p, left)
    decreases |left|
  {
    if left == {} {
      NoCallback(c, p);
      actions := [];
    } else {
      var q :| q in left;
      var rest := left - {q};
      assert left == {q} + rest;
      FirstCallback(c, p, q, rest);
      actions := Take(c, CpCallback(p, q));
      var more := CallbacksQueueTheMissed(Run(c, actions), p, rest);
      OneMoreCallback(c, p, q, Run(Run(c, actions), more), rest);
      actions := Then(c, actions, more);
    }
  }

  // In cp mode, once every peer answered and a quorum said yes: commit, callbacks and the local apply leave the origin
  // with the write applied and queued for exactly the peers that missed it.
  lemma CommitAlone(c: Cluster, p: nat) returns (actions: seq<Action>)
    requires AtStage(c, p, CpSent) && 1 + |Ackers(c.puts[p])| >= Quorum(|c.nodes|)
    requires Unsettled(c.puts[p], c.puts[p].calls.Keys)
    ensures CanRun(c, actions)
    ensures var put := c.puts[p];
            var missed := StillToQueue(put, put.calls.Keys);
            var d := Run(c, actions);
            && d.nodes == c.nodes[put.origin := ApplyNode(EnqueueNode(c.nodes[put.origin], missed, put.write), put.write)]
            && p < |d.puts| && d.puts[p].stage.CpDone?
  {
    var put := c.puts[p];
    var committed := Next(c, CpCommit(p));
    actions := Take(c, CpCommit(p));
    var more := CallbacksQueueTheMissed(committed, p, put.calls.Keys);
    actions := Then(c, actions, more);
    assert StillToQueue(committed.puts[p], put.calls.Keys) == StillToQueue(put, put.calls.Keys);
    var queued := Run(committed, more);
    more := Take(queued, CpStore(p));
    actions := Then(c, actions, more);
  }

  // ---- a whole cp PUT ----

  /** The peers that said yes. */
  function Yes(answers: seq<Answer>): set<NodeId> {
    set a | a in answers && a.ok :: a.peer
  }

  function Asked(answers: seq<Answer>): set<NodeId> {
    set a | a in answers :: a.peer
  }

  ghost predicate Distinct(answers: seq<Answer>) {
    forall i, j :: 0 <= i < j < |answers| ==> answers[i].peer != answers[j].peer
  }

  function ResultIn(answers: seq<Answer>, q: NodeId): Option<bool> {
    if q in Yes(answers) then Some(true) else if q in Asked(answers) then Some(false) else None
  }

  /** From `c` to `d` exactly these answers to PUT number `p` came in; the peers that said yes stored its write. */
  ghost predicate CameIn(c: Cluster, d: Cluster, p: nat, answers: seq<Answer>) {
    && AtStage(c, p, CpSent) && |d.nodes| == |c.nodes| && |d.puts| == |c.puts| && d.puts == c.puts[p := d.puts[p]]
    && d.puts[p] == c.puts[p].(calls := d.puts[p].calls) && d.puts[p].calls.Keys == c.puts[p].calls.Keys
    && (forall q :: q in c.puts[p].calls ==>
                      && !d.puts[p].calls[q].settled
                      && d.puts[p].calls[q].result == ResultIn(answers, q))
    && (forall m :: 0 <= m < |c.nodes| ==>
                      d.nodes[m] == if m in Yes(answers) then ApplyNode(c.nodes[m], c.puts[p].write) else c.nodes[m])
  }

  lemma YesOfAppend(answers: seq<Answer>, last: Answer)
    ensures Yes(answers + [last]) == Yes(answers) + if last.ok then {last.peer} else {}
    ensures Asked(answers + [last]) == Asked(answers) + {last.peer}
  {
    forall a | a in answers ensures a in answers + [last] {}
    assert (answers + [last])[|answers|] == last;
  }

  lemma OneMoreYes(c: Cluster, d: Cluster, p: nat, answers: seq<Answer>, last: Answer)
    requires CameIn(c, d, p, answers) && last.peer !in Asked(answers) && last.ok
    requires last.peer in c.puts[p].calls && last.peer < |c.nodes|
    ensures CameIn(c, Answered(d, p, last.peer, true), p, answers + [last])
  {
    YesOfAppend(answers, last);
    assert last.peer !in Yes(answers);
  }

  lemma OneMoreNo(c: Cluster, d: Cluster, p: nat, answers: seq<Answer>, last: Answer)
    requires CameIn(c, d, p, answers) && last.peer !in Asked(answers) && !last.ok
    requires last.peer in c.puts[p].calls
    ensures Enabled(d, CpAnswer(p, last.peer, false))
    ensures CameIn(c, Next(d, CpAnswer(p, last.peer, false)), p, answers + [last])
  {
    YesOfAppend(answers, last);
    assert last.peer !in Yes(answers);
  }

  lemma OneMoreAnswer(c: Cluster, d: Cluster, p: nat, answers: seq<Answer>, last: Answer) returns (more: seq<Action>)
    requires CameIn(c, d, p, answers) && last.peer !in Asked(answers)
    requires last.peer in c.puts[p].calls && last.peer < |c.nodes|
    ensures CanRun(d, more) && CameIn(c, Run(d, more), p, answers + [last])
  {
    if last.ok {
      OneMoreYes(c, d, p, answers, last);
      assert last.peer !in Yes(answers);
      more := DeliverAndAnswer(d, p, last.peer, true);
    } else {
      OneMoreNo(c, d, p, answers, last);
      more := Take(d, CpAnswer(p, last.peer, false));
    }
  }

  lemma LastIsNew(answers: seq<Answer>)
    requires answers != [] && Distinct(answers)
    ensures answers[|answers| - 1].peer !in Asked(answers[..|answers| - 1])
    ensures Asked(answers) == Asked(answers[..|answers| - 1]) + {answers[|answers| - 1].peer}
  {
    var init, last := answers[..|answers| - 1], answers[|answers| - 1];
    assert answers == init + [last];
    YesOfAppend(init, last);
    forall i | 0 <= i < |init| ensures init[i].peer != last.peer {
      assert init[i] == answers[i];
    }
  }

  lemma ThenOneMore(c: Cluster, p: nat, xs: seq<Action>, answers: seq<Answer>, last: Answer) returns (actions: seq<Action>)
    requires CanRun(c, xs) && CameIn(c, Run(c, xs), p, answers) && last.peer !in Asked(answers)
    requires last.peer in c.puts[p].calls && last.peer < |c.nodes|
    ensures CanRun(c, actions) && CameIn(c, Run(c, actions), p, answers + [last])
  {
    var more := OneMoreAnswer(c, Run(c, xs), p, answers, last);
    actions := Then(c, xs, more);
  }

  lemma {:induction false} AnswersComeIn(c: Cluster, p: nat, answers: seq<Answer>) returns (actions: seq<Action>)
    requires CameIn(c, c, p, []) && Distinct(answers)
    requires Asked(answers) <= c.puts[p].calls.Keys && forall q :: q in c.puts[p].calls ==> q < |c.nodes|
    ensures CanRun(c, actions) && CameIn(c, Run(c, actions), p, answers)
    decreases |answers|
  {
    if answers == [] {
      actions := [];
    } else {
      var init, last := answers[..|answers| - 1], answers[|answers| - 1];
      assert answers == init + [last];
      LastIsNew(answers);
      actions := AnswersComeIn(c, p, init);
      actions := ThenOneMore(c, p, actions, init, last);
    }
  }

  lemma {:induction false} AskedCount(answers: seq<Answer>)
    requires Distinct(answers)
    ensures |Asked(answers)| == |answers|
    decreases |answers|
  {
    if answers != [] {
      LastIsNew(answers);
      AskedCount(answers[..|answers| - 1]);
    }
  }

  lemma YesOfLast(answers: seq<Answer>)
    requires answers != [] && Distinct(answers)
    ensures var init, last := answers[..|answers| - 1], answers[|answers| - 1];
            && |Yes(answers)| == |Yes(init)| + (if last.ok then 1 else 0)
            && CountTrue(Oks(answers)) == CountTrue(Oks(init)) + if last.ok then 1 else 0
  {
    var init, last := answers[..|answers| - 1], answers[|answers| - 1];
    LastIsNew(answers);
    assert answers == init + [last];
    YesOfAppend(init, last);
    assert last.peer !in Yes(init);
    assert Oks(answers) == Oks(init) + [last.ok];
    CountTrueOfAppend(Oks(init), [last.ok]);
  }

  lemma {:induction false} YesCount(answers: seq<Answer>)
    requires Distinct(answers)
    ensures |Yes(answers)| == CountTrue(Oks(answers))
    decreases |answers|
  {
    if answers != [] {
      YesOfLast(answers);
      YesCount(answers[..|answers| - 1]);
    }
  }

  lemma PeersCount(size: nat, n: NodeId)
    requires n < size
    ensures |Peers(size, n)| == size - 1
  {
    IdsCount(size);
    assert Peers(size, n) == Ids(size) - {n};
  }

  // Every peer answers a new PUT, as `answers` say.
  lemma SendAndAsk(c: Cluster, n: NodeId, key: Key, value: string, answers: seq<Answer>) returns (actions: seq<Action>)
    requires n < |c.nodes| && c.nodes[n].ready && c.nodes[n].mode == Cp
    requires Distinct(answers) && Asked(answers) == Peers(|c.nodes|, n)
    ensures CanRun(c, actions) && CameIn(Sent(c, n, key, value), Run(c, actions), |c.puts|, answers)
  {
    actions := SendWrite(c, n, key, value);
    var sent := Sent(c, n, key, value);
    assert sent.puts[|c.puts|].calls.Keys == Peers(|c.nodes|, n);
    var more := AnswersComeIn(sent, |c.puts|, answers);
    actions := Then(c, actions, more);
  }

  lemma VotesCounted(put: Put, answers: seq<Answer>)
    requires Distinct(answers) && Asked(answers) == put.calls.Keys
    requires forall q :: q in put.calls ==> put.calls[q].result == ResultIn(answers, q)
    ensures |Ackers(put)| == CountTrue(Oks(answers)) && StillToQueue(put, put.calls.Keys) == put.calls.Keys - Yes(answers)
  {
    YesCount(answers);
    assert Ackers(put) == Yes(answers);
  }

  lemma MissedAreTheOthers(answers: seq<Answer>)
    requires Distinct(answers)
    ensures Missed(answers) == Asked(answers) - Yes(answers)
  {
    forall x, y | x in answers && y in answers && x.peer == y.peer ensures x == y {
      var i :| 0 <= i < |answers| && answers[i] == x;
      var j :| 0 <= j < |answers| && answers[j] == y;
    }
  }

  /** The origin is as the store's own method leaves it; of the peers, exactly those that said yes have the write. */
  ghost predicate EndsAsPut(c: Cluster, d: Cluster, n: NodeId, key: Key, value: string, answers: seq<Answer>)
    requires n < |c.nodes|
  {
    && |d.nodes| == |c.nodes| && |c.puts| < |d.puts|
    && d.nodes[n] == PutNode(c.nodes[n], n, key, value, answers).0
    && d.puts[|c.puts|].stage == (if PutNode(c.nodes[n], n, key, value, answers).1 == Ok200 then CpDone else CpRejected)
    && forall q :: 0 <= q < |c.nodes| && q != n ==>
         d.nodes[q] == if q in Yes(answers) then ApplyNode(c.nodes[q], NewWrite(c, n, key, value)) else c.nodes[q]
  }

  lemma RejectEnds(c: Cluster, asked: Cluster, n: NodeId, key: Key, value: string, answers: seq<Answer>)
    requires n < |c.nodes| && c.nodes[n].ready && c.nodes[n].mode == Cp && n !in Yes(answers)
    requires CameIn(Sent(c, n, key, value), asked, |c.puts|, answers)
    requires 1 + CountTrue(Oks(answers)) < Quorum(|answers| + 1) && Enabled(asked, CpReject(|c.puts|))
    ensures EndsAsPut(c, Next(asked, CpReject(|c.puts|)), n, key, value, answers)
  {
  }

  lemma CommitEnds(c: Cluster, asked: Cluster, d: Cluster, n: NodeId, key: Key, value: string, answers: seq<Answer>)
    requires n < |c.nodes| && c.nodes[n].ready && c.nodes[n].mode == Cp && n !in Yes(answers)
    requires CameIn(Sent(c, n, key, value), asked, |c.puts|, answers)
    requires 1 + CountTrue(Oks(answers)) >= Quorum(|answers| + 1)
    requires var w := NewWrite(c, n, key, value);
             d.nodes == asked.nodes[n := ApplyNode(EnqueueNode(asked.nodes[n], Missed(answers), w), w)]
    requires |c.puts| < |d.puts| && d.puts[|c.puts|].stage.CpDone?
    ensures EndsAsPut(c, d, n, key, value, answers)
  {
  }

  lemma RejectPart(c: Cluster, asked: Cluster, n: NodeId, key: Key, value: string, answers: seq<Answer>)
    returns (actions: seq<Action>)
    requires n < |c.nodes| && c.nodes[n].ready && c.nodes[n].mode == Cp && n !in Yes(answers)
    requires CameIn(Sent(c, n, key, value), asked, |c.puts|, answers) && |answers| + 1 == |c.nodes|
    requires Distinct(answers) && Asked(answers) == Peers(|c.nodes|, n)
    requires 1 + CountTrue(Oks(answers)) < Quorum(|answers| + 1)
    ensures CanRun(asked, actions) && EndsAsPut(c, Run(asked, actions), n, key, value, answers)
  {
    VotesCounted(asked.puts[|c.puts|], answers);
    actions := Take(asked, CpReject(|c.puts|));
    RejectEnds(c, asked, n, key, value, answers);
  }

  lemma CommitPart(c: Cluster, asked: Cluster, n: NodeId, key: Key, value: string, answers: seq<Answer>)
    returns (actions: seq<Action>)
    requires n < |c.nodes| && c.nodes[n].ready && c.nodes[n].mode == Cp && n !in Yes(answers)
    requires CameIn(Sent(c, n, key, value), asked, |c.puts|, answers) && |answers| + 1 == |c.nodes|
    requires Distinct(answers) && Asked(answers) == Peers(|c.nodes|, n)
    requires 1 + CountTrue(Oks(answers)) >= Quorum(|answers| + 1)
    ensures CanRun(asked, actions) && EndsAsPut(c, Run(asked, actions), n, key, value, answers)
  {
    VotesCounted(asked.puts[|c.puts|], answers);
    MissedAreTheOthers(answers);
    actions := CommitAlone(asked, |c.puts|);
    CommitEnds(c, asked, Run(asked, actions), n, key, value, answers);
  }

  // In cp mode: mint, read the mode, send, take the answers, then reject, or commit, run the callbacks and apply.
  lemma CpPutAlone(c: Cluster, n: NodeId, key: Key, value: string, answers: seq<Answer>) returns (actions: seq<Action>)
    requires n < |c.nodes| && c.nodes[n].ready && c.nodes[n].mode == Cp
    requires Distinct(answers) && Asked(answers) == Peers(|c.nodes|, n)
    ensures CanRun(c, actions) && EndsAsPut(c, Run(c, actions), n, key, value, answers)
  {
    actions := SendAndAsk(c, n, key, value, answers);
    var asked := Run(c, actions);
    AskedCount(answers);
    PeersCount(|c.nodes|, n);
    assert n !in Asked(answers);
    var more;
    if 1 + CountTrue(Oks(answers)) < Quorum(|answers| + 1) {
      more := RejectPart(c, asked, n, key, value, answers);
    } else {
      more := CommitPart(c, asked, n, key, value, answers);
    }
    actions := Then(c, actions, more);
  }

  // ---- warming up ----

  lemma OneMoreItem(c: Cluster, start: Node, i: nat, k: Key, order: seq<Write>)
    requires Enabled(c, CopyItem(i, k)) && c.nodes[c.copies[i].to] == ReplicateNode(start, order)
    ensures var d := Next(c, CopyItem(i, k));
            d.copies == c.copies && d.nodes ==
            c.nodes[c.copies[i].to := ReplicateNode(start, order + [Write(k, c.copies[i].items[k])])]
  {
    var w := Write(k, c.copies[i].items[k]);
    ReplicateOfAppend(start, order, [w]);
    assert [w][1..] == [];
    assert ReplicateNode(ReplicateNode(start, order), [w]) == ReplicateNode(ApplyNode(ReplicateNode(start, order), w), []);
  }

  /** From `c` to `d` the node took in `order`, and nothing else happened to the nodes and the copies. */
  ghost predicate TookIn(c: Cluster, d: Cluster, n: NodeId, order: seq<Write>)
    requires n < |c.nodes|
  {
    d.copies == c.copies && d.nodes == c.nodes[n := ReplicateNode(c.nodes[n], order)]
  }

  lemma {:induction false} CopyAll(c: Cluster, i: nat, left: set<Key>) returns (actions: seq<Action>, order: seq<Write>)
    requires i < |c.copies| && c.copies[i].to < |c.nodes| && left <= c.copies[i].items.Keys
    ensures CanRun(c, actions) && TookIn(c, Run(c, actions), c.copies[i].to, order)
    ensures WritesIn(order) == set k | k in left :: Write(k, c.copies[i].items[k])
    decreases |left|
  {
    var n := c.copies[i].to;
    if left == {} {
      actions, order := [], [];
    } else {
      var k :| k in left;
      var init, items := left - {k}, c.copies[i].items;
      actions, order := CopyAll(c, i, init);
      var d := Run(c, actions);
      OneMoreItem(d, c.nodes[n], i, k, order);
      var more := Take(d, CopyItem(i, k));
      actions := Then(c, actions, more);
      assert WritesIn(order + [Write(k, items[k])]) == WritesIn(order) + {Write(k, items[k])};
      order := order + [Write(k, items[k])];
    }
  }

  // Fetching a snapshot from a peer and copying all of it leaves the node as the store's warm-up does: at the pointwise
  // newest of its data and the peer's, with the clock these call for.
  lemma WarmUpAlone(c: Cluster, n: NodeId, peer: NodeId) returns (actions: seq<Action>)
    requires Enabled(c, FetchSnapshot(n, peer))
    ensures CanRun(c, actions)
    ensures var d := Run(c, actions);
            && |d.nodes| == |c.nodes| && (forall m :: 0 <= m < |c.nodes| && m != n ==> d.nodes[m] == c.nodes[m])
            && d.nodes[n].ready && CaughtUp(c.nodes[n], d.nodes[n], WritesOf(c.nodes[peer].data))
  {
    var fetched := Next(c, FetchSnapshot(n, peer));
    actions := Take(c, FetchSnapshot(n, peer));
    var items := fetched.copies[|c.copies|].items;
    var more, order := CopyAll(fetched, |c.copies|, items.Keys);
    actions := Then(c, actions, more);
    assert WritesIn(order) == WritesOf(items);
    ReplicateCatchesUp(c.nodes[n], order);
    var copied := Run(fetched, more);
    more := Take(copied, BecomeReady(n));
    actions := Then(c, actions, more);
  }
}
