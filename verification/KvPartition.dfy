/**
 * Which side of a partition can commit cp writes: exactly the origins that reach a majority, themselves included.
 */
module KvPartition {
  import opened Basics
  import opened Lww
  import opened KvStore
  import opened KvCluster
  import opened KvProofs
  import opened KvGuarantees
  import opened KvScripts

  predicate AreNodes(c: Cluster, group: set<NodeId>) {
    forall m :: m in group ==> m < |c.nodes|
  }

  /** A committed write of `origin` for which only nodes of `group` voted. */
  predicate CommittedWithin(put: Put, origin: NodeId, group: set<NodeId>) {
    put.origin == origin && (put.stage.CpCommitted? || put.stage.CpDone?) && Ackers(put) <= group
  }

  ghost predicate CommittedSince(c: Cluster, since: nat, origin: NodeId, group: set<NodeId>) {
    exists p :: since <= p < |c.puts| && CommittedWithin(c.puts[p], origin, group)
  }

  // Any node can become ready and be switched to cp.
  lemma SwitchToCp(c: Cluster, n: NodeId) returns (actions: seq<Action>)
    requires n < |c.nodes|
    ensures CanRun(c, actions) && Run(c, actions) == SetNode(c, n, c.nodes[n].(ready := true, mode := Cp))
  {
    var ready := Next(c, BecomeReady(n));
    actions := Take(c, BecomeReady(n));
    var more := Take(ready, SetMode(n, Cp));
    actions := Then(c, actions, more);
  }

  ghost predicate StillToAnswer(put: Put, left: set<NodeId>) {
    forall q :: q in left ==> q in put.calls && put.calls[q].result.None?
  }

  /** From `c` to `d` only PUT number `p` moved on: `more` voted for it, and the others still may. */
  ghost predicate Voted(c: Cluster, d: Cluster, p: nat, more: set<NodeId>) {
    && |d.nodes| == |c.nodes| && AtStage(c, p, CpSent) && AtStage(d, p, CpSent)
    && d.puts == c.puts[p := d.puts[p]] && d.puts[p].origin == c.puts[p].origin
    && d.puts[p].calls.Keys == c.puts[p].calls.Keys
    && Ackers(d.puts[p]) == Ackers(c.puts[p]) + more
    && forall q :: q in c.puts[p].calls && q !in more ==> d.puts[p].calls[q] == c.puts[p].calls[q]
  }

  lemma AnswerIsAVote(c: Cluster, p: nat, q: NodeId)
    requires AtStage(c, p, CpSent) && q in c.puts[p].calls && q < |c.nodes|
    ensures Voted(c, Answered(c, p, q, true), p, {q})
  {
  }

  lemma OneVote(c: Cluster, p: nat, q: NodeId) returns (actions: seq<Action>)
    requires AtStage(c, p, CpSent) && q < |c.nodes| && StillToAnswer(c.puts[p], {q})
    ensures CanRun(c, actions) && Voted(c, Run(c, actions), p, {q})
  {
    actions := DeliverAndAnswer(c, p, q, true);
    AnswerIsAVote(c, p, q);
  }

  lemma OthersStillToAnswer(c: Cluster, d: Cluster, p: nat, q: NodeId, left: set<NodeId>)
    requires Voted(c, d, p, {q}) && AreNodes(c, left) && StillToAnswer(c.puts[p], left)
    ensures AreNodes(d, left - {q}) && StillToAnswer(d.puts[p], left - {q})
  {
  }

  lemma VotesAddUp(c: Cluster, d: Cluster, e: Cluster, p: nat, xs: set<NodeId>, ys: set<NodeId>)
    requires Voted(c, d, p, xs) && Voted(d, e, p, ys)
    ensures Voted(c, e, p, xs + ys)
  {
  }

  lemma NoVote(c: Cluster, p: nat)
    requires AtStage(c, p, CpSent)
    ensures Voted(c, c, p, {})
  {
  }

  lemma VoteThen(c: Cluster, xs: seq<Action>, ys: seq<Action>, p: nat, a: set<NodeId>, b: set<NodeId>)
    returns (actions: seq<Action>)
    requires CanRun(c, xs) && Voted(c, Run(c, xs), p, a)
    requires CanRun(Run(c, xs), ys) && Voted(Run(c, xs), Run(Run(c, xs), ys), p, b)
    ensures CanRun(c, actions) && Voted(c, Run(c, actions), p, a + b)
  {
    actions := Then(c, xs, ys);
    VotesAddUp(c, Run(c, xs), Run(c, actions), p, a, b);
  }

  // The nodes in `left` store the write of a PUT and say yes, and nothing else happens.
  lemma {:induction false} Vote(c: Cluster, p: nat, left: set<NodeId>) returns (actions: seq<Action>)
    requires AtStage(c, p, CpSent) && AreNodes(c, left) && StillToAnswer(c.puts[p], left)
    ensures CanRun(c, actions) && Voted(c, Run(c, actions), p, left)
    decreases |left|
  {
    if left == {} {
      NoVote(c, p);
      actions := [];
    } else {
      var q :| q in left;
      var rest := left - {q};
      assert left == {q} + rest;
      var first := OneVote(c, p, q);
      OthersStillToAnswer(c, Run(c, first), p, q, left);
      var more := Vote(Run(c, first), p, rest);
      actions := VoteThen(c, first, more, p, {q}, rest);
    }
  }

  lemma StartPut(c: Cluster, n: NodeId) returns (actions: seq<Action>)
    requires n < |c.nodes|
    ensures CanRun(c, actions)
    ensures var d := Run(c, actions);
            var p := |c.puts|;
            && |d.nodes| == |c.nodes| && |d.puts| == p + 1 && d.puts[..p] == c.puts
            && AtStage(d, p, CpSent) && d.puts[p].origin == n && d.puts[p].calls == Unanswered(|c.nodes|, n)
            && Ackers(d.puts[p]) == {}
  {
    actions := SwitchToCp(c, n);
    var more := SendWrite(Run(c, actions), n, "k", "v");
    actions := Then(c, actions, more);
  }

  // A node that reaches a majority, itself included, can commit with the votes of exactly these nodes.
  lemma MajorityCanCommit(c: Cluster, n: NodeId, group: set<NodeId>) returns (actions: seq<Action>)
    requires n in group && AreNodes(c, group) && |group| >= Quorum(|c.nodes|)
    ensures CanRun(c, actions)
    ensures var d := Run(c, actions);
            && |d.nodes| == |c.nodes| && |d.puts| == |c.puts| + 1 && d.puts[..|c.puts|] == c.puts
            && d.puts[|c.puts|].origin == n && d.puts[|c.puts|].stage.CpCommitted?
            && Ackers(d.puts[|c.puts|]) == group - {n}
  {
    var p := |c.puts|;
    actions := StartPut(c, n);
    var sent := Run(c, actions);
    var more := Vote(sent, p, group - {n});
    actions := Then(c, actions, more);
    var voted := Run(sent, more);
    more := Take(voted, CpCommit(p));
    actions := Then(c, actions, more);
    assert Ackers(Next(voted, CpCommit(p)).puts[p]) == Ackers(voted.puts[p]);
  }

  lemma CommittedNeedsMajority(c: Cluster, since: nat, n: NodeId, group: set<NodeId>)
    requires Inv(c) && n in group && CommittedSince(c, since, n, group)
    ensures |group| >= Quorum(|c.nodes|)
  {
    var p :| since <= p < |c.puts| && CommittedWithin(c.puts[p], n, group);
    assert PutOk(c.nodes, c.puts[p]);
    VotersAreAQuorum(c.nodes, c.puts[p]);
    SubsetIsSmaller(Ackers(c.puts[p]) + {n}, group);
  }

  ghost predicate CanCommit(c: Cluster, n: NodeId, group: set<NodeId>) {
    exists actions :: CanRun(c, actions) && CommittedSince(Run(c, actions), |c.puts|, n, group)
  }

  // From any reachable state, a node whose requests reach exactly `group` can commit iff `group` is a majority.
  lemma CanCommitIff(c: Cluster, n: NodeId, group: set<NodeId>)
    requires Inv(c) && n in group && AreNodes(c, group)
    ensures CanCommit(c, n, group) <==> |group| >= Quorum(|c.nodes|)
  {
    if CanCommit(c, n, group) {
      var actions :| CanRun(c, actions) && CommittedSince(Run(c, actions), |c.puts|, n, group);
      RunKeepsInv(c, actions);
      RunNeverForgets(c, actions);
      CommittedNeedsMajority(Run(c, actions), |c.puts|, n, group);
    }
    if |group| >= Quorum(|c.nodes|) {
      var actions := MajorityCanCommit(c, n, group);
      assert CommittedWithin(Run(c, actions).puts[|c.puts|], n, group);
      assert CommittedSince(Run(c, actions), |c.puts|, n, group);
    }
  }

  ghost predicate BothCommit(c: Cluster, since: nat, n: NodeId, a: set<NodeId>, m: NodeId, b: set<NodeId>) {
    CommittedSince(c, since, n, a) && CommittedSince(c, since, m, b)
  }

  ghost predicate BothCanCommit(c: Cluster, n: NodeId, a: set<NodeId>, m: NodeId, b: set<NodeId>) {
    exists actions :: CanRun(c, actions) && BothCommit(Run(c, actions), |c.puts|, n, a, m, b)
  }

  lemma BothMajoritiesCanCommit(c: Cluster, n: NodeId, a: set<NodeId>, m: NodeId, b: set<NodeId>)
    returns (actions: seq<Action>)
    requires n in a && AreNodes(c, a) && |a| >= Quorum(|c.nodes|)
    requires m in b && AreNodes(c, b) && |b| >= Quorum(|c.nodes|)
    ensures CanRun(c, actions)
    ensures var d := Run(c, actions);
            var p := |c.puts|;
            && |d.puts| == p + 2
            && d.puts[p].origin == n && d.puts[p].stage.CpCommitted? && Ackers(d.puts[p]) == a - {n}
            && d.puts[p + 1].origin == m && d.puts[p + 1].stage.CpCommitted? && Ackers(d.puts[p + 1]) == b - {m}
  {
    actions := MajorityCanCommit(c, n, a);
    var once := Run(c, actions);
    var more := MajorityCanCommit(once, m, b);
    actions := Then(c, actions, more);
    var twice := Run(once, more);
    assert twice.puts[|c.puts|] == twice.puts[..|once.puts|][|c.puts|];
  }

  // Two nodes can both commit, each with the votes of the nodes it reaches, iff each reaches a majority. The two sets
  // then share a node, so cutting the links between two sides is not enough to keep one of them from committing.
  lemma BothCanCommitIff(c: Cluster, n: NodeId, a: set<NodeId>, m: NodeId, b: set<NodeId>)
    requires Inv(c) && n in a && AreNodes(c, a) && m in b && AreNodes(c, b)
    ensures BothCanCommit(c, n, a, m, b) <==> |a| >= Quorum(|c.nodes|) && |b| >= Quorum(|c.nodes|)
    ensures BothCanCommit(c, n, a, m, b) ==> a * b != {}
  {
    if BothCanCommit(c, n, a, m, b) {
      var actions :| CanRun(c, actions) && BothCommit(Run(c, actions), |c.puts|, n, a, m, b);
      assert CanCommit(c, n, a) && CanCommit(c, m, b);
      CanCommitIff(c, n, a);
      CanCommitIff(c, m, b);
      QuorumsIntersect(|c.nodes|, a, b);
    }
    if |a| >= Quorum(|c.nodes|) && |b| >= Quorum(|c.nodes|) {
      var actions := BothMajoritiesCanCommit(c, n, a, m, b);
      var d := Run(c, actions);
      assert CommittedWithin(d.puts[|c.puts|], n, a) && CommittedWithin(d.puts[|c.puts| + 1], m, b);
      assert BothCommit(d, |c.puts|, n, a, m, b);
    }
  }

  predicate CommittedVia(put: Put, origin: NodeId, peer: NodeId) {
    put.origin == origin && put.stage.CpCommitted? && Ackers(put) == {peer}
  }

  // The smallest case: nodes 0 and 1 cannot talk to each other, yet both commit through node 2.
  lemma BridgeLetsBothSidesCommit(start: Cluster) returns (actions: seq<Action>)
    requires Initial(start) && |start.nodes| == 3
    ensures CanRun(start, actions)
    ensures var c := Run(start, actions);
            |c.puts| == 2 && CommittedVia(c.puts[0], 0, 2) && CommittedVia(c.puts[1], 1, 2)
  {
    assert |{0, 2}| == 2 && |{1, 2}| == 2;
    actions := BothMajoritiesCanCommit(start, 0, {0, 2}, 1, {1, 2});
  }
}
