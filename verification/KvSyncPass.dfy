/** The background sync: one acknowledged pass of every node's loop empties the queues and makes the replicas equal. */
module KvSyncPass {
  import opened Basics
  import opened Lww
  import opened KvStore
  import opened KvCluster
  import opened KvProofs
  import opened KvGuarantees

  /** A step that no PUT takes. */
  predicate Quiet(a: Action) {
    a.SetMode? || a.FetchSnapshot? || a.CopyItem? || a.BecomeReady?
    || a.SyncStart? || a.SyncDeliver? || a.SyncAnswer? || a.SyncDrop?
  }

  predicate AllQuiet(actions: seq<Action>) {
    forall i :: 0 <= i < |actions| ==> Quiet(actions[i])
  }

  lemma {:induction false} RunOfAppend(c: Cluster, xs: seq<Action>, ys: seq<Action>)
    ensures CanRun(c, xs + ys) <==> CanRun(c, xs) && CanRun(Run(c, xs), ys)
    ensures CanRun(c, xs + ys) ==> Run(c, xs + ys) == Run(Run(c, xs), ys)
    decreases |xs|
  {
    if xs == [] {
      assert xs + ys == ys;
    } else {
      assert (xs + ys)[1..] == xs[1..] + ys;
      if Enabled(c, xs[0]) {
        RunOfAppend(Next(c, xs[0]), xs[1..], ys);
      }
    }
  }

  // ---- without PUTs the queues only shrink ----

  predicate PartOf(small: map<Key, Record>, big: map<Key, Record>) {
    forall k :: k in small ==> k in big && big[k] == small[k]
  }

  /** Same nodes and peers, queues no larger, PUTs untouched, exchanges keep their ends and their items. */
  ghost predicate Calmed(c: Cluster, d: Cluster) {
    && |d.nodes| == |c.nodes| && d.puts == c.puts
    && (forall n :: 0 <= n < |c.nodes| ==> d.nodes[n].pending.Keys == c.nodes[n].pending.Keys)
    && (forall n, q :: 0 <= n < |c.nodes| && q in c.nodes[n].pending ==>
                         PartOf(d.nodes[n].pending[q], c.nodes[n].pending[q]))
    && |c.syncs| <= |d.syncs|
    && (forall s :: 0 <= s < |c.syncs| ==>
                      && d.syncs[s].from == c.syncs[s].from && d.syncs[s].to == c.syncs[s].to
                      && d.syncs[s].items == c.syncs[s].items)
  }

  lemma NodeCalms(c: Cluster, n: NodeId, node: Node)
    requires n < |c.nodes| && node.pending.Keys == c.nodes[n].pending.Keys
    requires forall q :: q in node.pending ==> PartOf(node.pending[q], c.nodes[n].pending[q])
    ensures Calmed(c, SetNode(c, n, node))
  {
  }

  lemma SyncCalms(c: Cluster, s: nat, sync: Sync)
    requires s < |c.syncs| && sync.from == c.syncs[s].from && sync.to == c.syncs[s].to && sync.items == c.syncs[s].items
    ensures Calmed(c, SetSync(c, s, sync))
  {
  }

  lemma QuietSyncCalms(c: Cluster, a: Action)
    requires Enabled(c, a) && (a.SyncDeliver? || a.SyncAnswer? || a.SyncDrop?)
    ensures Calmed(c, Next(c, a))
  {
    var sync := c.syncs[a.s];
    match a
    case SyncDeliver(s, k) =>
      var d := SetSync(c, s, sync.(applied := sync.applied + {k}));
      SyncCalms(c, s, sync.(applied := sync.applied + {k}));
      NodeCalms(d, sync.to, ApplyNode(c.nodes[sync.to], Write(k, sync.items[k])));
      CalmedIsTransitive(c, d, Next(c, a));
    case SyncAnswer(s, ok) => SyncCalms(c, s, sync.(result := Some(ok)));
    case SyncDrop(s) =>
      var d := SetSync(c, s, sync.(closed := true));
      SyncCalms(c, s, sync.(closed := true));
      NodeCalms(d, sync.from, DropNode(c.nodes[sync.from], sync.to, sync.items));
      CalmedIsTransitive(c, d, Next(c, a));
  }

  lemma QuietCalms(c: Cluster, a: Action)
    requires Enabled(c, a) && Quiet(a)
    ensures Calmed(c, Next(c, a))
  {
    match a
    case SetMode(n, mode) => NodeCalms(c, n, c.nodes[n].(mode := mode));
    case BecomeReady(n) => NodeCalms(c, n, c.nodes[n].(ready := true));
    case FetchSnapshot(_, _) =>
    case CopyItem(i, k) => NodeCalms(c, c.copies[i].to, Next(c, a).nodes[c.copies[i].to]);
    case SyncStart(_, _) =>
    case _ => QuietSyncCalms(c, a);
  }

  lemma CalmedIsTransitive(c: Cluster, d: Cluster, e: Cluster)
    requires Calmed(c, d) && Calmed(d, e)
    ensures Calmed(c, e)
  {
  }

  lemma {:induction false} QuietRunCalms(c: Cluster, actions: seq<Action>)
    requires CanRun(c, actions) && AllQuiet(actions)
    ensures Calmed(c, Run(c, actions))
    decreases |actions|
  {
    if actions != [] {
      QuietCalms(c, actions[0]);
      QuietRunCalms(Next(c, actions[0]), actions[1..]);
      CalmedIsTransitive(c, Next(c, actions[0]), Run(c, actions));
    }
  }

  lemma DropEmptiesTheQueue(c: Cluster, s: nat)
    requires Enabled(c, SyncDrop(s))
    requires PartOf(c.nodes[c.syncs[s].from].pending[c.syncs[s].to], c.syncs[s].items)
    ensures Next(c, SyncDrop(s)).nodes[c.syncs[s].from].pending[c.syncs[s].to] == map[]
  {
  }

  // ---- one pass ----

  /** At some moment of the run, node `n` finds nothing queued for `q`, or starts an exchange that is acknowledged. */
  ghost predicate Visited(c: Cluster, actions: seq<Action>, n: NodeId, q: NodeId) {
    exists i :: 0 <= i <= |actions| && VisitedAfter(c, actions[..i], actions[i..], n, q)
  }

  ghost predicate VisitedAfter(c: Cluster, before: seq<Action>, rest: seq<Action>, n: NodeId, q: NodeId) {
    CanRun(c, before) && VisitedNow(Run(c, before), rest, n, q)
  }

  predicate VisitedNow(c: Cluster, rest: seq<Action>, n: NodeId, q: NodeId) {
    || (n < |c.nodes| && q in c.nodes[n].pending && c.nodes[n].pending[q] == map[])
    || (rest != [] && rest[0] == SyncStart(n, q) && DropsLater(rest[1..], |c.syncs|))
  }

  /** The exchange is acknowledged and its records leave the queue. */
  predicate DropsLater(actions: seq<Action>, s: nat) {
    SyncDrop(s) in actions
  }

  lemma EmptyStaysEmpty(c: Cluster, actions: seq<Action>, n: NodeId, q: NodeId)
    requires CanRun(c, actions) && AllQuiet(actions) && n < |c.nodes| && q in c.nodes[n].pending
    requires c.nodes[n].pending[q] == map[]
    ensures n < |Run(c, actions).nodes| && q in Run(c, actions).nodes[n].pending
    ensures Run(c, actions).nodes[n].pending[q] == map[]
  {
    QuietRunCalms(c, actions);
  }

  lemma {:induction false} DropEmptiesForGood(c: Cluster, actions: seq<Action>, s: nat)
    requires CanRun(c, actions) && AllQuiet(actions) && DropsLater(actions, s)
    requires s < |c.syncs| && c.syncs[s].from < |c.nodes| && c.syncs[s].to in c.nodes[c.syncs[s].from].pending
    requires PartOf(c.nodes[c.syncs[s].from].pending[c.syncs[s].to], c.syncs[s].items)
    ensures var n, q := c.syncs[s].from, c.syncs[s].to;
            && n < |Run(c, actions).nodes| && q in Run(c, actions).nodes[n].pending
            && Run(c, actions).nodes[n].pending[q] == map[]
    decreases |actions|
  {
    var next := Next(c, actions[0]);
    QuietCalms(c, actions[0]);
    if actions[0] == SyncDrop(s) {
      DropEmptiesTheQueue(c, s);
      EmptyStaysEmpty(next, actions[1..], c.syncs[s].from, c.syncs[s].to);
    } else {
      assert SyncDrop(s) in actions[1..];
      DropEmptiesForGood(next, actions[1..], s);
    }
  }

  lemma VisitedNowEmpties(c: Cluster, rest: seq<Action>, n: NodeId, q: NodeId)
    requires CanRun(c, rest) && AllQuiet(rest) && VisitedNow(c, rest, n, q)
    ensures n < |Run(c, rest).nodes| && q in Run(c, rest).nodes[n].pending
    ensures Run(c, rest).nodes[n].pending[q] == map[]
  {
    if n < |c.nodes| && q in c.nodes[n].pending && c.nodes[n].pending[q] == map[] {
      EmptyStaysEmpty(c, rest, n, q);
    } else {
      DropEmptiesForGood(Next(c, rest[0]), rest[1..], |c.syncs|);
    }
  }

  lemma VisitedQueueIsEmpty(c: Cluster, actions: seq<Action>, n: NodeId, q: NodeId)
    requires CanRun(c, actions) && AllQuiet(actions) && Visited(c, actions, n, q)
    ensures n < |Run(c, actions).nodes| && q in Run(c, actions).nodes[n].pending
    ensures Run(c, actions).nodes[n].pending[q] == map[]
  {
    var i :| 0 <= i <= |actions| && VisitedAfter(c, actions[..i], actions[i..], n, q);
    assert actions[..i] + actions[i..] == actions;
    RunOfAppend(c, actions[..i], actions[i..]);
    VisitedNowEmpties(Run(c, actions[..i]), actions[i..], n, q);
  }

  ghost predicate FullPass(c: Cluster, actions: seq<Action>) {
    forall n, q :: 0 <= n < |c.nodes| && q in c.nodes[n].pending ==> Visited(c, actions, n, q)
  }

  ghost predicate AllApAnswered(c: Cluster) {
    forall p :: 0 <= p < |c.puts| ==> c.puts[p].stage.ApDone?
  }

  // From any reachable ap state with no PUT in progress: one pass of the loop on every node with every send
  // acknowledged empties every queue and makes all replicas equal and newest, whatever else the network delivers
  // in between, late and repeated messages included.
  lemma OnePassConverges(start: Cluster, before: seq<Action>, pass: seq<Action>)
    requires Initial(start) && CanRun(start, before) && AllApAnswered(Run(start, before))
    requires CanRun(Run(start, before), pass) && AllQuiet(pass) && FullPass(Run(start, before), pass)
    ensures var d := Run(Run(start, before), pass);
            && QueuesEmpty(d) && AllNodesAgree(d)
            && forall n :: 0 <= n < |d.nodes| ==> IsPointwiseNewest(d.nodes[n].data, VisibleWrites(d.puts))
  {
    InitialInv(start);
    RunKeepsInv(start, before);
    var c := Run(start, before);
    RunKeepsInv(c, pass);
    var d := Run(c, pass);
    QuietRunCalms(c, pass);
    forall n, q | 0 <= n < |d.nodes| && q in d.nodes[n].pending ensures d.nodes[n].pending[q] == map[] {
      assert q in c.nodes[n].pending;
      VisitedQueueIsEmpty(c, pass, n, q);
    }
    ApConverges(d);
  }

  // ---- such a pass exists from every state ----

  lemma {:induction false} DeliverEverything(c: Cluster, s: nat, left: set<Key>) returns (actions: seq<Action>)
    requires s < |c.syncs| && c.syncs[s].to < |c.nodes| && left <= c.syncs[s].items.Keys
    requires c.syncs[s].items.Keys - left <= c.syncs[s].applied <= c.syncs[s].items.Keys
    ensures AllQuiet(actions) && CanRun(c, actions)
    ensures |Run(c, actions).syncs| == |c.syncs|
    ensures Run(c, actions).syncs[s] == c.syncs[s].(applied := c.syncs[s].items.Keys)
    decreases |left|
  {
    if left == {} {
      return [];
    }
    var k :| k in left;
    var a := SyncDeliver(s, k);
    var rest := DeliverEverything(Next(c, a), s, left - {k});
    actions := [a] + rest;
    assert actions[1..] == rest;
  }

  lemma SettleIsPossible(c: Cluster, s: nat)
    requires s < |c.syncs| && c.syncs[s].result.None? && !c.syncs[s].closed && c.syncs[s].applied == c.syncs[s].items.Keys
    requires c.syncs[s].from < |c.nodes| && c.syncs[s].to in c.nodes[c.syncs[s].from].pending
    ensures CanRun(c, [SyncAnswer(s, true), SyncDrop(s)])
  {
    var settle := [SyncAnswer(s, true), SyncDrop(s)];
    assert settle[1..] == [SyncDrop(s)] && [SyncDrop(s)][1..] == [];
    var answered := Next(c, SyncAnswer(s, true));
    assert Enabled(answered, SyncDrop(s));
    assert CanRun(answered, [SyncDrop(s)]);
  }

  lemma VisitedAtOnce(c: Cluster, actions: seq<Action>, n: NodeId, q: NodeId)
    requires VisitedNow(c, actions, n, q)
    ensures Visited(c, actions, n, q)
  {
    assert actions[..0] == [] && actions[0..] == actions;
    assert CanRun(c, []) && Run(c, []) == c;
    assert VisitedAfter(c, actions[..0], actions[0..], n, q);
  }

  lemma StartThenRun(c: Cluster, n: NodeId, q: NodeId, rest: seq<Action>)
    requires Enabled(c, SyncStart(n, q)) && CanRun(Next(c, SyncStart(n, q)), rest) && DropsLater(rest, |c.syncs|)
    ensures CanRun(c, [SyncStart(n, q)] + rest) && Visited(c, [SyncStart(n, q)] + rest, n, q)
  {
    assert ([SyncStart(n, q)] + rest)[1..] == rest;
    VisitedAtOnce(c, [SyncStart(n, q)] + rest, n, q);
  }

  lemma ExchangeIsPossible(c: Cluster, n: NodeId, q: NodeId) returns (actions: seq<Action>)
    requires n < |c.nodes| && q < |c.nodes| && q in c.nodes[n].pending
    ensures AllQuiet(actions) && CanRun(c, actions) && Visited(c, actions, n, q)
  {
    if c.nodes[n].pending[q] == map[] {
      VisitedAtOnce(c, [], n, q);
      return [];
    }
    var rest := FinishExchange(c, n, q);
    StartThenRun(c, n, q, rest);
    actions := [SyncStart(n, q)] + rest;
  }

  lemma SettleAfter(c: Cluster, deliver: seq<Action>, s: nat) returns (rest: seq<Action>)
    requires CanRun(c, deliver) && AllQuiet(deliver)
    requires CanRun(Run(c, deliver), [SyncAnswer(s, true), SyncDrop(s)])
    ensures AllQuiet(rest) && CanRun(c, rest) && DropsLater(rest, s)
  {
    var settle := [SyncAnswer(s, true), SyncDrop(s)];
    RunOfAppend(c, deliver, settle);
    rest := deliver + settle;
    assert rest[|deliver| + 1] == SyncDrop(s);
  }

  lemma FinishExchange(c: Cluster, n: NodeId, q: NodeId) returns (rest: seq<Action>)
    requires Enabled(c, SyncStart(n, q)) && q < |c.nodes|
    ensures AllQuiet(rest) && CanRun(Next(c, SyncStart(n, q)), rest) && DropsLater(rest, |c.syncs|)
  {
    var s := |c.syncs|;
    var started := Next(c, SyncStart(n, q));
    var deliver := DeliverEverything(started, s, started.syncs[s].items.Keys);
    QuietRunCalms(started, deliver);
    SettleIsPossible(Run(started, deliver), s);
    rest := SettleAfter(started, deliver, s);
  }

  lemma VisitedNowIsKept(c: Cluster, rest: seq<Action>, more: seq<Action>, n: NodeId, q: NodeId)
    requires VisitedNow(c, rest, n, q)
    ensures VisitedNow(c, rest + more, n, q)
  {
    if rest != [] {
      assert (rest + more)[1..] == rest[1..] + more;
    }
  }

  lemma VisitedIsKept(c: Cluster, xs: seq<Action>, ys: seq<Action>, n: NodeId, q: NodeId)
    requires Visited(c, xs, n, q)
    ensures Visited(c, xs + ys, n, q)
  {
    var i :| 0 <= i <= |xs| && VisitedAfter(c, xs[..i], xs[i..], n, q);
    assert (xs + ys)[..i] == xs[..i] && (xs + ys)[i..] == xs[i..] + ys;
    VisitedNowIsKept(Run(c, xs[..i]), xs[i..], ys, n, q);
    assert VisitedAfter(c, (xs + ys)[..i], (xs + ys)[i..], n, q);
  }

  lemma DelayedAfter(c: Cluster, xs: seq<Action>, before: seq<Action>, rest: seq<Action>, n: NodeId, q: NodeId)
    requires CanRun(c, xs) && VisitedAfter(Run(c, xs), before, rest, n, q)
    ensures VisitedAfter(c, xs + before, rest, n, q)
  {
    RunOfAppend(c, xs, before);
  }

  lemma SlicesOfAppend(xs: seq<Action>, ys: seq<Action>, i: nat)
    requires i <= |ys|
    ensures (xs + ys)[..|xs| + i] == xs + ys[..i] && (xs + ys)[|xs| + i..] == ys[i..]
  {
  }

  lemma VisitedIsDelayed(c: Cluster, xs: seq<Action>, ys: seq<Action>, n: NodeId, q: NodeId)
    requires CanRun(c, xs) && Visited(Run(c, xs), ys, n, q)
    ensures Visited(c, xs + ys, n, q)
  {
    var i :| 0 <= i <= |ys| && VisitedAfter(Run(c, xs), ys[..i], ys[i..], n, q);
    SlicesOfAppend(xs, ys, i);
    DelayedAfter(c, xs, ys[..i], ys[i..], n, q);
  }

  ghost predicate AreLinks(c: Cluster, links: set<(NodeId, NodeId)>) {
    forall l :: l in links ==> l.0 < |c.nodes| && l.1 < |c.nodes| && l.1 in c.nodes[l.0].pending
  }

  ghost predicate AllVisited(c: Cluster, actions: seq<Action>, links: set<(NodeId, NodeId)>) {
    forall l :: l in links ==> Visited(c, actions, l.0, l.1)
  }

  lemma LinksStay(c: Cluster, actions: seq<Action>, links: set<(NodeId, NodeId)>)
    requires CanRun(c, actions) && AllQuiet(actions) && AreLinks(c, links)
    ensures AreLinks(Run(c, actions), links)
  {
    QuietRunCalms(c, actions);
  }

  lemma VisitsAddUp(c: Cluster, xs: seq<Action>, ys: seq<Action>, l: (NodeId, NodeId), rest: set<(NodeId, NodeId)>)
    requires AllQuiet(xs) && CanRun(c, xs) && Visited(c, xs, l.0, l.1)
    requires AllQuiet(ys) && CanRun(Run(c, xs), ys) && AllVisited(Run(c, xs), ys, rest)
    ensures AllQuiet(xs + ys) && CanRun(c, xs + ys) && AllVisited(c, xs + ys, {l} + rest)
  {
    RunOfAppend(c, xs, ys);
    VisitedIsKept(c, xs, ys, l.0, l.1);
    forall m | m in rest ensures Visited(c, xs + ys, m.0, m.1) {
      VisitedIsDelayed(c, xs, ys, m.0, m.1);
    }
  }

  lemma {:induction false} VisitsArePossible(c: Cluster, links: set<(NodeId, NodeId)>) returns (actions: seq<Action>)
    requires AreLinks(c, links)
    ensures AllQuiet(actions) && CanRun(c, actions) && AllVisited(c, actions, links)
    decreases |links|
  {
    if links == {} {
      actions := [];
    } else {
      var l :| l in links;
      var rest := links - {l};
      assert links == {l} + rest;
      var xs := ExchangeIsPossible(c, l.0, l.1);
      LinksStay(c, xs, rest);
      var ys := VisitsArePossible(Run(c, xs), rest);
      VisitsAddUp(c, xs, ys, l, rest);
      actions := xs + ys;
    }
  }

  // A full acknowledged pass can be taken from every state in which all links work again.
  lemma PassIsPossible(c: Cluster) returns (pass: seq<Action>)
    requires Inv(c)
    ensures CanRun(c, pass) && AllQuiet(pass) && FullPass(c, pass)
  {
    var ids := set n: nat | n < |c.nodes| && IsNode(c, n);
    var links := set n, q | n in ids && q in Peers(|c.nodes|, n) :: (n, q);
    forall l | l in links ensures l.1 in c.nodes[l.0].pending {
      assert NodeOk(c.puts, |c.nodes|, l.0, c.nodes[l.0]);
    }
    pass := VisitsArePossible(c, links);
    forall n, q | 0 <= n < |c.nodes| && q in c.nodes[n].pending ensures Visited(c, pass, n, q) {
      assert NodeOk(c.puts, |c.nodes|, n, c.nodes[n]);
      assert IsNode(c, n) && (n, q) in links;
    }
  }

  predicate IsNode(c: Cluster, n: NodeId) {
    n < |c.nodes|
  }
}
