/** Runs put together step by step, and what a PUT does when its steps come in a row. */
module KvScripts {
  import opened Basics
  import opened Lww
  import opened KvStore
  import opened KvCluster
  import opened KvSyncPass

  lemma Extend(start: Cluster, xs: seq<Action>, c: Cluster, a: Action)
    requires CanRun(start, xs) && Run(start, xs) == c && Enabled(c, a)
    ensures CanRun(start, xs + [a]) && Run(start, xs + [a]) == Next(c, a)
  {
    assert [a][1..] == [] && CanRun(Next(c, a), []);
    assert CanRun(c, [a]) && Run(c, [a]) == Next(c, a);
    RunOfAppend(start, xs, [a]);
  }

  lemma Take(c: Cluster, a: Action) returns (actions: seq<Action>)
    requires Enabled(c, a)
    ensures CanRun(c, actions) && Run(c, actions) == Next(c, a)
  {
    assert CanRun(c, []) && Run(c, []) == c;
    Extend(c, [], c, a);
    actions := [] + [a];
  }

  lemma Then(c: Cluster, xs: seq<Action>, ys: seq<Action>) returns (actions: seq<Action>)
    requires CanRun(c, xs) && CanRun(Run(c, xs), ys)
    ensures CanRun(c, actions) && Run(c, actions) == Run(Run(c, xs), ys)
  {
    RunOfAppend(c, xs, ys);
    actions := xs + ys;
  }

  function Unanswered(size: nat, n: NodeId): map<NodeId, PeerCall> {
    map q | q in Peers(size, n) :: PeerCall(false, None, false)
  }

  function NewWrite(c: Cluster, n: NodeId, key: Key, value: string): Write
    requires n < |c.nodes|
  {
    Write(key, MintRecord(c.nodes[n], n, value))
  }

  function Sent(c: Cluster, n: NodeId, key: Key, value: string): Cluster
    requires n < |c.nodes|
  {
    var put := Put(n, NewWrite(c, n, key, value), CpSent, Unanswered(|c.nodes|, n));
    SetNode(c, n, MintNode(c.nodes[n])).(puts := c.puts + [put])
  }

  // A ready node in cp mode can accept a PUT and send it to its peers.
  lemma SendWrite(c: Cluster, n: NodeId, key: Key, value: string) returns (actions: seq<Action>)
    requires n < |c.nodes| && c.nodes[n].ready && c.nodes[n].mode == Cp
    ensures CanRun(c, actions) && Run(c, actions) == Sent(c, n, key, value)
  {
    var p := |c.puts|;
    var mint := Take(c, Mint(n, key, value));
    var minted := Next(c, Mint(n, key, value));
    var read := Take(minted, ReadMode(p));
    var chosen := Next(minted, ReadMode(p));
    var send := Take(chosen, CpSend(p));
    assert Next(chosen, CpSend(p)).puts == Sent(c, n, key, value).puts;
    actions := Then(c, mint, read);
    actions := Then(c, actions, send);
  }

  function Answered(c: Cluster, p: nat, q: NodeId, ok: bool): Cluster
    requires p < |c.puts| && q in c.puts[p].calls && q < |c.nodes|
  {
    var put := c.puts[p];
    SetNode(SetPut(c, p, SetCall(put, q, put.calls[q].(delivered := true, result := Some(ok)))), q,
            ApplyNode(c.nodes[q], put.write))
  }

  lemma DeliverThenAnswer(c: Cluster, p: nat, q: NodeId, ok: bool)
    requires p < |c.puts| && q in c.puts[p].calls && q < |c.nodes| && c.puts[p].calls[q].result.None?
    ensures Enabled(c, CpDeliver(p, q)) && Enabled(Next(c, CpDeliver(p, q)), CpAnswer(p, q, ok))
    ensures Next(Next(c, CpDeliver(p, q)), CpAnswer(p, q, ok)) == Answered(c, p, q, ok)
  {
    var put := c.puts[p];
    var call := put.calls[q].(delivered := true);
    var once := SetCall(put, q, call);
    assert SetCall(once, q, call.(result := Some(ok))) == SetCall(put, q, call.(result := Some(ok)));
    assert c.puts[p := once][p := SetCall(put, q, call.(result := Some(ok)))] == c.puts[p := SetCall(put, q, call.(result := Some(ok)))];
  }

  // The peer stores the write, and the caller learns it or not.
  lemma DeliverAndAnswer(c: Cluster, p: nat, q: NodeId, ok: bool) returns (actions: seq<Action>)
    requires p < |c.puts| && q in c.puts[p].calls && q < |c.nodes| && c.puts[p].calls[q].result.None?
    ensures CanRun(c, actions) && Run(c, actions) == Answered(c, p, q, ok)
  {
    DeliverThenAnswer(c, p, q, ok);
    var deliver := Take(c, CpDeliver(p, q));
    var answer := Take(Next(c, CpDeliver(p, q)), CpAnswer(p, q, ok));
    actions := Then(c, deliver, answer);
  }
}
