/** A run that shows where the promise of agreement ends. */
module KvLimits {
  import opened Basics
  import opened Lww
  import opened KvStore
  import opened KvCluster
  import opened KvGuarantees
  import opened KvScripts

  // Three nodes in cp mode, nothing written, node 0 ready.
  function ReadyNode(self: NodeId): Node {
    Node(0, map[], map q | q in Peers(3, self) :: map[], Cp, self == 0)
  }

  function ReadyCluster(): Cluster {
    Cluster([ReadyNode(0), ReadyNode(1), ReadyNode(2)], [], [], [])
  }

  lemma StartThree() returns (start: Cluster, actions: seq<Action>)
    ensures Initial(start) && CanRun(start, actions) && Run(start, actions) == ReadyCluster()
  {
    start := ReadyCluster().(nodes := [ReadyNode(0).(ready := false), ReadyNode(1), ReadyNode(2)]);
    actions := Take(start, BecomeReady(0));
    assert Next(start, BecomeReady(0)).nodes == ReadyCluster().nodes;
  }

  function LostPut(stage: Stage, second: Option<bool>): Put {
    Put(0, NewWrite(ReadyCluster(), 0, "k", "v"), stage,
        map[1 := PeerCall(true, Some(false), false), 2 := PeerCall(false, second, false)])
  }

  lemma GiveUp(c: Cluster) returns (actions: seq<Action>)
    requires |c.nodes| == 3 && c.puts == [LostPut(CpSent, None)]
    ensures CanRun(c, actions) && Run(c, actions) == c.(puts := [LostPut(CpRejected, Some(false))])
  {
    actions := Take(c, CpAnswer(0, 2, false));
    var failed := Next(c, CpAnswer(0, 2, false));
    assert failed.puts[0].calls == LostPut(CpSent, Some(false)).calls;
    assert failed.puts == [LostPut(CpSent, Some(false))];
    assert Ackers(failed.puts[0]) == {};
    var more := Take(failed, CpReject(0));
    actions := Then(c, actions, more);
    assert Next(failed, CpReject(0)).puts == [LostPut(CpRejected, Some(false))];
  }

  lemma RejectAfterLostAnswers() returns (actions: seq<Action>)
    ensures CanRun(ReadyCluster(), actions)
    ensures var d := Run(ReadyCluster(), actions);
            && d.puts == [LostPut(CpRejected, Some(false))]
            && d.nodes == [MintNode(ReadyNode(0)), ApplyNode(ReadyNode(1), d.puts[0].write), ReadyNode(2)]
  {
    var c := ReadyCluster();
    actions := SendWrite(c, 0, "k", "v");
    var sent := Sent(c, 0, "k", "v");
    assert Peers(3, 0) == {1, 2};
    var more := DeliverAndAnswer(sent, 0, 1, false);
    actions := Then(c, actions, more);
    var half := Answered(sent, 0, 1, false);
    assert half.puts[0].calls == LostPut(CpSent, None).calls;
    more := GiveUp(half);
    actions := Then(c, actions, more);
  }

  // A cp write answered 503 does not vanish: one peer stored it, its answer was lost, and nothing ever repairs it.
  lemma RejectedWriteMayStayOnOnePeer() returns (start: Cluster, actions: seq<Action>)
    ensures Initial(start) && CanRun(start, actions)
    ensures AtRest(Run(start, actions)) && !AllNodesAgree(Run(start, actions))
  {
    start, actions := StartThree();
    var more := RejectAfterLostAnswers();
    actions := Then(start, actions, more);
    var d := Run(start, actions);
    assert "k" in d.nodes[1].data && "k" !in d.nodes[0].data;
  }
}
