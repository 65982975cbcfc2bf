/** Every action of the cluster keeps the invariant: each is put together from the elementary moves. */
module RaftActions {
  import opened Types
  import opened RaftSpec
  import opened RaftCluster
  import opened RaftHistory
  import opened RaftInvariant
  import opened RaftFrame
  import opened RaftSteps
  import opened RaftMoves
  import opened RaftLead
  import opened RaftReplicate

  // ---------- start_election ----------

  lemma SoloElectShape(c: Cluster, h: History, n: Node)
    requires Shaped(c) && n.id in c.nodes && c.nodes[n.id] == n && |n.peers| == 0
    ensures Apply(c, Elect(n.id)) == Cluster(With(With(c.nodes, Standing(n)), BecomeLeader(Standing(n))), c.net)
    ensures Record(h, c, Elect(n.id)) == WinHistory(StandHistory(h, n), Standing(n))
    ensures Standing(n).votes >= Quorum(|Standing(n).peers|)
  {
    WithTwice(c.nodes, Standing(n), BecomeLeader(Standing(n)));
  }

  lemma SoloElectKeeps(c: Cluster, h: History, n: Node)
    requires Inv(c, h) && n.id in c.nodes && c.nodes[n.id] == n && |n.peers| == 0
    ensures Inv(Apply(c, Elect(n.id)), Record(h, c, Elect(n.id)))
  {
    SoloElectShape(c, h, n);
    StandKeeps(c, h, n);
    WinKeeps(Cluster(With(c.nodes, Standing(n)), c.net), StandHistory(h, n), Standing(n));
  }

  lemma VoteRequestsOk(nodes: map<NodeId, Node>, h: History, n: Node)
    requires ShapedNodes(nodes) && n.id in nodes && nodes[n.id] == n && Unheard(h, n) && |n.peers| > 0
    ensures Sendable(Emitted(n.id, StartElection(n).sent), nodes.Keys, StandHistory(h, n))
  {
  }

  lemma GroupElectShape(c: Cluster, h: History, n: Node)
    requires Shaped(c) && n.id in c.nodes && c.nodes[n.id] == n && |n.peers| > 0
    ensures Apply(c, Elect(n.id)) ==
            Cluster(With(c.nodes, Standing(n)), c.net + Emitted(n.id, StartElection(n).sent))
    ensures Record(h, c, Elect(n.id)) == StandHistory(h, n)
  {
  }

  lemma GroupElectKeeps(c: Cluster, h: History, n: Node)
    requires Inv(c, h) && n.id in c.nodes && c.nodes[n.id] == n && |n.peers| > 0
    ensures Inv(Apply(c, Elect(n.id)), Record(h, c, Elect(n.id)))
  {
    GroupElectShape(c, h, n);
    StandKeeps(c, h, n);
    VoteRequestsOk(c.nodes, h, n);
    SendKeeps(Cluster(With(c.nodes, Standing(n)), c.net), StandHistory(h, n), Emitted(n.id, StartElection(n).sent));
  }

  // ---------- propose ----------

  function Batches(n: Node): set<Packet>
    requires Sized(n)
  {
    Emitted(n.id, seq(|n.peers|, j requires 0 <= j < |n.peers| => AppendFor(n, j)))
  }

  lemma BatchesOk(nodes: map<NodeId, Node>, h: History, n: Node)
    requires ShapedNodes(nodes) && n.id in nodes && nodes[n.id] == n && LeaderOk(n, h)
    ensures Sendable(Batches(n), nodes.Keys, h)
  {
    forall j | 0 <= j < |n.peers|
      ensures PacketOk(Packet(n.id, n.peers[j], AppendFor(n, j).msg), h)
    {
      AppendForOk(n, h, j);
    }
  }

  lemma RefusedSubmitKeeps(c: Cluster, h: History, n: Node, src: NodeId, dst: NodeId)
    requires Shaped(c) && n.id in c.nodes && c.nodes[n.id] == n && Propose(n, src, dst).0.Err?
    ensures Apply(c, Submit(n.id, src, dst)) == c
    ensures Record(h, c, Submit(n.id, src, dst)) == h
  {
    WithSame(c.nodes, n);
    assert c.net + Emitted(n.id, []) == c.net;
  }

  lemma SubmitShape(c: Cluster, h: History, n: Node, src: NodeId, dst: NodeId)
    requires Shaped(c) && n.id in c.nodes && c.nodes[n.id] == n && Propose(n, src, dst).0.Ok? && LeaderOk(n, h)
    ensures var n' := Propose(n, src, dst).1.node;
      && Appends(h, n, n') && Sized(n')
      && Record(h, c, Submit(n.id, src, dst)) == AppendHistory(h, n')
      && Apply(c, Submit(n.id, src, dst)) == Cluster(With(c.nodes, n'), c.net + Batches(n'))
  {
    assert |n.peers| == 0 ==> Emitted(n.id, []) == Batches(Propose(n, src, dst).1.node);
  }

  lemma LeaderSendsKeeps(c: Cluster, h: History, n: Node)
    requires Inv(c, h) && n.id in c.nodes && c.nodes[n.id] == n && n.role == Leader
    ensures Inv(Cluster(c.nodes, c.net + Batches(n)), h)
  {
    assert NodeOk(n, h);
    BatchesOk(c.nodes, h, n);
    SendKeeps(c, h, Batches(n));
  }

  lemma AcceptedSubmitKeeps(c: Cluster, h: History, n: Node, src: NodeId, dst: NodeId)
    requires Inv(c, h) && n.id in c.nodes && c.nodes[n.id] == n && Propose(n, src, dst).0.Ok?
    ensures Inv(Apply(c, Submit(n.id, src, dst)), Record(h, c, Submit(n.id, src, dst)))
  {
    var n' := Propose(n, src, dst).1.node;
    assert NodeOk(n, h);
    SubmitShape(c, h, n, src, dst);
    AppendKeeps(c, h, n, n');
    LeaderSendsKeeps(Cluster(With(c.nodes, n'), c.net), AppendHistory(h, n'), n');
  }
}
