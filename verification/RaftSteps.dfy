/** The elementary moves of the protocol, each shown to keep the invariant.
    A handler of the node is one move or a step-down followed by one or two moves. */
module RaftSteps {
  import opened Types
  import opened RaftSpec
  import opened RaftCluster
  import opened RaftHistory
  import opened RaftInvariant
  import opened RaftFrame

  // ---------- the network alone ----------

  lemma LoseKeeps(c: Cluster, h: History, net: set<Packet>)
    requires Inv(c, h) && net <= c.net
    ensures Inv(Cluster(c.nodes, net), h)
  {
  }

  ghost predicate Sendable(packets: set<Packet>, ids: set<NodeId>, h: History) {
    forall p :: p in packets ==>
      && p.src in ids && p.dst in ids && p.src != p.dst
      && !(p.msg.RequestVoteReply? && p.msg.voteGranted)
      && PacketOk(p, h)
  }

  /** Putting sound packets that carry no vote on the network. */
  lemma SendKeeps(c: Cluster, h: History, more: set<Packet>)
    requires Inv(c, h) && Sendable(more, c.nodes.Keys, h)
    ensures Inv(Cluster(c.nodes, c.net + more), h)
  {
  }

  // ---------- moves that do not touch the history ----------

  lemma QuietNodes(nodes: map<NodeId, Node>, h: History, n: Node)
    requires ShapedNodes(nodes) && Nodes(nodes, h) && Moves(nodes, n) && NodeOk(n, h)
    ensures ShapedNodes(With(nodes, n)) && Nodes(With(nodes, n), h)
  {
    FrameShape(nodes, n);
  }

  lemma QuietVotes(nodes: map<NodeId, Node>, h: History, n: Node)
    requires Stands(nodes, h) && Votes(nodes, h) && n.id in nodes && nodes[n.id].term <= n.term
    ensures Stands(With(nodes, n), h) && Votes(With(nodes, n), h)
  {
  }

  lemma QuietWins(nodes: map<NodeId, Node>, h: History, n: Node)
    requires Wins(nodes, h) && n.id in nodes && nodes[n.id].term <= n.term
    requires n.term == nodes[n.id].term && nodes[n.id].role == Leader ==> n.role == Leader
    ensures Wins(With(nodes, n), h)
  {
    assert |With(nodes, n)| == |nodes| by {
      assert With(nodes, n).Keys == nodes.Keys;
    }
  }

  lemma QuietAcks(nodes: map<NodeId, Node>, h: History, n: Node)
    requires Acks(nodes, h) && n.id in nodes && nodes[n.id].term <= n.term && nodes[n.id].log <= n.log
    ensures Acks(With(nodes, n), h)
  {
    forall a | a in h.acks
      ensures AckOk(a, With(nodes, n), h)
    {
      assert AckOk(a, nodes, h);
      if a.node == n.id {
        SafeLonger(h, a.term, a.upTo, nodes[n.id].log, n.log, nodes[n.id].term + 1, n.term + 1);
      }
    }
  }

  /** A node that neither loses log entries nor goes back in time nor abdicates keeps the core. */
  lemma QuietKeeps(nodes: map<NodeId, Node>, h: History, n: Node)
    requires Core(nodes, h) && Moves(nodes, n) && NodeOk(n, h)
    requires nodes[n.id].log <= n.log
    requires n.term == nodes[n.id].term && nodes[n.id].role == Leader ==> n.role == Leader
    ensures Core(With(nodes, n), h)
  {
    QuietNodes(nodes, h, n);
    QuietVotes(nodes, h, n);
    QuietWins(nodes, h, n);
    QuietAcks(nodes, h, n);
  }

  lemma QuietNet(c: Cluster, h: History, n: Node)
    requires Packets(c, h) && Uncounted(c, h) && n.id in c.nodes
    requires n.role == Candidate ==> c.nodes[n.id].role == Candidate && c.nodes[n.id].term == n.term
    ensures Packets(Cluster(With(c.nodes, n), c.net), h) && Uncounted(Cluster(With(c.nodes, n), c.net), h)
  {
  }

  lemma StepDownKeeps(c: Cluster, h: History, i: NodeId, term: nat)
    requires Inv(c, h) && i in c.nodes && term > c.nodes[i].term
    ensures Inv(Cluster(With(c.nodes, StepDown(c.nodes[i], term)), c.net), h)
  {
    var n := StepDown(c.nodes[i], term);
    assert NodeOk(n, h) by {
      assert NodeOk(c.nodes[i], h);
      assert Ballot(term, i) !in h.voted;
    }
    QuietKeeps(c.nodes, h, n);
    QuietNet(c, h, n);
  }

  lemma FollowKeeps(c: Cluster, h: History, i: NodeId)
    requires Inv(c, h) && i in c.nodes && c.nodes[i].role != Leader
    ensures Inv(Cluster(With(c.nodes, c.nodes[i].(role := Follower)), c.net), h)
  {
    var n := c.nodes[i].(role := Follower);
    assert NodeOk(n, h) by {
      assert NodeOk(c.nodes[i], h);
    }
    QuietKeeps(c.nodes, h, n);
    QuietNet(c, h, n);
  }

  /** A leader updating what it knows about its peers. */
  lemma BookKeeps(c: Cluster, h: History, n: Node)
    requires Inv(c, h) && Moves(c.nodes, n) && c.nodes[n.id].role == Leader
    requires n == c.nodes[n.id].(nextIndex := n.nextIndex, matchIndex := n.matchIndex, commit := n.commit)
    requires LeaderOk(n, h)
    ensures Inv(Cluster(With(c.nodes, n), c.net), h)
  {
    assert NodeOk(n, h) by {
      assert NodeOk(c.nodes[n.id], h);
    }
    QuietKeeps(c.nodes, h, n);
    QuietNet(c, h, n);
  }
}
