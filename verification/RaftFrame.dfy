/** What survives when one node moves on and the history grows: everything about the other nodes,
    about packets in flight and about the past. */
module RaftFrame {
  import opened Types
  import opened RaftSpec
  import opened RaftCluster
  import opened RaftHistory
  import opened RaftLogs
  import opened RaftInvariant

  /** The history grew only by what node `i` did. */
  ghost predicate Local(h: History, h': History, i: NodeId) {
    && Extends(h, h')
    && (forall b :: b in h'.voted ==> b in h.voted || b.node == i)
    && (forall j :: j != i && j in h.tally ==> j in h'.tally && h'.tally[j] == h.tally[j])
    && (forall j :: j != i ==> TallyOf(h', j) == TallyOf(h, j))
    && (forall t :: t in h'.won ==> t in h.won || h'.won[t].leader == i)
    && (forall t :: t in h.llog && h'.llog[t] != h.llog[t] ==> t in h.won && h.won[t].leader == i)
  }

  function With(nodes: map<NodeId, Node>, n: Node): map<NodeId, Node> {
    nodes[n.id := n]
  }

  lemma WithTwice(nodes: map<NodeId, Node>, a: Node, b: Node)
    requires a.id == b.id
    ensures With(With(nodes, a), b) == With(nodes, b)
  {
  }

  lemma WithSame(nodes: map<NodeId, Node>, n: Node)
    requires n.id in nodes && nodes[n.id] == n
    ensures With(nodes, n) == nodes
  {
  }

  /** The replacement of a node keeps its identity and never goes back in time. */
  ghost predicate Moves(nodes: map<NodeId, Node>, n: Node) {
    && ShapedNodes(nodes) && n.id in nodes
    && SameIdentity(nodes[n.id], n)
    && n.term >= nodes[n.id].term
  }

  lemma FrameShape(nodes: map<NodeId, Node>, n: Node)
    requires Moves(nodes, n)
    ensures ShapedNodes(With(nodes, n)) && With(nodes, n).Keys == nodes.Keys
  {
  }

  lemma FrameNode(n: Node, h: History, h': History, i: NodeId)
    requires Sized(n) && n.id != i && Local(h, h', i) && NodeOk(n, h)
    ensures NodeOk(n, h')
  {
    BackedGrows(n.log, h.llog, h'.llog);
  }

  lemma FrameNodes(nodes: map<NodeId, Node>, h: History, n: Node, h': History)
    requires Moves(nodes, n) && Nodes(nodes, h) && Local(h, h', n.id) && NodeOk(n, h')
    ensures ShapedNodes(With(nodes, n)) && Nodes(With(nodes, n), h')
  {
    FrameShape(nodes, n);
    forall j | j in nodes && j != n.id
      ensures NodeOk(nodes[j], h')
    {
      FrameNode(nodes[j], h, h', n.id);
    }
  }

  lemma FrameVote(b: Ballot, nodes: map<NodeId, Node>, h: History, nodes': map<NodeId, Node>, h': History)
    requires b in h.voted && VoteOk(b, nodes, h) && Extends(h, h')
    requires b.node in nodes' && nodes[b.node].term <= nodes'[b.node].term
    ensures b in h'.voted && VoteOk(b, nodes', h')
  {
    BackedGrows(h.voteLog[b], h.llog, h'.llog);
  }

  /** No new candidates and no new votes. */
  lemma FrameStandsFixed(nodes: map<NodeId, Node>, h: History, n: Node, h': History)
    requires Stands(nodes, h) && n.id in nodes && nodes[n.id].term <= n.term
    requires Grows(h.llog, h'.llog) && h'.candLog == h.candLog
    ensures Stands(With(nodes, n), h')
  {
    forall b | b in h.candLog
      ensures StandOk(b, With(nodes, n), h')
    {
      BackedGrows(h.candLog[b], h.llog, h'.llog);
    }
  }

  lemma FrameVotesFixed(nodes: map<NodeId, Node>, h: History, n: Node, h': History)
    requires Votes(nodes, h) && n.id in nodes && nodes[n.id].term <= n.term
    requires Grows(h.llog, h'.llog) && h'.candLog == h.candLog && h'.voted == h.voted && h'.voteLog == h.voteLog
    ensures Votes(With(nodes, n), h')
  {
    forall b | b in h.voted
      ensures VoteOk(b, With(nodes, n), h')
    {
      BackedGrows(h.voteLog[b], h.llog, h'.llog);
    }
  }

  lemma FrameWin(t: nat, nodes: map<NodeId, Node>, h: History, n: Node, h': History)
    requires n.id in nodes && nodes[n.id].term <= n.term && Extends(h, h') && t in h.won && WinOk(t, nodes, h)
    requires h'.llog[t] == h.llog[t]
    requires n.term == nodes[n.id].term && nodes[n.id].role == Leader ==> n.role == Leader
    ensures WinOk(t, With(nodes, n), h')
  {
    BackedGrows(h.llog[t], h.llog, h'.llog);
    assert With(nodes, n).Keys == nodes.Keys;
    assert |With(nodes, n)| == |nodes.Keys|;
  }

  lemma FrameRecallPair(a: Ack, b: Ballot, h: History, h': History)
    requires Extends(h, h') && b in h.voted && RecallOk(a, b, h)
    requires b.term in h'.won ==> b.term in h.won
    ensures RecallOk(a, b, h')
  {
    SafeExtends(h, h', a.term, a.upTo, h.voteLog[b], b.term + 1, b.term + 1);
    if b.term in h.won && b.node in h.won[b.term].voters {
      SafeExtends(h, h', a.term, a.upTo, h.voteLog[b], b.term, b.term);
    }
  }

  lemma FrameRecall(h: History, h': History)
    requires Recall(h) && Extends(h, h') && h'.won.Keys == h.won.Keys
    requires forall a, b ::
      (a in h'.acks && b in h'.voted && a.node == b.node && a.term < b.term && (a !in h.acks || b !in h.voted)) ==>
      RecallOk(a, b, h')
    ensures Recall(h')
  {
    forall a, b | a in h'.acks && b in h'.voted && a.node == b.node && a.term < b.term
      ensures RecallOk(a, b, h')
    {
      if a in h.acks && b in h.voted {
        FrameRecallPair(a, b, h, h');
      }
    }
  }
}
