/** The moves that make history: voting, standing, counting, winning, appending and accepting. */
module RaftMoves {
  import opened Types
  import opened RaftSpec
  import opened RaftCluster
  import opened RaftHistory
  import opened RaftLogs
  import opened RaftInvariant
  import opened RaftFrame
  import opened RaftSteps

  // ---------- casting a vote ----------

  lemma CastLocal(h: History, b: Ballot, candidate: NodeId, log: Log)
    requires b !in h.voted && b !in h.voteLog
    ensures Local(h, Cast(h, b.term, b.node, candidate, log), b.node)
  {
  }

  /** What a voter acknowledged earlier is in the log it votes with. */
  lemma CastRecall(nodes: map<NodeId, Node>, h: History, h': History, n: Node)
    requires Recall(h) && Acks(nodes, h) && Wins(nodes, h)
    requires n.id in nodes && n.log == nodes[n.id].log && nodes[n.id].term <= n.term
    requires Extends(h, h') && h'.won == h.won && h'.acks == h.acks
    requires Ballot(n.term, n.id) !in h.voted
    requires h'.voted.Keys == h.voted.Keys + {Ballot(n.term, n.id)}
    requires Ballot(n.term, n.id) in h'.voteLog && h'.voteLog[Ballot(n.term, n.id)] == n.log
    ensures Recall(h')
  {
    if n.term in h.won {
      assert WinOk(n.term, nodes, h);
    }
    forall a, b | a in h'.acks && b in h'.voted && a.node == b.node && a.term < b.term
      && (a !in h.acks || b !in h.voted)
      ensures RecallOk(a, b, h')
    {
      assert AckOk(a, nodes, h);
      SafeExtends(h, h', a.term, a.upTo, n.log, nodes[n.id].term + 1, n.term + 1);
    }
    FrameRecall(h, h');
  }

  lemma CastVotes(nodes: map<NodeId, Node>, h: History, n: Node, candidate: NodeId)
    requires Votes(nodes, h) && n.id in nodes && nodes[n.id] == n && Backed(n.log, h.llog)
    requires Ballot(n.term, n.id) !in h.voted && Ballot(n.term, candidate) in h.candLog
    requires UpToDate(|h.candLog[Ballot(n.term, candidate)]|, LastTerm(h.candLog[Ballot(n.term, candidate)]), n.log)
    ensures Votes(With(nodes, n.(votedFor := Some(candidate))), Cast(h, n.term, n.id, candidate, n.log))
  {
    var h' := Cast(h, n.term, n.id, candidate, n.log);
    var nodes' := With(nodes, n.(votedFor := Some(candidate)));
    forall b | b in h'.voted
      ensures VoteOk(b, nodes', h')
    {
      if b != Ballot(n.term, n.id) {
        assert VoteOk(b, nodes, h);
      }
    }
  }

  lemma CastStands(nodes: map<NodeId, Node>, h: History, n: Node, candidate: NodeId)
    requires Stands(nodes, h) && n.id in nodes && nodes[n.id] == n
    ensures Stands(With(nodes, n.(votedFor := Some(candidate))), Cast(h, n.term, n.id, candidate, n.log))
  {
  }

  lemma CastNodes(nodes: map<NodeId, Node>, h: History, n: Node, candidate: NodeId)
    requires ShapedNodes(nodes) && Nodes(nodes, h) && n.id in nodes && nodes[n.id] == n && n.votedFor.None?
    requires h.voteLog.Keys == h.voted.Keys
    ensures ShapedNodes(With(nodes, n.(votedFor := Some(candidate))))
    ensures Nodes(With(nodes, n.(votedFor := Some(candidate))), Cast(h, n.term, n.id, candidate, n.log))
  {
    var h' := Cast(h, n.term, n.id, candidate, n.log);
    var n' := n.(votedFor := Some(candidate));
    assert NodeOk(n', h') by {
      assert NodeOk(n, h);
    }
    CastLocal(h, Ballot(n.term, n.id), candidate, n.log);
    FrameNodes(nodes, h, n', h');
  }

  lemma CastWins(nodes: map<NodeId, Node>, h: History, n: Node, candidate: NodeId)
    requires Wins(nodes, h) && n.id in nodes && nodes[n.id] == n
    requires Ballot(n.term, n.id) !in h.voted
    ensures Wins(With(nodes, n.(votedFor := Some(candidate))), Cast(h, n.term, n.id, candidate, n.log))
  {
    QuietWins(nodes, h, n.(votedFor := Some(candidate)));
  }

  lemma CastAcks(nodes: map<NodeId, Node>, h: History, n: Node, candidate: NodeId)
    requires Acks(nodes, h) && n.id in nodes && nodes[n.id] == n
    ensures Acks(With(nodes, n.(votedFor := Some(candidate))), Cast(h, n.term, n.id, candidate, n.log))
  {
    QuietAcks(nodes, h, n.(votedFor := Some(candidate)));
    AcksSame(With(nodes, n.(votedFor := Some(candidate))), h, Cast(h, n.term, n.id, candidate, n.log));
  }

  lemma CastRecalls(nodes: map<NodeId, Node>, h: History, n: Node, candidate: NodeId)
    requires Recall(h) && Acks(nodes, h) && Wins(nodes, h) && n.id in nodes && nodes[n.id] == n
    requires Ballot(n.term, n.id) !in h.voted && h.voteLog.Keys == h.voted.Keys
    ensures Recall(Cast(h, n.term, n.id, candidate, n.log))
  {
    CastLocal(h, Ballot(n.term, n.id), candidate, n.log);
    CastRecall(nodes, h, Cast(h, n.term, n.id, candidate, n.log), n);
  }

  lemma CastCore(nodes: map<NodeId, Node>, h: History, n: Node, candidate: NodeId)
    requires Core(nodes, h) && n.id in nodes && nodes[n.id] == n && n.votedFor.None?
    requires Ballot(n.term, candidate) in h.candLog
    requires UpToDate(|h.candLog[Ballot(n.term, candidate)]|, LastTerm(h.candLog[Ballot(n.term, candidate)]), n.log)
    ensures Core(With(nodes, n.(votedFor := Some(candidate))), Cast(h, n.term, n.id, candidate, n.log))
  {
    assert NodeOk(n, h);
    CastNodes(nodes, h, n, candidate);
    CastStands(nodes, h, n, candidate);
    CastVotes(nodes, h, n, candidate);
    CastWins(nodes, h, n, candidate);
    CastAcks(nodes, h, n, candidate);
    CastRecalls(nodes, h, n, candidate);
  }

  /** Once its vote request is consumed and the vote cast, the granted reply may travel. */
  lemma CastPackets(c: Cluster, h: History, n: Node, p: Packet)
    requires Packets(c, h) && p in c.net && p.msg.RequestVote? && p.dst == n.id && n.id in c.nodes
    requires p.msg.term == n.term
    requires Ballot(n.term, n.id) !in h.voted && h.voteLog.Keys == h.voted.Keys
    ensures var nodes := With(c.nodes, n.(votedFor := Some(p.src)));
            var grant := Packet(n.id, p.src, RequestVoteReply(n.term, true));
      Packets(Cluster(nodes, c.net - {p} + {grant}), Cast(h, n.term, n.id, p.src, n.log))
  {
    var h' := Cast(h, n.term, n.id, p.src, n.log);
    CastLocal(h, Ballot(n.term, n.id), p.src, n.log);
    assert PacketOk(p, h);
    forall q | q in c.net - {p}
      ensures PacketOk(q, h')
    {
      assert PacketOk(q, h);
      PacketExtends(q, h, h');
    }
  }

  lemma CastUncounted(c: Cluster, h: History, n: Node, p: Packet)
    requires ShapedNodes(c.nodes) && Nodes(c.nodes, h) && Uncounted(c, h) && p.msg.RequestVote? && n.id in c.nodes
    requires c.nodes[n.id] == n
    requires Ballot(n.term, n.id) !in h.voted
    ensures var nodes := With(c.nodes, n.(votedFor := Some(p.src)));
            var grant := Packet(n.id, p.src, RequestVoteReply(n.term, true));
      Uncounted(Cluster(nodes, c.net - {p} + {grant}), Cast(h, n.term, n.id, p.src, n.log))
  {
    if p.src in c.nodes {
      assert NodeOk(c.nodes[p.src], h);
    }
  }

  /** Granting the vote that request `p` asks for. */
  lemma VoteKeeps(c: Cluster, h: History, n: Node, p: Packet)
    requires Inv(c, h) && p in c.net && p.msg.RequestVote? && p.dst == n.id && n.id in c.nodes && c.nodes[n.id] == n
    requires p.msg.term == n.term && n.votedFor.None? && UpToDate(p.msg.lastLogIndex, p.msg.lastLogTerm, n.log)
    ensures var nodes := With(c.nodes, n.(votedFor := Some(p.src)));
            var grant := Packet(n.id, p.src, RequestVoteReply(n.term, true));
      Inv(Cluster(nodes, c.net - {p} + {grant}), Cast(h, n.term, n.id, p.src, n.log))
  {
    assert NodeOk(n, h);
    assert PacketOk(p, h);
    CastCore(c.nodes, h, n, p.src);
    CastPackets(c, h, n, p);
    CastUncounted(c, h, n, p);
  }

  // ---------- standing for election ----------

  function StandHistory(h: History, n: Node): History {
    Stand(h, n.term + 1, n.id, n.log)
  }

  /** Nobody has heard of the node in the term it is about to start. */
  ghost predicate Unheard(h: History, n: Node) {
    && Ballot(n.term + 1, n.id) !in h.voted
    && Ballot(n.term + 1, n.id) !in h.candLog
    && (forall b :: b in h.voted && b.term == n.term + 1 ==> h.voted[b] != n.id)
    && (n.term + 1 in h.won ==> h.won[n.term + 1].leader != n.id)
  }

  lemma StandUnheard(nodes: map<NodeId, Node>, h: History, n: Node)
    requires Stands(nodes, h) && Votes(nodes, h) && Wins(nodes, h) && n.id in nodes && nodes[n.id] == n
    ensures Unheard(h, n)
  {
    if n.term + 1 in h.won {
      assert WinOk(n.term + 1, nodes, h);
    }
  }

  lemma StandLocal(h: History, n: Node)
    requires Unheard(h, n) && h.voteLog.Keys == h.voted.Keys
    ensures Local(h, StandHistory(h, n), n.id)
  {
  }

  lemma StandNodes(nodes: map<NodeId, Node>, h: History, n: Node)
    requires ShapedNodes(nodes) && Nodes(nodes, h) && n.id in nodes && nodes[n.id] == n
    requires Unheard(h, n) && h.voteLog.Keys == h.voted.Keys
    ensures ShapedNodes(With(nodes, Standing(n))) && Nodes(With(nodes, Standing(n)), StandHistory(h, n))
  {
    var h' := StandHistory(h, n);
    assert NodeOk(Standing(n), h') by {
      assert NodeOk(n, h);
    }
    StandLocal(h, n);
    FrameNodes(nodes, h, Standing(n), h');
  }

  lemma StandStands(nodes: map<NodeId, Node>, h: History, n: Node)
    requires Stands(nodes, h) && n.id in nodes && nodes[n.id] == n && Backed(n.log, h.llog) && TermsUpTo(n.log, n.term)
    ensures Stands(With(nodes, Standing(n)), StandHistory(h, n))
  {
    var h' := StandHistory(h, n);
    forall b | b in h'.candLog
      ensures StandOk(b, With(nodes, Standing(n)), h')
    {
      if b != Ballot(n.term + 1, n.id) {
        assert StandOk(b, nodes, h);
      }
    }
  }

  lemma StandVotes(nodes: map<NodeId, Node>, h: History, n: Node)
    requires Votes(nodes, h) && n.id in nodes && nodes[n.id] == n && Backed(n.log, h.llog) && Unheard(h, n)
    ensures Votes(With(nodes, Standing(n)), StandHistory(h, n))
  {
    var h' := StandHistory(h, n);
    StandLocal(h, n);
    forall b | b in h.voted
      ensures VoteOk(b, With(nodes, Standing(n)), h')
    {
      FrameVote(b, nodes, h, With(nodes, Standing(n)), h');
    }
  }

  lemma StandWins(nodes: map<NodeId, Node>, h: History, n: Node)
    requires Wins(nodes, h) && n.id in nodes && nodes[n.id] == n && Unheard(h, n)
    ensures Wins(With(nodes, Standing(n)), StandHistory(h, n))
  {
    var h' := StandHistory(h, n);
    QuietWins(nodes, h, Standing(n));
    forall t | t in h'.won
      ensures WinOk(t, With(nodes, Standing(n)), h')
    {
      assert WinOk(t, With(nodes, Standing(n)), h);
    }
  }

  lemma StandAcks(nodes: map<NodeId, Node>, h: History, n: Node)
    requires Acks(nodes, h) && n.id in nodes && nodes[n.id] == n
    ensures Acks(With(nodes, Standing(n)), StandHistory(h, n))
  {
    QuietAcks(nodes, h, Standing(n));
    AcksSame(With(nodes, Standing(n)), h, StandHistory(h, n));
  }

  lemma StandRecall(nodes: map<NodeId, Node>, h: History, n: Node)
    requires Recall(h) && Acks(nodes, h) && Wins(nodes, h) && n.id in nodes && nodes[n.id] == n
    requires Unheard(h, n) && h.voteLog.Keys == h.voted.Keys
    ensures Recall(StandHistory(h, n))
  {
    StandLocal(h, n);
    CastRecall(nodes, h, StandHistory(h, n), Standing(n));
  }

  lemma StandCore(nodes: map<NodeId, Node>, h: History, n: Node)
    requires Core(nodes, h) && n.id in nodes && nodes[n.id] == n
    ensures Core(With(nodes, Standing(n)), StandHistory(h, n))
  {
    assert NodeOk(n, h);
    StandUnheard(nodes, h, n);
    StandNodes(nodes, h, n);
    StandStands(nodes, h, n);
    StandVotes(nodes, h, n);
    StandWins(nodes, h, n);
    StandAcks(nodes, h, n);
    StandRecall(nodes, h, n);
  }

  lemma StandNet(c: Cluster, h: History, n: Node)
    requires Packets(c, h) && Uncounted(c, h) && n.id in c.nodes && Unheard(h, n) && h.voteLog.Keys == h.voted.Keys
    ensures Packets(Cluster(With(c.nodes, Standing(n)), c.net), StandHistory(h, n))
    ensures Uncounted(Cluster(With(c.nodes, Standing(n)), c.net), StandHistory(h, n))
  {
    StandLocal(h, n);
    forall q | q in c.net
      ensures PacketOk(q, StandHistory(h, n))
    {
      PacketExtends(q, h, StandHistory(h, n));
    }
  }

  /** Starting a new term as a candidate. */
  lemma StandKeeps(c: Cluster, h: History, n: Node)
    requires Inv(c, h) && n.id in c.nodes && c.nodes[n.id] == n
    ensures Inv(Cluster(With(c.nodes, Standing(n)), c.net), StandHistory(h, n))
    ensures Unheard(h, n)
  {
    StandUnheard(c.nodes, h, n);
    StandCore(c.nodes, h, n);
    StandNet(c, h, n);
  }

  // ---------- counting a vote ----------

  function Counting(n: Node): Node {
    n.(votes := n.votes + 1)
  }

  lemma CountNodes(nodes: map<NodeId, Node>, h: History, n: Node, voter: NodeId)
    requires ShapedNodes(nodes) && Nodes(nodes, h) && n.id in nodes && nodes[n.id] == n && n.role == Candidate
    requires voter !in TallyOf(h, n.id)
    requires Ballot(n.term, voter) in h.voted && h.voted[Ballot(n.term, voter)] == n.id
    ensures ShapedNodes(With(nodes, Counting(n))) && Nodes(With(nodes, Counting(n)), Count(h, n.id, voter))
  {
    assert NodeOk(n, h);
    FrameNodes(nodes, h, Counting(n), Count(h, n.id, voter));
  }

  lemma CountCore(nodes: map<NodeId, Node>, h: History, n: Node, voter: NodeId)
    requires Core(nodes, h) && n.id in nodes && nodes[n.id] == n && n.role == Candidate
    requires voter !in TallyOf(h, n.id)
    requires Ballot(n.term, voter) in h.voted && h.voted[Ballot(n.term, voter)] == n.id
    ensures Core(With(nodes, Counting(n)), Count(h, n.id, voter))
  {
    CountNodes(nodes, h, n, voter);
    QuietVotes(nodes, h, Counting(n));
    QuietWins(nodes, h, Counting(n));
    QuietAcks(nodes, h, Counting(n));
    TallyVotes(With(nodes, Counting(n)), h, n.id, voter);
    TallyWins(With(nodes, Counting(n)), h, n.id, voter);
    AcksSame(With(nodes, Counting(n)), h, Count(h, n.id, voter));
    TallyRecall(h, n.id, voter);
  }

  // Which votes have been counted matters to the candidates only.

  lemma TallyVotes(nodes: map<NodeId, Node>, h: History, id: NodeId, voter: NodeId)
    requires Stands(nodes, h) && Votes(nodes, h)
    ensures Stands(nodes, Count(h, id, voter)) && Votes(nodes, Count(h, id, voter))
  {
    forall b | b in h.candLog
      ensures StandOk(b, nodes, Count(h, id, voter))
    {
      assert StandOk(b, nodes, h);
    }
    forall b | b in h.voted
      ensures VoteOk(b, nodes, Count(h, id, voter))
    {
      assert VoteOk(b, nodes, h);
    }
  }

  lemma TallyWins(nodes: map<NodeId, Node>, h: History, id: NodeId, voter: NodeId)
    requires Wins(nodes, h)
    ensures Wins(nodes, Count(h, id, voter))
  {
    forall t | t in h.won
      ensures WinOk(t, nodes, Count(h, id, voter))
    {
      assert WinOk(t, nodes, h);
    }
  }

  lemma TallyRecall(h: History, id: NodeId, voter: NodeId)
    requires Recall(h)
    ensures Recall(Count(h, id, voter))
  {
    var h' := Count(h, id, voter);
    forall a, b | a in h.acks && b in h.voted && a.node == b.node && a.term < b.term
      ensures RecallOk(a, b, h')
    {
      assert RecallOk(a, b, h);
      SafeSame(h, h', a.term, a.upTo, h.voteLog[b], b.term + 1);
      if b.term in h.won && b.node in h.won[b.term].voters {
        SafeSame(h, h', a.term, a.upTo, h.voteLog[b], b.term);
      }
    }
  }

  /** Counting the granted reply `p`. */
  lemma CountKeeps(c: Cluster, h: History, n: Node, p: Packet)
    requires Inv(c, h) && p in c.net && p.msg == RequestVoteReply(n.term, true) && p.dst == n.id
    requires n.id in c.nodes && c.nodes[n.id] == n && n.role == Candidate
    ensures Inv(Cluster(With(c.nodes, Counting(n)), c.net - {p}), Count(h, n.id, p.src))
  {
    assert PacketOk(p, h);
    CountCore(c.nodes, h, n, p.src);
    CountNet(c, h, n, p);
  }

  lemma CountNet(c: Cluster, h: History, n: Node, p: Packet)
    requires Packets(c, h) && Uncounted(c, h) && p.msg == RequestVoteReply(n.term, true) && p.dst == n.id
    requires n.id in c.nodes && c.nodes[n.id] == n && n.role == Candidate
    ensures Packets(Cluster(With(c.nodes, Counting(n)), c.net - {p}), Count(h, n.id, p.src))
    ensures Uncounted(Cluster(With(c.nodes, Counting(n)), c.net - {p}), Count(h, n.id, p.src))
  {
    forall q | q in c.net - {p}
      ensures PacketOk(q, Count(h, n.id, p.src))
    {
      assert PacketOk(q, h);
    }
  }
}
