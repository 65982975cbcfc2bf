/** The move that wins a term: what it needs of the votes, and what it keeps. */
module RaftLead {
  import opened Types
  import opened RaftSpec
  import opened RaftCluster
  import opened RaftHistory
  import opened RaftLogs
  import opened RaftInvariant
  import opened RaftFrame

  // ---------- winning ----------

  /** At most one winner per term: a second majority would share a voter with the first. */
  lemma TermIsOpen(nodes: map<NodeId, Node>, h: History, n: Node)
    requires ShapedNodes(nodes) && Wins(nodes, h) && Votes(nodes, h)
    requires n.id in nodes && nodes[n.id] == n && n.role == Candidate && CandidateOk(n, h)
    requires n.votes >= Quorum(|n.peers|)
    ensures n.term !in h.won
    ensures h.tally[n.id] <= nodes.Keys && 2 * |h.tally[n.id]| > |nodes|
  {
    var tally := h.tally[n.id];
    forall v | v in tally
      ensures v in nodes
    {
      assert VoteOk(Ballot(n.term, v), nodes, h);
    }
    if n.term in h.won {
      assert WinOk(n.term, nodes, h);
      assert |nodes.Keys| == |nodes|;
      var x := MajoritiesMeet(tally, h.won[n.term].voters, nodes.Keys);
      assert false;
    }
  }

  function WinHistory(h: History, n: Node): History {
    Elected(h, n.term, n.id, n.log)
  }

  /** The ground on which a candidate takes over. */
  ghost predicate MayWin(h: History, n: Node) {
    && n.term !in h.won && n.term !in h.llog
    && n.id in h.tally
    && Ballot(n.term, n.id) in h.candLog && h.candLog[Ballot(n.term, n.id)] == n.log
    && Backed(n.log, h.llog) && TermsUpTo(n.log, n.term)
  }

  lemma WinLocal(h: History, n: Node)
    requires n.term !in h.won && n.term !in h.llog
    ensures Local(h, WinHistory(h, n), n.id)
  {
  }

  lemma WinNodes(nodes: map<NodeId, Node>, h: History, n: Node)
    requires ShapedNodes(nodes) && Nodes(nodes, h) && n.id in nodes && nodes[n.id] == n && MayWin(h, n)
    ensures ShapedNodes(With(nodes, BecomeLeader(n))) && Nodes(With(nodes, BecomeLeader(n)), WinHistory(h, n))
  {
    var h' := WinHistory(h, n);
    WinLocal(h, n);
    assert NodeOk(BecomeLeader(n), h') by {
      assert NodeOk(n, h);
      BackedGrows(n.log, h.llog, h'.llog);
    }
    FrameNodes(nodes, h, BecomeLeader(n), h');
  }

  lemma WinVotes(nodes: map<NodeId, Node>, h: History, n: Node, n': Node)
    requires Stands(nodes, h) && Votes(nodes, h) && n.id in nodes && nodes[n.id] == n
    requires n'.id == n.id && n'.term == n.term && n.term !in h.llog
    ensures Stands(With(nodes, n'), WinHistory(h, n)) && Votes(With(nodes, n'), WinHistory(h, n))
  {
    FrameStandsFixed(nodes, h, n', WinHistory(h, n));
    FrameVotesFixed(nodes, h, n', WinHistory(h, n));
  }

  /** The record of the new winner is in order. */
  lemma WinRecorded(nodes: map<NodeId, Node>, h: History, n: Node, n': Node)
    requires n.id in nodes && nodes[n.id] == n && Sized(n) && MayWin(h, n)
    requires n' == n.(role := Leader, nextIndex := n'.nextIndex, matchIndex := n'.matchIndex)
    requires h.tally[n.id] <= nodes.Keys && 2 * |h.tally[n.id]| > |nodes|
    requires forall v :: v in h.tally[n.id] ==> Ballot(n.term, v) in h.voted && h.voted[Ballot(n.term, v)] == n.id
    ensures WinOk(n.term, With(nodes, n'), WinHistory(h, n))
  {
    var h' := WinHistory(h, n);
    BackedGrows(n.log, h.llog, h'.llog);
    assert With(nodes, n').Keys == nodes.Keys;
    assert |With(nodes, n')| == |nodes.Keys|;
  }

  lemma WinWins(nodes: map<NodeId, Node>, h: History, n: Node, n': Node)
    requires Wins(nodes, h) && n.id in nodes && nodes[n.id] == n && MayWin(h, n) && Sized(n)
    requires n' == n.(role := Leader, nextIndex := n'.nextIndex, matchIndex := n'.matchIndex)
    requires h.tally[n.id] <= nodes.Keys && 2 * |h.tally[n.id]| > |nodes|
    requires forall v :: v in h.tally[n.id] ==> Ballot(n.term, v) in h.voted && h.voted[Ballot(n.term, v)] == n.id
    ensures Wins(With(nodes, n'), WinHistory(h, n))
  {
    var h' := WinHistory(h, n);
    WinLocal(h, n);
    WinRecorded(nodes, h, n, n');
    forall t | t in h.won
      ensures WinOk(t, With(nodes, n'), h')
    {
      FrameWin(t, nodes, h, n', h');
    }
  }

  lemma WinAcks(nodes: map<NodeId, Node>, h: History, n: Node)
    requires ShapedNodes(nodes) && Acks(nodes, h) && n.id in nodes && nodes[n.id] == n
    requires n.term !in h.won && n.term !in h.llog
    ensures Acks(With(nodes, BecomeLeader(n)), WinHistory(h, n))
  {
    var h' := WinHistory(h, n);
    WinLocal(h, n);
    forall a | a in h.acks
      ensures AckOk(a, With(nodes, BecomeLeader(n)), h')
    {
      assert AckOk(a, nodes, h);
      var x := nodes[a.node];
      SafeExtends(h, h', a.term, a.upTo, x.log, x.term + 1, x.term + 1);
    }
    assert h'.llog[n.term][..|n.log|] == n.log;
    SafeHolds(h', n.term, |n.log|, n.log, n.term + 1);
  }

  /** The voters of a new winner remember what they acknowledged: any later winner that lost it came before. */
  lemma WinRecallPair(a: Ack, b: Ballot, h: History, h': History, term: nat)
    requires b in h.voted && RecallOk(a, b, h) && term !in h.won && Extends(h, h')
    requires h'.won.Keys == h.won.Keys + {term}
    ensures RecallOk(a, b, h')
  {
    SafeExtends(h, h', a.term, a.upTo, h.voteLog[b], b.term + 1, b.term + 1);
    if b.term == term {
      SafeSkips(h, a.term, a.upTo, h.voteLog[b], b.term);
      SafeExtends(h, h', a.term, a.upTo, h.voteLog[b], b.term, b.term);
    } else if b.term in h.won && b.node in h.won[b.term].voters {
      SafeExtends(h, h', a.term, a.upTo, h.voteLog[b], b.term, b.term);
    }
  }

  lemma WinRecall(nodes: map<NodeId, Node>, h: History, n: Node)
    requires Recall(h) && Votes(nodes, h) && n.id in nodes && nodes[n.id] == n
    requires n.term !in h.won && n.term !in h.llog
    ensures Recall(WinHistory(h, n))
  {
    var h' := WinHistory(h, n);
    WinLocal(h, n);
    forall a, b | a in h'.acks && b in h'.voted && a.node == b.node && a.term < b.term
      ensures RecallOk(a, b, h')
    {
      VotedUpToNow(nodes, h, n, b);
      assert a in h.acks;
      assert RecallOk(a, b, h);
      WinRecallPair(a, b, h, h', n.term);
    }
  }

  lemma VotedUpToNow(nodes: map<NodeId, Node>, h: History, n: Node, b: Ballot)
    requires Votes(nodes, h) && n.id in nodes && nodes[n.id] == n && b in h.voted
    ensures b.node == n.id ==> b.term <= n.term
  {
    assert VoteOk(b, nodes, h);
  }

  lemma SafeSkips(h: History, term: nat, m: nat, log: Log, bound: nat)
    requires term in h.llog && m <= |h.llog[term]| && Safe(h, term, m, log, bound + 1) && bound !in h.won
    ensures Safe(h, term, m, log, bound)
  {
    forall k | 0 <= k <= m
      ensures SafeAt(h, term, k, log, bound)
    {
      assert SafeAt(h, term, k, log, bound + 1);
    }
  }

  lemma WinCore(nodes: map<NodeId, Node>, h: History, n: Node)
    requires Core(nodes, h) && n.id in nodes && nodes[n.id] == n && n.role == Candidate
    requires n.votes >= Quorum(|n.peers|)
    ensures n.term !in h.won && n.term !in h.llog
    ensures Core(With(nodes, BecomeLeader(n)), WinHistory(h, n))
  {
    assert NodeOk(n, h);
    TermIsOpen(nodes, h, n);
    WinNodes(nodes, h, n);
    WinVotes(nodes, h, n, BecomeLeader(n));
    WinWins(nodes, h, n, BecomeLeader(n));
    WinAcks(nodes, h, n);
    WinRecall(nodes, h, n);
  }

  /** Packets are none the worse for a history that only grew without new votes. */
  lemma NetExtends(c: Cluster, h: History, n: Node, h': History)
    requires Packets(c, h) && Uncounted(c, h) && n.id in c.nodes && Extends(h, h')
    requires h'.voted == h.voted && h'.tally == h.tally
    requires n.role != Candidate
    ensures Packets(Cluster(With(c.nodes, n), c.net), h') && Uncounted(Cluster(With(c.nodes, n), c.net), h')
  {
    forall p | p in c.net
      ensures PacketOk(p, h')
    {
      PacketExtends(p, h, h');
    }
  }

  /** A candidate that has counted a quorum becomes the leader. */
  lemma WinKeeps(c: Cluster, h: History, n: Node)
    requires Inv(c, h) && n.id in c.nodes && c.nodes[n.id] == n && n.role == Candidate
    requires n.votes >= Quorum(|n.peers|)
    ensures Inv(Cluster(With(c.nodes, BecomeLeader(n)), c.net), WinHistory(h, n))
    ensures n.term !in h.won && n.term !in h.llog
  {
    WinCore(c.nodes, h, n);
    WinLocal(h, n);
    NetExtends(c, h, BecomeLeader(n), WinHistory(h, n));
  }
}
