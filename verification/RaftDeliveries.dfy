/** Every delivery keeps the invariant, message by message. */
module RaftDeliveries {
  import opened Types
  import opened RaftSpec
  import opened RaftCluster
  import opened RaftHistory
  import opened RaftInvariant
  import opened RaftFrame
  import opened RaftSteps
  import opened RaftMoves
  import opened RaftLead
  import opened RaftReplicate

  function CaughtUp(n: Node, term: nat): Node {
    if term > n.term then StepDown(n, term) else n
  }

  /** Adopting a higher term first. */
  lemma CatchUpKeeps(c: Cluster, h: History, n: Node, term: nat)
    requires Inv(c, h) && n.id in c.nodes && c.nodes[n.id] == n
    ensures Inv(Cluster(With(c.nodes, CaughtUp(n, term)), c.net), h)
  {
    if term > n.term {
      StepDownKeeps(c, h, n.id, term);
    } else {
      WithSame(c.nodes, n);
    }
  }

  ghost predicate Arrives(c: Cluster, h: History, n: Node, p: Packet) {
    Inv(c, h) && p in c.net && p.dst == n.id && n.id in c.nodes && c.nodes[n.id] == n
  }

  lemma SendOneKeeps(c: Cluster, h: History, q: Packet)
    requires Inv(c, h) && q.src in c.nodes && q.dst in c.nodes && q.src != q.dst
    requires !(q.msg.RequestVoteReply? && q.msg.voteGranted) && PacketOk(q, h)
    ensures Inv(Cluster(c.nodes, c.net + {q}), h)
  {
    SendKeeps(c, h, {q});
  }

  // ---------- RequestVote ----------

  predicate Grants(n: Node, rv: Message)
    requires rv.RequestVote?
  {
    && rv.term >= n.term
    && UpToDate(rv.lastLogIndex, rv.lastLogTerm, n.log)
    && (n.votedFor.None? || n.votedFor.value == rv.candidateId)
  }

  lemma RequestShape(c: Cluster, h: History, n: Node, p: Packet)
    requires Shaped(c) && p in c.net && p.dst == n.id && n.id in c.nodes && c.nodes[n.id] == n && p.msg.RequestVote?
    requires p.msg.candidateId == p.src
    ensures var n1 := CaughtUp(n, p.msg.term);
      if Grants(n1, p.msg) then
        && Apply(c, Deliver(p)) == Cluster(With(With(c.nodes, n1), n1.(votedFor := Some(p.src))),
                                           c.net - {p} + {Packet(n.id, p.src, RequestVoteReply(n1.term, true))})
        && (n1.votedFor.None? ==> Record(h, c, Deliver(p)) == Cast(h, n1.term, n.id, p.src, n1.log))
      else
        && Apply(c, Deliver(p)) == Cluster(With(c.nodes, n1),
                                           c.net - {p} + {Packet(n.id, p.src, RequestVoteReply(n1.term, false))})
        && Record(h, c, Deliver(p)) == h
  {
    var n1 := CaughtUp(n, p.msg.term);
    WithTwice(c.nodes, n1, n1.(votedFor := Some(p.src)));
    var o := Step(n, p.src, p.msg);
    assert Emitted(n.id, o.sent) == {Packet(n.id, p.src, o.sent[0].msg)};
  }

  lemma RequestKeeps(c: Cluster, h: History, n: Node, p: Packet)
    requires Arrives(c, h, n, p) && p.msg.RequestVote?
    ensures Inv(Apply(c, Deliver(p)), Record(h, c, Deliver(p)))
  {
    var n1 := CaughtUp(n, p.msg.term);
    var c1 := Cluster(With(c.nodes, n1), c.net);
    assert PacketOk(p, h);
    RequestShape(c, h, n, p);
    CatchUpKeeps(c, h, n, p.msg.term);
    assert NodeOk(c1.nodes[n.id], h);
    if Grants(n1, p.msg) {
      VoteKeeps(c1, h, n1, p);
    } else {
      LoseKeeps(c1, h, c.net - {p});
      SendOneKeeps(Cluster(c1.nodes, c.net - {p}), h, Packet(n.id, p.src, RequestVoteReply(n1.term, false)));
    }
  }

  // ---------- RequestVoteReply ----------

  predicate Counts(n: Node, reply: Message)
    requires reply.RequestVoteReply?
  {
    n.role == Candidate && reply.term == n.term && reply.voteGranted
  }

  lemma IdleReplyShape(c: Cluster, h: History, n: Node, p: Packet)
    requires Shaped(c) && p in c.net && p.dst == n.id && n.id in c.nodes && c.nodes[n.id] == n
    requires p.msg.RequestVoteReply?
    requires !Counts(n, p.msg) && (n.role == Candidate ==> n.votes < Quorum(|n.peers|))
    ensures Apply(c, Deliver(p)) == Cluster(With(c.nodes, CaughtUp(n, p.msg.term)), Remaining(c.net, Deliver(p)))
    ensures Record(h, c, Deliver(p)) == h
  {
    var o := Step(n, p.src, p.msg);
    assert Emitted(n.id, o.sent) == {};
  }

  lemma CountShape(c: Cluster, h: History, n: Node, p: Packet)
    requires Shaped(c) && p in c.net && p.dst == n.id && n.id in c.nodes && c.nodes[n.id] == n
    requires p.msg.RequestVoteReply?
    requires Counts(n, p.msg)
    ensures var n1 := Counting(n);
            var counted := Count(h, n.id, p.src);
      if n1.votes >= Quorum(|n.peers|) then
        && Apply(c, Deliver(p)) == Cluster(With(With(c.nodes, n1), BecomeLeader(n1)), c.net - {p})
        && Record(h, c, Deliver(p)) == WinHistory(counted, n1)
      else
        && Apply(c, Deliver(p)) == Cluster(With(c.nodes, n1), c.net - {p})
        && Record(h, c, Deliver(p)) == counted
  {
    var n1 := Counting(n);
    WithTwice(c.nodes, n1, BecomeLeader(n1));
    var o := Step(n, p.src, p.msg);
    assert Emitted(n.id, o.sent) == {};
  }

  lemma CountedReplyKeeps(c: Cluster, h: History, n: Node, p: Packet)
    requires Arrives(c, h, n, p) && p.msg.RequestVoteReply? && Counts(n, p.msg)
    ensures Inv(Apply(c, Deliver(p)), Record(h, c, Deliver(p)))
  {
    CountShape(c, h, n, p);
    CountKeeps(c, h, n, p);
    if Counting(n).votes >= Quorum(|n.peers|) {
      WinKeeps(Cluster(With(c.nodes, Counting(n)), c.net - {p}), Count(h, n.id, p.src), Counting(n));
    }
  }

  lemma IdleReplyKeeps(c: Cluster, h: History, n: Node, p: Packet)
    requires Arrives(c, h, n, p) && p.msg.RequestVoteReply? && !Counts(n, p.msg)
    requires n.role == Candidate ==> n.votes < Quorum(|n.peers|)
    ensures Inv(Apply(c, Deliver(p)), Record(h, c, Deliver(p)))
  {
    IdleReplyShape(c, h, n, p);
    CatchUpKeeps(c, h, n, p.msg.term);
    LoseKeeps(Cluster(With(c.nodes, CaughtUp(n, p.msg.term)), c.net), h, Remaining(c.net, Deliver(p)));
  }

  // ---------- AppendEntries ----------

  function Following(n: Node, term: nat): Node {
    if term > n.term then StepDown(n, term) else n.(role := Follower)
  }

  lemma FollowTermKeeps(c: Cluster, h: History, n: Node, term: nat)
    requires Inv(c, h) && n.id in c.nodes && c.nodes[n.id] == n && term >= n.term
    requires term == n.term ==> n.role != Leader
    ensures Inv(Cluster(With(c.nodes, Following(n, term)), c.net), h)
  {
    if term > n.term {
      StepDownKeeps(c, h, n.id, term);
    } else {
      FollowKeeps(c, h, n.id);
    }
  }

  /** The reply to batch `p` that the follower accepted. */
  function Accepted(n: Node, p: Packet): Packet
    requires p.msg.AppendEntries?
  {
    Packet(n.id, p.src, AppendEntriesReply(n.term, true, p.msg.prevLogIndex + |p.msg.entries|))
  }

  lemma StaleBatchShape(c: Cluster, h: History, n: Node, p: Packet)
    requires Shaped(c) && p in c.net && p.dst == n.id && n.id in c.nodes && c.nodes[n.id] == n
    requires p.msg.AppendEntries? && p.msg.term < n.term
    ensures Apply(c, Deliver(p)) ==
            Cluster(c.nodes, c.net + {Packet(n.id, p.src, AppendEntriesReply(n.term, false, 0))})
    ensures Record(h, c, Deliver(p)) == h
  {
    WithSame(c.nodes, n);
    var o := Step(n, p.src, p.msg);
    assert Emitted(n.id, o.sent) == {Packet(n.id, p.src, o.sent[0].msg)};
  }

  /** `n'` is `n` with the batch laid over its log. */
  ghost predicate Overlaid(n: Node, ae: Message, n': Node)
    requires ae.AppendEntries?
  {
    && PrevMatches(n.log, ae)
    && n'.log == Overlay(n.log, ae.prevLogIndex, ae.entries)
    && n' == n.(log := n'.log, commit := n'.commit)
  }

  lemma AcceptedBatchShape(c: Cluster, h: History, n: Node, p: Packet)
    requires Shaped(c) && p in c.net && p.dst == n.id && n.id in c.nodes && c.nodes[n.id] == n
    requires p.msg.AppendEntries? && p.msg.term >= n.term && PrevMatches(n.log, p.msg)
    ensures var n1 := Following(n, p.msg.term);
            var n2 := Step(n, p.src, p.msg).node;
      && Overlaid(n1, p.msg, n2)
      && Apply(c, Deliver(p)) == Cluster(With(With(c.nodes, n1), n2), c.net + {Accepted(n1, p)})
      && Record(h, c, Deliver(p)) == AcceptHistory(h, n1, p.msg)
  {
    var o := Step(n, p.src, p.msg);
    WithTwice(c.nodes, Following(n, p.msg.term), o.node);
    assert Emitted(n.id, o.sent) == {Packet(n.id, p.src, o.sent[0].msg)};
  }

  lemma RefusedBatchShape(c: Cluster, h: History, n: Node, p: Packet)
    requires Shaped(c) && p in c.net && p.dst == n.id && n.id in c.nodes && c.nodes[n.id] == n
    requires p.msg.AppendEntries? && p.msg.term >= n.term && !PrevMatches(n.log, p.msg)
    ensures var n1 := Following(n, p.msg.term);
      && Apply(c, Deliver(p)) ==
         Cluster(With(c.nodes, n1), c.net + {Packet(n.id, p.src, AppendEntriesReply(n1.term, false, 0))})
      && Record(h, c, Deliver(p)) == h
  {
    var o := Step(n, p.src, p.msg);
    assert Emitted(n.id, o.sent) == {Packet(n.id, p.src, o.sent[0].msg)};
  }

  lemma AcceptedReplyKeeps(c: Cluster, h: History, n: Node, p: Packet)
    requires Inv(c, h) && n.id in c.nodes && p.src in c.nodes && p.src != n.id && p.msg.AppendEntries?
    requires Ack(n.term, n.id, p.msg.prevLogIndex + |p.msg.entries|) in h.acks
    ensures Inv(Cluster(c.nodes, c.net + {Accepted(n, p)}), h)
  {
    SendOneKeeps(c, h, Accepted(n, p));
  }

  lemma AcceptGround(nodes: map<NodeId, Node>, h: History, n: Node, p: Packet, n': Node)
    requires Sized(n) && NodeOk(n, h) && PacketOk(p, h)
    requires p.msg.AppendEntries? && p.msg.term == n.term && n.role == Follower
    requires n.term in h.won && WinOk(n.term, nodes, h) && Overlaid(n, p.msg, n')
    ensures Accepts(h, n, p.msg, n')
  {
  }

  lemma AcceptRecords(h: History, n: Node, ae: Message)
    requires ae.AppendEntries?
    ensures Ack(n.term, n.id, ae.prevLogIndex + |ae.entries|) in AcceptHistory(h, n, ae).acks
  {
  }

  lemma AcceptStepKeeps(c: Cluster, h: History, n: Node, p: Packet, n': Node)
    requires Arrives(c, h, n, p) && p.msg.AppendEntries? && p.msg.term == n.term && n.role == Follower
    requires Overlaid(n, p.msg, n')
    ensures Inv(Cluster(With(c.nodes, n'), c.net), AcceptHistory(h, n, p.msg))
  {
    assert NodeOk(n, h) && PacketOk(p, h) && WinOk(n.term, c.nodes, h);
    AcceptGround(c.nodes, h, n, p, n');
    AcceptKeeps(c, h, n, p.msg, n');
  }

  /** The second half of handling a batch, once the node follows the leader's term. */
  lemma BatchEndKeeps(c: Cluster, h: History, n: Node, p: Packet, n': Node)
    requires Arrives(c, h, n, p) && p.msg.AppendEntries? && p.msg.term == n.term && n.role == Follower
    requires p.src in c.nodes && p.src != n.id && Overlaid(n, p.msg, n')
    ensures Inv(Cluster(With(c.nodes, n'), c.net + {Accepted(n, p)}), AcceptHistory(h, n, p.msg))
  {
    AcceptRecords(h, n, p.msg);
    AcceptStepKeeps(c, h, n, p, n');
    AcceptedReplyKeeps(Cluster(With(c.nodes, n'), c.net), AcceptHistory(h, n, p.msg), n, p);
  }

  /** Only the winner of a term sends batches in it, and not to itself. */
  lemma NotFromMyself(n: Node, h: History, p: Packet)
    requires Sized(n) && NodeOk(n, h) && PacketOk(p, h) && p.msg.AppendEntries? && p.src != n.id
    ensures p.msg.term == n.term ==> n.role != Leader
  {
  }

  lemma AcceptedBatchKeeps(c: Cluster, h: History, n: Node, p: Packet)
    requires Arrives(c, h, n, p) && p.msg.AppendEntries? && p.msg.term >= n.term && PrevMatches(n.log, p.msg)
    requires p.src in c.nodes && p.src != n.id && (p.msg.term == n.term ==> n.role != Leader)
    ensures Inv(Apply(c, Deliver(p)), Record(h, c, Deliver(p)))
  {
    var n1 := Following(n, p.msg.term);
    AcceptedBatchShape(c, h, n, p);
    FollowTermKeeps(c, h, n, p.msg.term);
    BatchEndKeeps(Cluster(With(c.nodes, n1), c.net), h, n1, p, Step(n, p.src, p.msg).node);
  }

  lemma RefusedBatchKeeps(c: Cluster, h: History, n: Node, p: Packet)
    requires Arrives(c, h, n, p) && p.msg.AppendEntries? && p.msg.term >= n.term && !PrevMatches(n.log, p.msg)
    requires p.src in c.nodes && p.src != n.id && (p.msg.term == n.term ==> n.role != Leader)
    ensures Inv(Apply(c, Deliver(p)), Record(h, c, Deliver(p)))
  {
    var n1 := Following(n, p.msg.term);
    RefusedBatchShape(c, h, n, p);
    FollowTermKeeps(c, h, n, p.msg.term);
    SendOneKeeps(Cluster(With(c.nodes, n1), c.net), h, Packet(n.id, p.src, AppendEntriesReply(n1.term, false, 0)));
  }

  lemma BatchKeeps(c: Cluster, h: History, n: Node, p: Packet)
    requires Arrives(c, h, n, p) && p.msg.AppendEntries?
    ensures Inv(Apply(c, Deliver(p)), Record(h, c, Deliver(p)))
  {
    assert p.src in c.nodes && p.src != n.id && PacketOk(p, h) && NodeOk(n, h);
    NotFromMyself(n, h, p);
    if p.msg.term < n.term {
      StaleBatchShape(c, h, n, p);
      SendOneKeeps(c, h, Packet(n.id, p.src, AppendEntriesReply(n.term, false, 0)));
    } else if PrevMatches(n.log, p.msg) {
      AcceptedBatchKeeps(c, h, n, p);
    } else {
      RefusedBatchKeeps(c, h, n, p);
    }
  }

  // ---------- AppendEntriesReply ----------

  lemma AckShape(c: Cluster, h: History, n: Node, p: Packet)
    requires Shaped(c) && p in c.net && p.dst == n.id && n.id in c.nodes && c.nodes[n.id] == n
    requires p.msg.AppendEntriesReply?
    ensures Apply(c, Deliver(p)) == Cluster(With(c.nodes, Step(n, p.src, p.msg).node), c.net)
    ensures Record(h, c, Deliver(p)) == h
  {
    var o := Step(n, p.src, p.msg);
    assert Emitted(n.id, o.sent) == {};
  }

  lemma IdleAck(n: Node, p: Packet)
    requires Sized(n) && p.msg.AppendEntriesReply? && !(n.role == Leader && p.msg.term == n.term)
    ensures Step(n, p.src, p.msg).node == CaughtUp(n, p.msg.term)
  {
  }

  lemma BookOk(n: Node, h: History, p: Packet)
    requires Sized(n) && n.role == Leader && LeaderOk(n, h) && p.msg.AppendEntriesReply? && p.msg.term == n.term
    requires p.msg.success ==> Ack(n.term, p.src, p.msg.matchIndex) in h.acks && p.msg.matchIndex <= |n.log|
    ensures var n' := Step(n, p.src, p.msg).node;
      && Sized(n') && LeaderOk(n', h)
      && n' == n.(nextIndex := n'.nextIndex, matchIndex := n'.matchIndex, commit := n'.commit)
  {
  }

  lemma BookedReplyKeeps(c: Cluster, h: History, n: Node, p: Packet)
    requires Arrives(c, h, n, p) && p.msg.AppendEntriesReply? && n.role == Leader && p.msg.term == n.term
    ensures Inv(Cluster(With(c.nodes, Step(n, p.src, p.msg).node), c.net), h)
  {
    assert NodeOk(n, h) && PacketOk(p, h);
    if p.msg.success {
      assert AckOk(Ack(n.term, p.src, p.msg.matchIndex), c.nodes, h);
    }
    BookOk(n, h, p);
    BookKeeps(c, h, Step(n, p.src, p.msg).node);
  }

  lemma AppendReplyKeeps(c: Cluster, h: History, n: Node, p: Packet)
    requires Arrives(c, h, n, p) && p.msg.AppendEntriesReply?
    ensures Inv(Apply(c, Deliver(p)), Record(h, c, Deliver(p)))
  {
    AckShape(c, h, n, p);
    if n.role == Leader && p.msg.term == n.term {
      BookedReplyKeeps(c, h, n, p);
    } else {
      IdleAck(n, p);
      CatchUpKeeps(c, h, n, p.msg.term);
    }
  }
}
