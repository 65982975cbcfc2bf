/** The moves that grow logs: a leader appends, a follower accepts a batch. */
module RaftReplicate {
  import opened Types
  import opened RaftSpec
  import opened RaftCluster
  import opened RaftHistory
  import opened RaftLogs
  import opened RaftInvariant
  import opened RaftFrame
  import opened RaftLead

  // ---------- the leader appends ----------

  function AppendHistory(h: History, n: Node): History {
    Lead(h, n.term, n.id, n.log)
  }

  /** `n'` is leader `n` with one entry of its own term added. */
  ghost predicate Appends(h: History, n: Node, n': Node) {
    && Sized(n) && n.role == Leader && LeaderOk(n, h)
    && |n.log| < LOG_CAPACITY && |n'.log| == |n.log| + 1
    && n' == n.(log := n'.log, commit := n'.commit)
    && n.log == n'.log[..|n.log|] && n'.log[|n.log|].term == n.term
  }

  lemma AppendLocal(h: History, n: Node, n': Node)
    requires Appends(h, n, n')
    ensures Local(h, AppendHistory(h, n'), n.id)
  {
  }

  lemma AppendBacked(h: History, n: Node, n': Node)
    requires Appends(h, n, n') && Backed(n.log, h.llog)
    ensures Backed(n'.log, AppendHistory(h, n').llog)
  {
    var llog' := AppendHistory(h, n').llog;
    AppendLocal(h, n, n');
    BackedGrows(n.log, h.llog, llog');
    assert n.log + [n'.log[|n.log|]] == n'.log;
    BackedAppend(n.log, n'.log[|n.log|], llog');
  }

  lemma AppendNodes(nodes: map<NodeId, Node>, h: History, n: Node, n': Node)
    requires ShapedNodes(nodes) && Nodes(nodes, h) && n.id in nodes && nodes[n.id] == n && Appends(h, n, n')
    ensures ShapedNodes(With(nodes, n')) && Nodes(With(nodes, n'), AppendHistory(h, n'))
  {
    AppendLocal(h, n, n');
    assert NodeOk(n', AppendHistory(h, n')) by {
      assert NodeOk(n, h);
      AppendBacked(h, n, n');
    }
    FrameNodes(nodes, h, n', AppendHistory(h, n'));
  }

  lemma AppendVotes(nodes: map<NodeId, Node>, h: History, n: Node, n': Node)
    requires Stands(nodes, h) && Votes(nodes, h) && n.id in nodes && nodes[n.id] == n && Appends(h, n, n')
    ensures Stands(With(nodes, n'), AppendHistory(h, n')) && Votes(With(nodes, n'), AppendHistory(h, n'))
  {
    AppendLocal(h, n, n');
    FrameStandsFixed(nodes, h, n', AppendHistory(h, n'));
    FrameVotesFixed(nodes, h, n', AppendHistory(h, n'));
  }

  lemma AppendRecorded(nodes: map<NodeId, Node>, h: History, n: Node, n': Node)
    requires n.term in h.won && WinOk(n.term, nodes, h) && n.id in nodes && nodes[n.id] == n && Appends(h, n, n')
    ensures WinOk(n.term, With(nodes, n'), AppendHistory(h, n'))
  {
    AppendBacked(h, n, n');
    assert With(nodes, n').Keys == nodes.Keys;
    assert |With(nodes, n')| == |nodes.Keys|;
  }

  lemma AppendWins(nodes: map<NodeId, Node>, h: History, n: Node, n': Node)
    requires Wins(nodes, h) && n.id in nodes && nodes[n.id] == n && Appends(h, n, n')
    ensures Wins(With(nodes, n'), AppendHistory(h, n'))
  {
    AppendLocal(h, n, n');
    forall t | t in h.won
      ensures WinOk(t, With(nodes, n'), AppendHistory(h, n'))
    {
      if t == n.term {
        AppendRecorded(nodes, h, n, n');
      } else {
        FrameWin(t, nodes, h, n', AppendHistory(h, n'));
      }
    }
  }

  lemma AppendAcks(nodes: map<NodeId, Node>, h: History, n: Node, n': Node)
    requires Acks(nodes, h) && n.id in nodes && nodes[n.id] == n && Appends(h, n, n')
    ensures Acks(With(nodes, n'), AppendHistory(h, n'))
  {
    var h' := AppendHistory(h, n');
    AppendLocal(h, n, n');
    forall a | a in h.acks
      ensures AckOk(a, With(nodes, n'), h')
    {
      assert AckOk(a, nodes, h);
      var x' := With(nodes, n')[a.node];
      SafeLonger(h, a.term, a.upTo, nodes[a.node].log, x'.log, x'.term + 1, x'.term + 1);
      SafeExtends(h, h', a.term, a.upTo, x'.log, x'.term + 1, x'.term + 1);
    }
    assert h'.llog[n.term][..|n'.log|] == n'.log;
    SafeHolds(h', n.term, |n'.log|, n'.log, n.term + 1);
  }

  /** An acknowledgement made now cannot precede a vote already cast in a later term. */
  lemma AckRecall(nodes: map<NodeId, Node>, h: History, h': History, n: Node)
    requires Recall(h) && Votes(nodes, h) && n.id in nodes
    requires Extends(h, h') && h'.won == h.won && h'.voted == h.voted
    requires forall a :: a in h'.acks && a !in h.acks ==> a.node == n.id && a.term == nodes[n.id].term
    ensures Recall(h')
  {
    forall a, b | a in h'.acks && b in h'.voted && a.node == b.node && a.term < b.term
      ensures RecallOk(a, b, h')
    {
      assert VoteOk(b, nodes, h);
      FrameRecallPair(a, b, h, h');
    }
  }

  lemma AppendRecall(nodes: map<NodeId, Node>, h: History, n: Node, n': Node)
    requires Recall(h) && Votes(nodes, h) && n.id in nodes && nodes[n.id] == n && Appends(h, n, n')
    ensures Recall(AppendHistory(h, n'))
  {
    AppendLocal(h, n, n');
    AckRecall(nodes, h, AppendHistory(h, n'), n);
  }

  lemma AppendCore(nodes: map<NodeId, Node>, h: History, n: Node, n': Node)
    requires Core(nodes, h) && n.id in nodes && nodes[n.id] == n && Appends(h, n, n')
    ensures Core(With(nodes, n'), AppendHistory(h, n'))
  {
    AppendNodes(nodes, h, n, n');
    AppendVotes(nodes, h, n, n');
    AppendWins(nodes, h, n, n');
    AppendAcks(nodes, h, n, n');
    AppendRecall(nodes, h, n, n');
  }

  lemma AppendKeeps(c: Cluster, h: History, n: Node, n': Node)
    requires Inv(c, h) && n.id in c.nodes && c.nodes[n.id] == n && Appends(h, n, n')
    ensures Inv(Cluster(With(c.nodes, n'), c.net), AppendHistory(h, n'))
  {
    AppendCore(c.nodes, h, n, n');
    AppendLocal(h, n, n');
    NetExtends(c, h, n', AppendHistory(h, n'));
  }

  /** A leader sends its peers slices of its own log. */
  lemma AppendForOk(n: Node, h: History, j: nat)
    requires Sized(n) && LeaderOk(n, h) && j < |n.peers|
    ensures PacketOk(Packet(n.id, n.peers[j], AppendFor(n, j).msg), h)
  {
    NextBatchIsSlice(n.log, n.nextIndex[j]);
  }

  lemma NextBatchIsSlice(log: Log, next: nat)
    requires 1 <= next <= |log| + 1
    ensures SliceOf(log, next - 1, NextBatch(log, next))
  {
    assert next == |log| + 1 ==> log[next - 1..next - 1] == [];
  }

  // ---------- a follower accepts ----------

  /** A follower in the leader's term accepts the batch of `ae`. */
  ghost predicate Accepts(h: History, n: Node, ae: Message, n': Node) {
    && ae.AppendEntries? && Sized(n) && n.role == Follower && ae.term == n.term
    && n.term in h.won && n.term in h.llog
    && Backed(n.log, h.llog) && TermsUpTo(n.log, n.term)
    && Backed(h.llog[n.term], h.llog) && TermsUpTo(h.llog[n.term], n.term) && |h.llog[n.term]| <= LOG_CAPACITY
    && h.won[n.term].start <= h.llog[n.term]
    && SliceOf(h.llog[n.term], ae.prevLogIndex, ae.entries)
    && (ae.prevLogIndex > 0 ==> h.llog[n.term][ae.prevLogIndex - 1].term == ae.prevLogTerm)
    && PrevMatches(n.log, ae)
    && n'.log == Overlay(n.log, ae.prevLogIndex, ae.entries)
    && n' == n.(log := n'.log, commit := n'.commit)
  }

  function AcceptHistory(h: History, n: Node, ae: Message): History
    requires ae.AppendEntries?
  {
    h.(acks := h.acks + {Ack(n.term, n.id, ae.prevLogIndex + |ae.entries|)})
  }

  lemma AcceptLog(h: History, n: Node, ae: Message, n': Node)
    requires Accepts(h, n, ae, n')
    ensures h.llog[n.term][..ae.prevLogIndex + |ae.entries|] <= n'.log
    ensures Backed(n'.log, h.llog) && TermsUpTo(n'.log, n.term) && Sized(n')
  {
    var lead := h.llog[n.term];
    OverlayOfLeader(n.log, lead, ae.prevLogIndex, ae.entries, h.llog);
    BackedPrefix(lead, ae.prevLogIndex + |ae.entries|, h.llog);
  }

  lemma AcceptLocal(h: History, n: Node, ae: Message)
    requires ae.AppendEntries?
    ensures Local(h, AcceptHistory(h, n, ae), n.id)
  {
  }

  lemma AcceptNode(h: History, n: Node, ae: Message, n': Node)
    requires Sized(n) && NodeOk(n, h) && Accepts(h, n, ae, n')
    ensures Sized(n') && NodeOk(n', AcceptHistory(h, n, ae))
  {
    AcceptLog(h, n, ae, n');
  }

  lemma AcceptNodes(nodes: map<NodeId, Node>, h: History, n: Node, ae: Message, n': Node)
    requires ShapedNodes(nodes) && Nodes(nodes, h) && n.id in nodes && nodes[n.id] == n && Accepts(h, n, ae, n')
    ensures ShapedNodes(With(nodes, n')) && Nodes(With(nodes, n'), AcceptHistory(h, n, ae))
  {
    AcceptNode(h, n, ae, n');
    AcceptLocal(h, n, ae);
    FrameNodes(nodes, h, n', AcceptHistory(h, n, ae));
  }

  /** What a follower acknowledged to an earlier leader survives the new leader's batch,
      unless the new leader itself started without it. */
  lemma AcceptKeepsHeld(h: History, n: Node, ae: Message, n': Node, term: nat, k: nat)
    requires Accepts(h, n, ae, n')
    requires term in h.llog && k <= |h.llog[term]| && term <= n.term
    requires SafeAt(h, term, k, n.log, n.term + 1)
    ensures SafeAt(h, term, k, n'.log, n.term + 1)
  {
    var lead := h.llog[n.term];
    var held := h.llog[term][..k];
    if held <= n.log && (term == n.term || held <= h.won[n.term].start) {
      assert held <= lead;
      assert lead[..k] == held;
      OverlayKeeps(n.log, lead, ae.prevLogIndex, ae.entries, k, h.llog);
    }
  }

  lemma AcceptOwnAck(h: History, n: Node, ae: Message, n': Node, a: Ack)
    requires Accepts(h, n, ae, n')
    requires a.term in h.llog && a.upTo <= |h.llog[a.term]| && a.term <= n.term
    requires Safe(h, a.term, a.upTo, n.log, n.term + 1)
    ensures Safe(h, a.term, a.upTo, n'.log, n.term + 1)
  {
    var bound := n.term + 1;
    forall k | 0 <= k <= a.upTo
      ensures SafeAt(h, a.term, k, n'.log, bound)
    {
      assert SafeAt(h, a.term, k, n.log, bound);
      AcceptKeepsHeld(h, n, ae, n', a.term, k);
    }
  }

  lemma AcceptOldAck(nodes: map<NodeId, Node>, h: History, n: Node, ae: Message, n': Node, a: Ack)
    requires AckOk(a, nodes, h) && n.id in nodes && nodes[n.id] == n && Accepts(h, n, ae, n')
    ensures AckOk(a, With(nodes, n'), AcceptHistory(h, n, ae))
  {
    AcceptLocal(h, n, ae);
    if a.node == n.id {
      AcceptOwnAck(h, n, ae, n', a);
    }
    SafeExtends(h, AcceptHistory(h, n, ae), a.term, a.upTo, With(nodes, n')[a.node].log, nodes[a.node].term + 1,
                nodes[a.node].term + 1);
  }

  lemma AcceptNewAck(nodes: map<NodeId, Node>, h: History, n: Node, ae: Message, n': Node)
    requires n.id in nodes && nodes[n.id] == n && Accepts(h, n, ae, n')
    ensures AckOk(Ack(n.term, n.id, ae.prevLogIndex + |ae.entries|), With(nodes, n'), AcceptHistory(h, n, ae))
  {
    AcceptLog(h, n, ae, n');
    SafeHolds(AcceptHistory(h, n, ae), n.term, ae.prevLogIndex + |ae.entries|, n'.log, n.term + 1);
  }

  lemma AcceptAcks(nodes: map<NodeId, Node>, h: History, n: Node, ae: Message, n': Node)
    requires Acks(nodes, h) && n.id in nodes && nodes[n.id] == n && Accepts(h, n, ae, n')
    ensures Acks(With(nodes, n'), AcceptHistory(h, n, ae))
  {
    forall a | a in AcceptHistory(h, n, ae).acks
      ensures AckOk(a, With(nodes, n'), AcceptHistory(h, n, ae))
    {
      if a in h.acks {
        assert AckOk(a, nodes, h);
        AcceptOldAck(nodes, h, n, ae, n', a);
      } else {
        AcceptNewAck(nodes, h, n, ae, n');
      }
    }
  }

  lemma AcceptVotes(nodes: map<NodeId, Node>, h: History, n: Node, ae: Message, n': Node)
    requires Stands(nodes, h) && Votes(nodes, h) && n.id in nodes && nodes[n.id] == n && Accepts(h, n, ae, n')
    ensures Stands(With(nodes, n'), AcceptHistory(h, n, ae)) && Votes(With(nodes, n'), AcceptHistory(h, n, ae))
  {
    FrameStandsFixed(nodes, h, n', AcceptHistory(h, n, ae));
    FrameVotesFixed(nodes, h, n', AcceptHistory(h, n, ae));
  }

  lemma AcceptWins(nodes: map<NodeId, Node>, h: History, n: Node, ae: Message, n': Node)
    requires Wins(nodes, h) && n.id in nodes && nodes[n.id] == n && Accepts(h, n, ae, n')
    ensures Wins(With(nodes, n'), AcceptHistory(h, n, ae))
  {
    forall t | t in h.won
      ensures WinOk(t, With(nodes, n'), AcceptHistory(h, n, ae))
    {
      FrameWin(t, nodes, h, n', AcceptHistory(h, n, ae));
    }
  }

  lemma AcceptRecall(nodes: map<NodeId, Node>, h: History, n: Node, ae: Message)
    requires Recall(h) && Votes(nodes, h) && n.id in nodes && nodes[n.id] == n && ae.AppendEntries?
    ensures Recall(AcceptHistory(h, n, ae))
  {
    AckRecall(nodes, h, AcceptHistory(h, n, ae), n);
  }

  lemma AcceptCore(nodes: map<NodeId, Node>, h: History, n: Node, ae: Message, n': Node)
    requires Core(nodes, h) && n.id in nodes && nodes[n.id] == n && Accepts(h, n, ae, n')
    ensures Core(With(nodes, n'), AcceptHistory(h, n, ae))
  {
    AcceptNodes(nodes, h, n, ae, n');
    AcceptVotes(nodes, h, n, ae, n');
    AcceptWins(nodes, h, n, ae, n');
    AcceptAcks(nodes, h, n, ae, n');
    AcceptRecall(nodes, h, n, ae);
  }

  lemma AcceptKeeps(c: Cluster, h: History, n: Node, ae: Message, n': Node)
    requires Inv(c, h) && n.id in c.nodes && c.nodes[n.id] == n && Accepts(h, n, ae, n')
    ensures Inv(Cluster(With(c.nodes, n'), c.net), AcceptHistory(h, n, ae))
  {
    AcceptCore(c.nodes, h, n, ae, n');
    AcceptNet(c, h, n, ae, n');
  }

  lemma AcceptNet(c: Cluster, h: History, n: Node, ae: Message, n': Node)
    requires Packets(c, h) && Uncounted(c, h) && n.id in c.nodes && Accepts(h, n, ae, n')
    ensures Packets(Cluster(With(c.nodes, n'), c.net), AcceptHistory(h, n, ae))
    ensures Uncounted(Cluster(With(c.nodes, n'), c.net), AcceptHistory(h, n, ae))
  {
    NetExtends(c, h, n', AcceptHistory(h, n, ae));
  }
}
