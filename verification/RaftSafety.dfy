/** The safety properties of the cluster, over every run. */
module RaftSafety {
  import opened Types
  import opened RaftSpec
  import opened RaftCluster
  import opened RaftHistory
  import opened RaftLogs
  import opened RaftInvariant

  // ---------- committed prefixes ----------

  /** A majority acknowledged the first `index` entries of the leader of `term`, the last of them of that term. */
  ghost predicate Chosen(nodes: map<NodeId, Node>, h: History, term: nat, index: nat, quorum: set<NodeId>) {
    && term in h.won && term in h.llog
    && 1 <= index <= |h.llog[term]| && h.llog[term][index - 1].term == term
    && quorum <= nodes.Keys && 2 * |quorum| > |nodes|
    && (forall f :: f in quorum ==> exists a :: a in h.acks && a.term == term && a.node == f && a.upTo >= index)
  }

  /** A voter that acknowledged the prefix still had it when it elected a later leader,
      as all leaders in between had it. */
  lemma VoterHasPrefix(nodes: map<NodeId, Node>, h: History, term: nat, index: nat, later: nat, a: Ack)
    requires Wins(nodes, h) && Recall(h)
    requires term in h.llog && index <= |h.llog[term]| && term < later && later in h.won
    requires a in h.acks && a.term == term && a.upTo >= index && a.node in h.won[later].voters
    requires forall u :: term < u < later && u in h.won ==> h.llog[term][..index] <= h.won[u].start
    ensures Ballot(later, a.node) in h.voted && Ballot(later, a.node) in h.voteLog
    ensures h.llog[term][..index] <= h.voteLog[Ballot(later, a.node)]
  {
    var b := Ballot(later, a.node);
    assert WinOk(later, nodes, h);
    assert RecallOk(a, b, h);
    assert SafeAt(h, term, index, h.voteLog[b], later);
  }

  /** Of two backed logs with the same last term, the shorter is a prefix of the longer. */
  lemma SameLastTerm(a: Log, b: Log, llog: map<nat, Log>)
    requires Backed(a, llog) && Backed(b, llog) && 0 < |a| <= |b| && LastTerm(a) == LastTerm(b)
    ensures a <= b
  {
    BackedByLast(a, llog);
    BackedByLast(b, llog);
  }

  lemma TermsBounded(nodes: map<NodeId, Node>, h: History)
    requires Wins(nodes, h)
    ensures forall t :: t in h.llog ==> TermsUpTo(h.llog[t], t)
  {
    forall t | t in h.llog
      ensures TermsUpTo(h.llog[t], t)
    {
      assert WinOk(t, nodes, h);
    }
  }

  /** A log whose last entry was made by a winner that started with the prefix has the prefix. */
  lemma LastWinnerHadPrefix(nodes: map<NodeId, Node>, h: History, prefix: Log, log: Log, u: nat)
    requires Wins(nodes, h) && Stands(nodes, h) && Backed(log, h.llog) && |log| > 0 && LastTerm(log) == u
    requires u in h.won && prefix <= h.won[u].start
    ensures prefix <= log
  {
    var start := h.won[u].start;
    assert WinOk(u, nodes, h);
    assert StandOk(Ballot(u, h.won[u].leader), nodes, h);
    BackedByLast(log, h.llog);
    assert |start| < |log|;
  }

  /** An up-to-date candidate whose voter has the prefix has it too. */
  lemma CandidateHasPrefix(nodes: map<NodeId, Node>, h: History, term: nat, index: nat, later: nat, voteLog: Log)
    requires Wins(nodes, h) && Stands(nodes, h) && later in h.won && term < later
    requires term in h.llog && 1 <= index <= |h.llog[term]| && h.llog[term][index - 1].term == term
    requires Backed(voteLog, h.llog) && h.llog[term][..index] <= voteLog
    requires UpToDate(|h.won[later].start|, LastTerm(h.won[later].start), voteLog)
    requires forall u :: term < u < later && u in h.won ==> h.llog[term][..index] <= h.won[u].start
    ensures h.llog[term][..index] <= h.won[later].start
  {
    var start := h.won[later].start;
    assert WinOk(later, nodes, h);
    assert StandOk(Ballot(later, h.won[later].leader), nodes, h);
    assert term <= LastTerm(voteLog) by {
      assert voteLog[index - 1] == h.llog[term][..index][index - 1];
      TermsBounded(nodes, h);
      BackedSorted(voteLog, index - 1, |voteLog| - 1, h.llog);
    }
    if LastTerm(start) == LastTerm(voteLog) {
      SameLastTerm(voteLog, start, h.llog);
    } else {
      BackedByLast(start, h.llog);
      LastWinnerHadPrefix(nodes, h, h.llog[term][..index], start, LastTerm(start));
    }
  }

  /** Leader Completeness inside one state: every winner of a later term started with the chosen prefix. */
  lemma {:induction false} LaterWinnersStartWithIt(nodes: map<NodeId, Node>, h: History, term: nat, index: nat,
                                                   quorum: set<NodeId>, later: nat)
    requires Stands(nodes, h) && Votes(nodes, h) && Wins(nodes, h) && Recall(h)
    requires Chosen(nodes, h, term, index, quorum) && term < later && later in h.won
    ensures h.llog[term][..index] <= h.won[later].start
    decreases later
  {
    forall u | term < u < later && u in h.won
      ensures h.llog[term][..index] <= h.won[u].start
    {
      LaterWinnersStartWithIt(nodes, h, term, index, quorum, u);
    }
    assert WinOk(later, nodes, h);
    assert |nodes.Keys| == |nodes|;
    var x := MajoritiesMeet(quorum, h.won[later].voters, nodes.Keys);
    var a :| a in h.acks && a.term == term && a.node == x && a.upTo >= index;
    VoterHasPrefix(nodes, h, term, index, later, a);
    var b := Ballot(later, x);
    assert VoteOk(b, nodes, h);
    CandidateHasPrefix(nodes, h, term, index, later, h.voteLog[b]);
  }

  // ---------- what a commit rests on ----------

  /** The leader and the peers that acknowledged `index`. */
  function Backers(n: Node, index: nat): set<NodeId>
    requires Sized(n)
  {
    {n.id} + PeersAt(n.peers, AckedPeers(n, index))
  }

  lemma BackersAreMajority(nodes: map<NodeId, Node>, n: Node, index: nat)
    requires ShapedNodes(nodes) && n.id in nodes && nodes[n.id] == n && Committable(n, index)
    ensures Backers(n, index) <= nodes.Keys && 2 * |Backers(n, index)| > |nodes|
  {
    PeersAtSize(n.peers, AckedPeers(n, index));
    assert n.id !in PeersAt(n.peers, AckedPeers(n, index));
  }

  lemma BackersChoose(nodes: map<NodeId, Node>, h: History, n: Node, index: nat)
    requires ShapedNodes(nodes) && n.id in nodes && nodes[n.id] == n && n.role == Leader && LeaderOk(n, h)
    requires WinOk(n.term, nodes, h) && Committable(n, index)
    ensures Chosen(nodes, h, n.term, index, Backers(n, index))
  {
    BackersAreMajority(nodes, n, index);
    forall f | f in Backers(n, index)
      ensures exists a :: a in h.acks && a.term == n.term && a.node == f && a.upTo >= index
    {
      if f == n.id {
        assert Ack(n.term, n.id, |n.log|) in h.acks;
      } else {
        var i :| i in AckedPeers(n, index) && n.peers[i] == f;
        assert Ack(n.term, f, n.matchIndex[i]) in h.acks;
      }
    }
  }

  /** When a node reports a commit it is leader, and the entry is committable by the node's own record. */
  lemma CommitIsCommittable(c: Cluster, a: Action, index: nat, entry: Entry)
    requires Shaped(c) && Commits(c, a, index, entry)
    ensures var n := Effect(c, a).node;
      && Actor(a) in c.nodes && n.id == Actor(a) && Sized(n) && n.role == Leader && Committable(n, index)
      && index <= |n.log| && n.log[index - 1] == entry && entry.term == n.term && n.term == c.nodes[Actor(a)].term
  {
    EffectKeepsIdentity(c, a);
    if a.Deliver? {
      var p := a.packet;
      var n := c.nodes[p.dst];
      StepCommits(n, p.src, p.msg);
    } else {
      assert AckedPeers(Effect(c, a).node, index) == {};
    }
  }

  lemma StepCommits(n: Node, from: NodeId, msg: Message)
    requires Sized(n) && Step(n, from, msg).committed.Some?
    ensures var o := Step(n, from, msg);
      && Sized(o.node) && o.node.role == Leader && o.node.term == n.term && o.node.commit > n.commit
      && Committable(o.node, o.node.commit)
      && o.committed == Some(o.node.log[o.node.commit - 1])
  {
    var i := IndexOf(n.peers, from).value;
    var n1 := n.(nextIndex := n.nextIndex[i := msg.matchIndex + 1], matchIndex := n.matchIndex[i := msg.matchIndex]);
    var c := HighestCommittable(n1, |n1.log|);
    assert AckedPeers(n1.(commit := c), c) == AckedPeers(n1, c);
  }
}
