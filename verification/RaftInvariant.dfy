/** The inductive invariant of a cluster and its history. */
module RaftInvariant {
  import opened Types
  import opened RaftSpec
  import opened RaftCluster
  import opened RaftHistory
  import opened RaftLogs

  // ---------- nodes ----------

  ghost predicate CandidateOk(n: Node, h: History) {
    var b := Ballot(n.term, n.id);
    && b in h.candLog && h.candLog[b] == n.log
    && n.id in h.tally && |h.tally[n.id]| == n.votes
    && (forall v :: v in h.tally[n.id] ==> Ballot(n.term, v) in h.voted && h.voted[Ballot(n.term, v)] == n.id)
    && (n.term in h.won ==> h.won[n.term].leader != n.id)
  }

  ghost predicate LeaderOk(n: Node, h: History)
    requires Sized(n)
  {
    && n.term in h.won && h.won[n.term].leader == n.id
    && n.term in h.llog && h.llog[n.term] == n.log
    && forall j :: 0 <= j < |n.peers| ==>
         && 1 <= n.nextIndex[j] <= |n.log| + 1
         && (n.matchIndex[j] > 0 ==> Ack(n.term, n.peers[j], n.matchIndex[j]) in h.acks)
  }

  ghost predicate NodeOk(n: Node, h: History)
    requires Sized(n)
  {
    && (n.votedFor.Some? ==> Ballot(n.term, n.id) in h.voted && h.voted[Ballot(n.term, n.id)] == n.votedFor.value)
    && (n.votedFor.None? ==> Ballot(n.term, n.id) !in h.voted)
    && Backed(n.log, h.llog)
    && TermsUpTo(n.log, n.term)
    && (n.role == Candidate ==> CandidateOk(n, h))
    && (n.role == Leader ==> LeaderOk(n, h))
  }

  ghost predicate Nodes(nodes: map<NodeId, Node>, h: History)
    requires ShapedNodes(nodes)
  {
    forall i :: i in nodes ==> NodeOk(nodes[i], h)
  }

  // ---------- votes ----------

  /** A candidate's log is backed and older than the term it stood in. */
  ghost predicate StandOk(b: Ballot, nodes: map<NodeId, Node>, h: History)
    requires b in h.candLog
  {
    && b.node in nodes && b.term <= nodes[b.node].term
    && Backed(h.candLog[b], h.llog)
    && (forall k :: 0 <= k < |h.candLog[b]| ==> h.candLog[b][k].term < b.term)
  }

  ghost predicate Stands(nodes: map<NodeId, Node>, h: History) {
    forall b :: b in h.candLog ==> StandOk(b, nodes, h)
  }

  /** A vote went to a candidate of that term whose log was at least as up to date as the voter's. */
  ghost predicate VoteOk(b: Ballot, nodes: map<NodeId, Node>, h: History)
    requires b in h.voted
  {
    && b.node in nodes && b.term <= nodes[b.node].term
    && b in h.voteLog && Backed(h.voteLog[b], h.llog)
    && var stood := Ballot(b.term, h.voted[b]);
       stood in h.candLog && UpToDate(|h.candLog[stood]|, LastTerm(h.candLog[stood]), h.voteLog[b])
  }

  ghost predicate Votes(nodes: map<NodeId, Node>, h: History) {
    && h.voteLog.Keys == h.voted.Keys
    && forall b :: b in h.voted ==> VoteOk(b, nodes, h)
  }

  // ---------- wins ----------

  ghost predicate WinOk(t: nat, nodes: map<NodeId, Node>, h: History)
    requires t in h.won
  {
    var w := h.won[t];
    && t in h.llog && Backed(h.llog[t], h.llog) && TermsUpTo(h.llog[t], t) && |h.llog[t]| <= LOG_CAPACITY
    && Ballot(t, w.leader) in h.candLog && h.candLog[Ballot(t, w.leader)] == w.start
    && w.start <= h.llog[t]
    && w.voters <= nodes.Keys && 2 * |w.voters| > |nodes|
    && (forall v :: v in w.voters ==> Ballot(t, v) in h.voted && h.voted[Ballot(t, v)] == w.leader)
    && Ack(t, w.leader, |h.llog[t]|) in h.acks
    && w.leader in nodes && t <= nodes[w.leader].term
    && (nodes[w.leader].term == t ==> nodes[w.leader].role == Leader)
  }

  ghost predicate Wins(nodes: map<NodeId, Node>, h: History) {
    && h.llog.Keys == h.won.Keys
    && forall t :: t in h.won ==> WinOk(t, nodes, h)
  }

  // ---------- the network ----------

  ghost predicate PacketOk(p: Packet, h: History) {
    match p.msg
    case RequestVote(term, candidate, lastIndex, lastTerm) =>
      var b := Ballot(term, p.src);
      && candidate == p.src && b in h.candLog
      && lastIndex == |h.candLog[b]| && lastTerm == LastTerm(h.candLog[b])
      && (Ballot(term, p.dst) in h.voted ==> h.voted[Ballot(term, p.dst)] != p.src)
    case RequestVoteReply(term, granted) =>
      granted ==> Ballot(term, p.src) in h.voted && h.voted[Ballot(term, p.src)] == p.dst
    case AppendEntries(term, leader, prev, prevTerm, entries, _) =>
      && term in h.won && term in h.llog && h.won[term].leader == p.src
      && SliceOf(h.llog[term], prev, entries)
      && (prev > 0 ==> h.llog[term][prev - 1].term == prevTerm)
    case AppendEntriesReply(term, success, upTo) =>
      success ==> Ack(term, p.src, upTo) in h.acks
  }

  ghost predicate Packets(c: Cluster, h: History) {
    forall p :: p in c.net ==> p.src in c.nodes && p.dst in c.nodes && p.src != p.dst && PacketOk(p, h)
  }

  /** A granted vote in flight to a candidate has not been counted yet. */
  ghost predicate Uncounted(c: Cluster, h: History) {
    forall p :: p in c.net && p.msg.RequestVoteReply? && p.msg.voteGranted && p.dst in c.nodes
      && c.nodes[p.dst].role == Candidate && c.nodes[p.dst].term == p.msg.term
      ==> p.src !in TallyOf(h, p.dst)
  }

  // ---------- acknowledgements ----------

  /** `log` starts with the first `k` entries of the leader of `term`, unless some winner of a term
      strictly between `term` and `bound` already started without them. */
  ghost predicate SafeAt(h: History, term: nat, k: nat, log: Log, bound: nat)
    requires term in h.llog && k <= |h.llog[term]|
  {
    || h.llog[term][..k] <= log
    || exists u :: term < u < bound && u in h.won && !(h.llog[term][..k] <= h.won[u].start)
  }

  /** The same for every number of entries up to `m`. */
  ghost predicate Safe(h: History, term: nat, m: nat, log: Log, bound: nat)
    requires term in h.llog && m <= |h.llog[term]|
  {
    forall k {:trigger SafeAt(h, term, k, log, bound)} :: 0 <= k <= m ==> SafeAt(h, term, k, log, bound)
  }

  ghost predicate AckOk(a: Ack, nodes: map<NodeId, Node>, h: History) {
    && a.term in h.llog && a.upTo <= |h.llog[a.term]|
    && a.node in nodes && a.term <= nodes[a.node].term
    && Safe(h, a.term, a.upTo, nodes[a.node].log, nodes[a.node].term + 1)
  }

  ghost predicate Acks(nodes: map<NodeId, Node>, h: History) {
    forall a {:trigger AckOk(a, nodes, h)} :: a in h.acks ==> AckOk(a, nodes, h)
  }

  /** What a node acknowledged before it voted was in its log when it voted. */
  ghost predicate RecallOk(a: Ack, b: Ballot, h: History)
    requires b in h.voted
  {
    && b in h.voteLog && a.term in h.llog && a.upTo <= |h.llog[a.term]|
    && Safe(h, a.term, a.upTo, h.voteLog[b], b.term + 1)
    && (b.term in h.won && b.node in h.won[b.term].voters ==>
          Safe(h, a.term, a.upTo, h.voteLog[b], b.term))
  }

  ghost predicate Recall(h: History) {
    forall a, b {:trigger RecallOk(a, b, h)} ::
      a in h.acks && b in h.voted && a.node == b.node && a.term < b.term ==> RecallOk(a, b, h)
  }

  /** The part of the invariant that does not look at the network. */
  ghost predicate Core(nodes: map<NodeId, Node>, h: History) {
    && ShapedNodes(nodes)
    && Nodes(nodes, h)
    && Stands(nodes, h)
    && Votes(nodes, h)
    && Wins(nodes, h)
    && Acks(nodes, h)
    && Recall(h)
  }

  ghost predicate Inv(c: Cluster, h: History) {
    Core(c.nodes, h) && Packets(c, h) && Uncounted(c, h)
  }

  /** A candidate that has counted a quorum is not left waiting. */
  ghost predicate Waiting(c: Cluster) {
    forall i :: i in c.nodes && c.nodes[i].role == Candidate ==>
      c.nodes[i].votes < Quorum(|c.nodes[i].peers|)
  }

  // ---------- monotonicity ----------

  /** `h'` remembers everything `h` does and leader logs only grew. */
  ghost predicate Extends(h: History, h': History) {
    && (forall b :: b in h.voted ==> b in h'.voted && h'.voted[b] == h.voted[b])
    && (forall b :: b in h.voteLog ==> b in h'.voteLog && h'.voteLog[b] == h.voteLog[b])
    && (forall b :: b in h.candLog ==> b in h'.candLog && h'.candLog[b] == h.candLog[b])
    && (forall t :: t in h.won ==> t in h'.won && h'.won[t] == h.won[t])
    && Grows(h.llog, h'.llog)
    && h.acks <= h'.acks
  }

  lemma ExtendsTransitive(a: History, b: History, c: History)
    requires Extends(a, b) && Extends(b, c)
    ensures Extends(a, c)
  {
    forall t | t in a.llog
      ensures t in c.llog && a.llog[t] <= c.llog[t]
    {
      assert a.llog[t] <= b.llog[t] <= c.llog[t];
    }
  }

  lemma SafeAtExtends(h: History, h': History, term: nat, k: nat, log: Log, bound: nat, bound': nat)
    requires Extends(h, h') && bound <= bound'
    requires term in h.llog && k <= |h.llog[term]| && SafeAt(h, term, k, log, bound)
    ensures term in h'.llog && k <= |h'.llog[term]| && SafeAt(h', term, k, log, bound')
  {
    assert h.llog[term] <= h'.llog[term];
    assert h'.llog[term][..k] == h.llog[term][..k];
    if !(h.llog[term][..k] <= log) {
      var u :| term < u < bound && u in h.won && !(h.llog[term][..k] <= h.won[u].start);
      assert u in h'.won && !(h'.llog[term][..k] <= h'.won[u].start);
    }
  }

  lemma SafeExtends(h: History, h': History, term: nat, m: nat, log: Log, bound: nat, bound': nat)
    requires Extends(h, h') && bound <= bound'
    requires term in h.llog && m <= |h.llog[term]| && Safe(h, term, m, log, bound)
    ensures term in h'.llog && m <= |h'.llog[term]| && Safe(h', term, m, log, bound')
  {
    assert h.llog[term] <= h'.llog[term];
    forall k | 0 <= k <= m
      ensures SafeAt(h', term, k, log, bound')
    {
      SafeAtExtends(h, h', term, k, log, bound, bound');
    }
  }

  /** Only the winners and their logs matter. */
  lemma SafeSame(h: History, h': History, term: nat, m: nat, log: Log, bound: nat)
    requires h'.llog == h.llog && h'.won == h.won
    requires term in h.llog && m <= |h.llog[term]| && Safe(h, term, m, log, bound)
    ensures Safe(h', term, m, log, bound)
  {
    forall k | 0 <= k <= m
      ensures SafeAt(h', term, k, log, bound)
    {
      assert SafeAt(h, term, k, log, bound);
    }
  }

  /** The acknowledgements do not depend on votes, candidates or tallies. */
  lemma AcksSame(nodes: map<NodeId, Node>, h: History, h': History)
    requires Acks(nodes, h) && h'.llog == h.llog && h'.won == h.won && h'.acks == h.acks
    ensures Acks(nodes, h')
  {
    forall a | a in h.acks
      ensures AckOk(a, nodes, h')
    {
      assert AckOk(a, nodes, h);
      SafeSame(h, h', a.term, a.upTo, nodes[a.node].log, nodes[a.node].term + 1);
    }
  }

  /** A log that starts with the first `m` entries is safe for all of them. */
  lemma SafeHolds(h: History, term: nat, m: nat, log: Log, bound: nat)
    requires term in h.llog && m <= |h.llog[term]| && h.llog[term][..m] <= log
    ensures Safe(h, term, m, log, bound)
  {
    forall k | 0 <= k <= m
      ensures SafeAt(h, term, k, log, bound)
    {
      assert h.llog[term][..k] <= h.llog[term][..m];
    }
  }

  /** Safety survives a longer log and a later bound. */
  lemma SafeLonger(h: History, term: nat, m: nat, log: Log, log': Log, bound: nat, bound': nat)
    requires term in h.llog && m <= |h.llog[term]| && Safe(h, term, m, log, bound) && log <= log' && bound <= bound'
    ensures Safe(h, term, m, log', bound')
  {
    forall k | 0 <= k <= m
      ensures SafeAt(h, term, k, log', bound')
    {
      assert SafeAt(h, term, k, log, bound);
    }
  }

  lemma PacketExtends(p: Packet, h: History, h': History)
    requires Extends(h, h') && PacketOk(p, h)
    requires p.msg.RequestVote? && Ballot(p.msg.term, p.dst) !in h.voted && Ballot(p.msg.term, p.dst) in h'.voted
             ==> h'.voted[Ballot(p.msg.term, p.dst)] != p.src
    ensures PacketOk(p, h')
  {
    if p.msg.AppendEntries? {
      assert h.llog[p.msg.term] <= h'.llog[p.msg.term];
    }
  }

  lemma InvInitially(c: Cluster)
    requires Initial(c)
    ensures Inv(c, EMPTY) && Waiting(c)
  {
  }
}
