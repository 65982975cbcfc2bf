/** Election Safety, Log Matching, quorum-backed commits, Leader Completeness and State Machine Safety,
    each for every run of a cluster from its initial state and stated without the history. */
module RaftTheorems {
  import opened Types
  import opened RaftSpec
  import opened RaftCluster
  import opened RaftHistory
  import opened RaftLogs
  import opened RaftInvariant
  import opened RaftRuns
  import opened RaftSafety

  /** The state of node `x` after the first `i` actions. */
  function At(c: Cluster, actions: seq<Action>, i: nat, x: NodeId): Node
    requires Shaped(c) && i <= |actions| && x in c.nodes
  {
    Run(c, actions[..i]).nodes[x]
  }

  lemma AtPrefix(c: Cluster, actions: seq<Action>, k: nat, i: nat, x: NodeId)
    requires Shaped(c) && i <= k <= |actions| && x in c.nodes
    ensures At(c, actions[..k], i, x) == At(c, actions, i, x)
  {
    assert actions[..k][..i] == actions[..i];
  }

  lemma AtEnd(c: Cluster, actions: seq<Action>, x: NodeId)
    requires Shaped(c) && x in c.nodes
    ensures At(c, actions, |actions|, x) == Run(c, actions).nodes[x]
  {
    assert actions[..|actions|] == actions;
  }

  /** Action `k` of the run makes its node report `entry` committed at `index`. */
  ghost predicate CommitsAt(c: Cluster, actions: seq<Action>, k: nat, index: nat, entry: Entry)
    requires Shaped(c)
  {
    k < |actions| && Commits(Run(c, actions[..k]), actions[k], index, entry)
  }

  // ---------- Election Safety ----------

  /** The record of a leader: it won its term, and its log is that term's leader log so far. */
  ghost predicate Leads(n: Node, h: History) {
    && n.term in h.won && h.won[n.term].leader == n.id
    && n.term in h.llog && n.log <= h.llog[n.term] && h.won[n.term].start <= n.log
  }

  lemma LeaderLeads(nodes: map<NodeId, Node>, h: History, n: Node)
    requires ShapedNodes(nodes) && Nodes(nodes, h) && Wins(nodes, h)
    requires n.id in nodes && nodes[n.id] == n && n.role == Leader
    ensures Leads(n, h)
  {
    assert NodeOk(n, h);
    assert WinOk(n.term, nodes, h);
  }

  lemma LeadsExtends(n: Node, h: History, h': History)
    requires Leads(n, h) && Extends(h, h')
    ensures Leads(n, h')
  {
    assert h.llog[n.term] <= h'.llog[n.term];
  }

  lemma LeaderWon(c: Cluster, actions: seq<Action>, i: nat, x: NodeId)
    requires Initial(c) && i <= |actions| && x in c.nodes && At(c, actions, i, x).role == Leader
    ensures At(c, actions, i, x).id == x && Leads(At(c, actions, i, x), Past(c, actions))
  {
    RunKeeps(c, actions[..i]);
    LeaderLeads(Run(c, actions[..i]).nodes, Past(c, actions[..i]), At(c, actions, i, x));
    PastExtends(c, actions, i);
    LeadsExtends(At(c, actions, i, x), Past(c, actions[..i]), Past(c, actions));
  }

  /** At most one node is ever leader in a given term, at whatever two moments of the run. */
  lemma ElectionSafety(c: Cluster, actions: seq<Action>, i: nat, j: nat, x: NodeId, y: NodeId)
    requires Initial(c) && i <= |actions| && j <= |actions| && x in c.nodes && y in c.nodes
    requires At(c, actions, i, x).role == Leader && At(c, actions, j, y).role == Leader
    requires At(c, actions, i, x).term == At(c, actions, j, y).term
    ensures x == y
  {
    LeaderWon(c, actions, i, x);
    LeaderWon(c, actions, j, y);
  }

  // ---------- Log Matching ----------

  lemma LogBacked(c: Cluster, actions: seq<Action>, i: nat, x: NodeId)
    requires Initial(c) && i <= |actions| && x in c.nodes
    ensures Backed(At(c, actions, i, x).log, Past(c, actions).llog)
  {
    RunKeeps(c, actions[..i]);
    assert NodeOk(At(c, actions, i, x), Past(c, actions[..i]));
    PastExtends(c, actions, i);
    BackedGrows(At(c, actions, i, x).log, Past(c, actions[..i]).llog, Past(c, actions).llog);
  }

  /** Two logs, at whatever two moments, that have the same term at an index agree up to that index. */
  lemma LogMatching(c: Cluster, actions: seq<Action>, i: nat, j: nat, x: NodeId, y: NodeId, k: nat)
    requires Initial(c) && i <= |actions| && j <= |actions| && x in c.nodes && y in c.nodes
    requires k < |At(c, actions, i, x).log| && k < |At(c, actions, j, y).log|
    requires At(c, actions, i, x).log[k].term == At(c, actions, j, y).log[k].term
    ensures At(c, actions, i, x).log[..k + 1] == At(c, actions, j, y).log[..k + 1]
  {
    LogBacked(c, actions, i, x);
    LogBacked(c, actions, j, y);
    BackedMatch(At(c, actions, i, x).log, At(c, actions, j, y).log, k, Past(c, actions).llog);
  }

  lemma SliceMatches(log: Log, lead: Log, prev: nat, entries: seq<Entry>, k: nat, llog: map<nat, Log>)
    requires Backed(log, llog) && Backed(lead, llog) && SliceOf(lead, prev, entries)
    requires k < |entries| && prev + k < |log| && log[prev + k].term == entries[k].term
    ensures log[prev..prev + k + 1] == entries[..k + 1]
    ensures prev > 0 ==> log[prev - 1] == lead[prev - 1]
  {
    BackedMatch(log, lead, prev + k, llog);
    assert log[..prev + k + 1][prev..] == lead[..prev + k + 1][prev..];
    assert prev > 0 ==> log[..prev + k + 1][prev - 1] == lead[..prev + k + 1][prev - 1];
  }

  lemma PacketMatches(c: Cluster, h: History, p: Packet, x: NodeId)
    requires Inv(c, h) && x in c.nodes && p in c.net && p.msg.AppendEntries?
    ensures p.msg.term in h.llog && Backed(c.nodes[x].log, h.llog) && Backed(h.llog[p.msg.term], h.llog)
    ensures SliceOf(h.llog[p.msg.term], p.msg.prevLogIndex, p.msg.entries)
    ensures p.msg.prevLogIndex > 0 ==> h.llog[p.msg.term][p.msg.prevLogIndex - 1].term == p.msg.prevLogTerm
  {
    assert PacketOk(p, h) && NodeOk(c.nodes[x], h) && WinOk(p.msg.term, c.nodes, h);
  }

  lemma LeaderLogFits(c: Cluster, h: History, p: Packet)
    requires Wins(c.nodes, h) && PacketOk(p, h) && p.msg.AppendEntries?
    ensures |h.llog[p.msg.term]| <= LOG_CAPACITY
  {
    assert WinOk(p.msg.term, c.nodes, h);
  }

  /** The batch is a slice of its leader's log, and that log and `log` have the history in common. */
  ghost predicate Grounded(log: Log, ae: Message, h: History) {
    && ae.AppendEntries? && ae.term in h.llog && |h.llog[ae.term]| <= LOG_CAPACITY
    && Backed(log, h.llog) && Backed(h.llog[ae.term], h.llog)
    && SliceOf(h.llog[ae.term], ae.prevLogIndex, ae.entries)
    && (ae.prevLogIndex > 0 ==> h.llog[ae.term][ae.prevLogIndex - 1].term == ae.prevLogTerm)
  }

  lemma BatchGround(c: Cluster, h: History, p: Packet, x: NodeId)
    requires Inv(c, h) && x in c.nodes && p in c.net && p.msg.AppendEntries?
    ensures Grounded(c.nodes[x].log, p.msg, h)
  {
    PacketMatches(c, h, p, x);
    LeaderLogFits(c, h, p);
  }

  /** The batch is a slice of its leader's log, in the history `h`. */
  ghost predicate InHistory(ae: Message, h: History) {
    && ae.AppendEntries? && ae.term in h.llog && Backed(h.llog[ae.term], h.llog)
    && SliceOf(h.llog[ae.term], ae.prevLogIndex, ae.entries)
    && (ae.prevLogIndex > 0 ==> h.llog[ae.term][ae.prevLogIndex - 1].term == ae.prevLogTerm)
  }

  lemma SliceGrows(lead: Log, lead': Log, prev: nat, entries: seq<Entry>)
    requires SliceOf(lead, prev, entries) && lead <= lead'
    ensures SliceOf(lead', prev, entries) && (prev > 0 ==> lead'[prev - 1] == lead[prev - 1])
  {
  }

  lemma PacketInHistory(h: History, h': History, p: Packet)
    requires PacketOk(p, h) && p.msg.AppendEntries? && Grows(h.llog, h'.llog)
    requires p.msg.term in h'.llog && Backed(h'.llog[p.msg.term], h'.llog)
    ensures InHistory(p.msg, h')
  {
    SliceGrows(h.llog[p.msg.term], h'.llog[p.msg.term], p.msg.prevLogIndex, p.msg.entries);
  }

  lemma PacketOfState(c: Cluster, h: History, p: Packet)
    requires Packets(c, h) && p in c.net
    ensures PacketOk(p, h)
  {
  }

  lemma LeaderLogBacked(nodes: map<NodeId, Node>, h: History, h': History, p: Packet)
    requires PacketOk(p, h) && p.msg.AppendEntries? && Extends(h, h') && Wins(nodes, h')
    ensures p.msg.term in h'.llog && Backed(h'.llog[p.msg.term], h'.llog)
  {
    assert WinOk(p.msg.term, nodes, h');
  }

  /** A batch in flight at some moment of a run, in the history of the whole run. */
  lemma BatchInHistory(c: Cluster, actions: seq<Action>, i: nat, p: Packet)
    requires Initial(c) && i <= |actions| && p in Run(c, actions[..i]).net && p.msg.AppendEntries?
    ensures InHistory(p.msg, Past(c, actions))
  {
    RunKeeps(c, actions[..i]);
    RunKeeps(c, actions);
    PastExtends(c, actions, i);
    PacketOfState(Run(c, actions[..i]), Past(c, actions[..i]), p);
    LeaderLogBacked(Run(c, actions).nodes, Past(c, actions[..i]), Past(c, actions), p);
    PacketInHistory(Past(c, actions[..i]), Past(c, actions), p);
  }

  /** The log has an entry of the same term where the batch has its position `k`. */
  predicate SameTermAt(log: Log, ae: Message, k: nat) {
    && ae.AppendEntries? && k < |ae.entries| && ae.prevLogIndex + k < |log|
    && log[ae.prevLogIndex + k].term == ae.entries[k].term
  }

  /** From the batch's position `k` on back, log and batch agree. */
  ghost predicate MatchesBack(log: Log, ae: Message, k: nat)
    requires SameTermAt(log, ae, k)
  {
    && log[ae.prevLogIndex..ae.prevLogIndex + k + 1] == ae.entries[..k + 1]
    && (ae.prevLogIndex > 0 ==> log[ae.prevLogIndex - 1].term == ae.prevLogTerm)
  }

  lemma LogMatchesBatch(log: Log, ae: Message, h: History, k: nat)
    requires Backed(log, h.llog) && InHistory(ae, h) && SameTermAt(log, ae, k)
    ensures MatchesBack(log, ae, k)
  {
    SliceMatches(log, h.llog[ae.term], ae.prevLogIndex, ae.entries, k, h.llog);
  }

  /** The same for a log and a batch, each at some moment of the run: a common term at one of the batch's indices
      makes the log hold the batch up to there, and its predecessor. */
  lemma BatchMatching(c: Cluster, actions: seq<Action>, i: nat, p: Packet, j: nat, x: NodeId, k: nat)
    requires Initial(c) && i <= |actions| && p in Run(c, actions[..i]).net && p.msg.AppendEntries?
    requires j <= |actions| && x in c.nodes
    requires SameTermAt(At(c, actions, j, x).log, p.msg, k)
    ensures MatchesBack(At(c, actions, j, x).log, p.msg, k)
  {
    BatchInHistory(c, actions, i, p);
    LogBacked(c, actions, j, x);
    LogMatchesBatch(At(c, actions, j, x).log, p.msg, Past(c, actions), k);
  }

  /** Log index `m` of the protocol, counted from 0, lies in the batch. */
  predicate InBatch(ae: Message, m: nat) {
    ae.AppendEntries? && ae.prevLogIndex <= m < ae.prevLogIndex + |ae.entries|
  }

  function EntryAt(ae: Message, m: nat): Entry
    requires InBatch(ae, m)
  {
    ae.entries[m - ae.prevLogIndex]
  }

  /** Up to index `m` two batches have the same entries where both have one, and where one of them has its predecessor
      the other has an entry or a predecessor of that term. */
  ghost predicate BatchesMatch(a: Message, b: Message, m: nat)
    requires InBatch(a, m) && InBatch(b, m)
  {
    && (forall k: nat :: k <= m && InBatch(a, k) && InBatch(b, k) ==> EntryAt(a, k) == EntryAt(b, k))
    && (a.prevLogIndex > 0 && InBatch(b, a.prevLogIndex - 1) ==> EntryAt(b, a.prevLogIndex - 1).term == a.prevLogTerm)
    && (b.prevLogIndex > 0 && InBatch(a, b.prevLogIndex - 1) ==> EntryAt(a, b.prevLogIndex - 1).term == b.prevLogTerm)
    && (a.prevLogIndex == b.prevLogIndex > 0 ==> a.prevLogTerm == b.prevLogTerm)
  }

  lemma InSlice(lead: Log, ae: Message, m: nat)
    requires InBatch(ae, m) && SliceOf(lead, ae.prevLogIndex, ae.entries)
    ensures m < |lead| && EntryAt(ae, m) == lead[m]
  {
  }

  lemma SlicesMatch(a: Message, b: Message, h: History, m: nat)
    requires InHistory(a, h) && InHistory(b, h) && InBatch(a, m) && InBatch(b, m)
    requires EntryAt(a, m).term == EntryAt(b, m).term
    ensures BatchesMatch(a, b, m)
  {
    var x, y := h.llog[a.term], h.llog[b.term];
    InSlice(x, a, m);
    InSlice(y, b, m);
    BackedMatch(x, y, m, h.llog);
    SameUpTo(x, y, a, b, m);
  }

  lemma SameUpTo(x: Log, y: Log, a: Message, b: Message, m: nat)
    requires InBatch(a, m) && InBatch(b, m) && SliceOf(x, a.prevLogIndex, a.entries)
    requires SliceOf(y, b.prevLogIndex, b.entries)
    requires m < |x| && m < |y| && x[..m + 1] == y[..m + 1]
    requires a.prevLogIndex > 0 ==> x[a.prevLogIndex - 1].term == a.prevLogTerm
    requires b.prevLogIndex > 0 ==> y[b.prevLogIndex - 1].term == b.prevLogTerm
    ensures BatchesMatch(a, b, m)
  {
    forall k | 0 <= k <= m
      ensures x[k] == y[k]
    {
      assert x[..m + 1][k] == y[..m + 1][k];
    }
    forall k: nat | k <= m && InBatch(a, k) && InBatch(b, k)
      ensures EntryAt(a, k) == EntryAt(b, k)
    {
      InSlice(x, a, k);
      InSlice(y, b, k);
    }
  }

  /** The same for two batches, each in flight at some moment of the run. */
  lemma TwoBatchesMatch(c: Cluster, actions: seq<Action>, i: nat, p: Packet, j: nat, q: Packet, m: nat)
    requires Initial(c) && i <= |actions| && j <= |actions|
    requires p in Run(c, actions[..i]).net && q in Run(c, actions[..j]).net
    requires InBatch(p.msg, m) && InBatch(q.msg, m) && EntryAt(p.msg, m).term == EntryAt(q.msg, m).term
    ensures BatchesMatch(p.msg, q.msg, m)
  {
    BatchInHistory(c, actions, i, p);
    BatchInHistory(c, actions, j, q);
    SlicesMatch(p.msg, q.msg, Past(c, actions), m);
  }

  // ---------- acknowledged batches are stored ----------

  lemma OverlayStores(log: Log, lead: Log, ae: Message, llog: map<nat, Log>)
    requires ae.AppendEntries? && Backed(log, llog) && Backed(lead, llog) && |lead| <= LOG_CAPACITY
    requires SliceOf(lead, ae.prevLogIndex, ae.entries) && PrevMatches(log, ae)
    requires ae.prevLogIndex > 0 ==> lead[ae.prevLogIndex - 1].term == ae.prevLogTerm
    ensures var end := ae.prevLogIndex + |ae.entries|;
            var log' := Overlay(log, ae.prevLogIndex, ae.entries);
      end <= |log'| && log'[..end] == lead[..end] && log'[ae.prevLogIndex..end] == ae.entries
  {
    OverlayOfLeader(log, lead, ae.prevLogIndex, ae.entries, llog);
    var end := ae.prevLogIndex + |ae.entries|;
    var log' := Overlay(log, ae.prevLogIndex, ae.entries);
    assert log'[..end] == lead[..end];
    assert log'[..end][ae.prevLogIndex..] == lead[..end][ae.prevLogIndex..];
  }

  /** Handling the batch reports a match up to its end, the batch is in the log at its place, and the log
      agrees with the leader's up to the batch's end. */
  ghost predicate Stores(n: Node, from: NodeId, ae: Message, lead: Log)
    requires Sized(n) && ae.AppendEntries?
  {
    var end := ae.prevLogIndex + |ae.entries|;
    var o := Step(n, from, ae);
    && o.sent == [Send(from, AppendEntriesReply(ae.term, true, end))]
    && end <= |o.node.log| && end <= |lead|
    && o.node.log[ae.prevLogIndex..end] == ae.entries
    && o.node.log[..end] == lead[..end]
  }

  /** In every run, a follower that accepts a batch ends up with the whole batch at its place: no entry is lost
      to the capacity of the log, so the match index it reports is true. */
  lemma AcceptedBatchIsStored(c: Cluster, actions: seq<Action>, p: Packet)
    requires Initial(c) && p in Run(c, actions).net && p.msg.AppendEntries? && p.dst in c.nodes
    requires p.msg.term >= Run(c, actions).nodes[p.dst].term && PrevMatches(Run(c, actions).nodes[p.dst].log, p.msg)
    ensures p.msg.term in Past(c, actions).llog
    ensures Stores(Run(c, actions).nodes[p.dst], p.src, p.msg, Past(c, actions).llog[p.msg.term])
  {
    RunKeeps(c, actions);
    BatchGround(Run(c, actions), Past(c, actions), p, p.dst);
    StepStores(Run(c, actions).nodes[p.dst], p.src, p.msg, Past(c, actions));
  }

  lemma StepStores(n: Node, from: NodeId, ae: Message, h: History)
    requires Sized(n) && ae.AppendEntries? && ae.term >= n.term && PrevMatches(n.log, ae) && Grounded(n.log, ae, h)
    ensures Stores(n, from, ae, h.llog[ae.term])
  {
    OverlayStores(n.log, h.llog[ae.term], ae, h.llog);
    StepOverlays(n, from, ae);
  }

  lemma StepOverlays(n: Node, from: NodeId, ae: Message)
    requires Sized(n) && ae.AppendEntries? && ae.term >= n.term && PrevMatches(n.log, ae)
    ensures var o := Step(n, from, ae);
      && o.node.log == Overlay(n.log, ae.prevLogIndex, ae.entries)
      && o.sent == [Send(from, AppendEntriesReply(ae.term, true, ae.prevLogIndex + |ae.entries|))]
  {
  }

  // ---------- quorum-backed commits ----------

  lemma ChosenExtends(nodes: map<NodeId, Node>, h: History, nodes': map<NodeId, Node>, h': History,
                      term: nat, index: nat, quorum: set<NodeId>)
    requires Chosen(nodes, h, term, index, quorum) && Extends(h, h') && nodes'.Keys == nodes.Keys
    ensures Chosen(nodes', h', term, index, quorum)
  {
    assert h.llog[term] <= h'.llog[term];
    assert |nodes'.Keys| == |nodes'| && |nodes.Keys| == |nodes|;
    forall f | f in quorum
      ensures exists a :: a in h'.acks && a.term == term && a.node == f && a.upTo >= index
    {
      var a :| a in h.acks && a.term == term && a.node == f && a.upTo >= index;
      assert a in h'.acks;
    }
  }

  /** The node that reports a commit, right after it did. */
  function Committer(c: Cluster, actions: seq<Action>, k: nat): Node
    requires Shaped(c) && k < |actions| && Actor(actions[k]) in c.nodes
  {
    At(c, actions, k + 1, Actor(actions[k]))
  }

  lemma CommitterIsEffect(c: Cluster, actions: seq<Action>, k: nat, index: nat, entry: Entry)
    requires Shaped(c) && CommitsAt(c, actions, k, index, entry)
    ensures Actor(actions[k]) in c.nodes
    ensures Committer(c, actions, k) == Effect(Run(c, actions[..k]), actions[k]).node
  {
    RunStep(c, actions, k);
  }

  /** A reported commit is the leader's, of its own term, and a majority acknowledged everything up to it. */
  lemma CommitIsChosen(c: Cluster, actions: seq<Action>, k: nat, index: nat, entry: Entry)
    requires Initial(c) && CommitsAt(c, actions, k, index, entry)
    ensures Actor(actions[k]) in c.nodes
    ensures var n := Committer(c, actions, k);
      && n.id == Actor(actions[k]) && n.role == Leader && entry.term == n.term && Sized(n)
      && 1 <= index <= |n.log| && n.log[index - 1] == entry
      && Chosen(Run(c, actions[..k + 1]).nodes, Past(c, actions[..k + 1]), n.term, index, Backers(n, index))
  {
    CommitterIsEffect(c, actions, k, index, entry);
    CommitIsCommittable(Run(c, actions[..k]), actions[k], index, entry);
    var s := Run(c, actions[..k + 1]);
    var h := Past(c, actions[..k + 1]);
    RunKeeps(c, actions[..k + 1]);
    assert NodeOk(Committer(c, actions, k), h) && WinOk(Committer(c, actions, k).term, s.nodes, h);
    BackersChoose(s.nodes, h, Committer(c, actions, k), index);
  }

  lemma NewAckOfBatch(h: History, n: Node, p: Packet, a: Ack)
    requires Sized(n) && p.dst == n.id && p.msg.AppendEntries?
    requires a in RecordStep(h, n, OnAppendEntries(n, p.src, p.msg).node, p).acks && a !in h.acks
    ensures a.node == n.id && a.term == OnAppendEntries(n, p.src, p.msg).node.term
  {
    assert OnAppendEntries(n, p.src, p.msg).node.term == p.msg.term;
  }

  lemma NewAckOfVote(h: History, n: Node, p: Packet, a: Ack)
    requires Sized(n) && p.dst == n.id && p.msg.RequestVoteReply?
    requires a in RecordStep(h, n, OnVoteReply(n, p.msg).node, p).acks && a !in h.acks
    ensures a.node == n.id && a.term == OnVoteReply(n, p.msg).node.term
  {
    assert OnVoteReply(n, p.msg).node.term == n.term;
  }

  lemma NewAckOfStep(h: History, n: Node, p: Packet, a: Ack)
    requires Sized(n) && p.dst == n.id
    requires a in RecordStep(h, n, Step(n, p.src, p.msg).node, p).acks && a !in h.acks
    ensures a.node == n.id && a.term == Step(n, p.src, p.msg).node.term
  {
    if p.msg.AppendEntries? {
      NewAckOfBatch(h, n, p, a);
    } else {
      assert p.msg.RequestVoteReply?;
      NewAckOfVote(h, n, p, a);
    }
  }

  lemma NewAckIsCurrent(c: Cluster, h: History, act: Action, a: Ack)
    requires Shaped(c) && a in Record(h, c, act).acks && a !in h.acks
    ensures Enabled(c, act) && !act.Drop? && a.node == Actor(act) && a.term == Effect(c, act).node.term
  {
    match act
    case Elect(i) =>
    case Submit(i, src, dst) =>
    case Deliver(p) => NewAckOfStep(h, c.nodes[p.dst], p, a);
    case Drop(_) =>
  }

  lemma CurrentAckHeld(nodes: map<NodeId, Node>, h: History, a: Ack)
    requires ShapedNodes(nodes) && Acks(nodes, h) && a in h.acks && a.node in nodes && a.term == nodes[a.node].term
    ensures HeldBy(nodes[a.node], h, a)
  {
    assert AckOk(a, nodes, h);
    assert SafeAt(h, a.term, a.upTo, nodes[a.node].log, nodes[a.node].term + 1);
  }

  /** The node is in the term of the acknowledgement and its log holds everything acknowledged. */
  ghost predicate HeldBy(n: Node, h: History, a: Ack) {
    && n.id == a.node && n.term == a.term
    && a.term in h.llog && a.upTo <= |h.llog[a.term]| && h.llog[a.term][..a.upTo] <= n.log
  }

  lemma HeldByExtends(n: Node, h: History, h': History, a: Ack)
    requires HeldBy(n, h, a) && Extends(h, h')
    ensures HeldBy(n, h', a)
  {
    assert h.llog[a.term] <= h'.llog[a.term];
    assert h.llog[a.term][..a.upTo] == h'.llog[a.term][..a.upTo];
  }

  lemma LastAckHappened(c: Cluster, actions: seq<Action>, a: Ack)
    requires Initial(c) && |actions| > 0
    requires a in Past(c, actions).acks && a !in Past(c, actions[..|actions| - 1]).acks
    ensures a.node in c.nodes && HeldBy(Run(c, actions).nodes[a.node], Past(c, actions), a)
  {
    var earlier := actions[..|actions| - 1];
    NewAckIsCurrent(Run(c, earlier), Past(c, earlier), actions[|actions| - 1], a);
    RunKeeps(c, actions);
    CurrentAckHeld(Run(c, actions).nodes, Past(c, actions), a);
  }

  lemma HeldLater(c: Cluster, actions: seq<Action>, k: nat, i: nat, a: Ack)
    requires Initial(c) && i <= k <= |actions| && a.node in c.nodes
    requires HeldBy(At(c, actions[..k], i, a.node), Past(c, actions[..k]), a)
    ensures HeldBy(At(c, actions, i, a.node), Past(c, actions), a)
  {
    AtPrefix(c, actions, k, i, a.node);
    PastExtends(c, actions, k);
    HeldByExtends(At(c, actions, i, a.node), Past(c, actions[..k]), Past(c, actions), a);
  }

  lemma LastAckHeld(c: Cluster, actions: seq<Action>, a: Ack)
    requires Initial(c) && |actions| > 0
    requires a in Past(c, actions).acks && a !in Past(c, actions[..|actions| - 1]).acks
    ensures a.node in c.nodes && HeldBy(At(c, actions, |actions|, a.node), Past(c, actions), a)
  {
    LastAckHappened(c, actions, a);
    AtEnd(c, actions, a.node);
  }

  /** Every acknowledgement was given at some moment, by a node in that very term whose log then held
      everything it acknowledged. */
  lemma {:induction false} AckHappened(c: Cluster, actions: seq<Action>, a: Ack) returns (i: nat)
    requires Initial(c) && a in Past(c, actions).acks
    ensures i <= |actions| && a.node in c.nodes && HeldBy(At(c, actions, i, a.node), Past(c, actions), a)
  {
    var last := |actions| - 1;
    if a in Past(c, actions[..last]).acks {
      i := AckHappened(c, actions[..last], a);
      HeldLater(c, actions, last, i, a);
    } else {
      i := |actions|;
      LastAckHeld(c, actions, a);
    }
  }

  /** Node `f` was, at some moment of the run before action `k` was over, in `term` with `prefix` in its log. */
  ghost predicate HeldAtSomeTime(c: Cluster, actions: seq<Action>, k: nat, f: NodeId, term: nat, prefix: Log)
    requires Shaped(c)
  {
    exists i :: 0 <= i <= k + 1 <= |actions| && f in c.nodes
                && At(c, actions, i, f).term == term && prefix <= At(c, actions, i, f).log
  }

  lemma BackerHeld(c: Cluster, actions: seq<Action>, k: nat, n: Node, index: nat, quorum: set<NodeId>, f: NodeId)
    requires Initial(c) && k < |actions| && f in quorum
    requires n.term in Past(c, actions[..k + 1]).llog && Past(c, actions[..k + 1]).llog[n.term] == n.log
    requires Chosen(Run(c, actions[..k + 1]).nodes, Past(c, actions[..k + 1]), n.term, index, quorum)
    ensures index <= |n.log| && HeldAtSomeTime(c, actions, k, f, n.term, n.log[..index])
  {
    var so := actions[..k + 1];
    var a :| a in Past(c, so).acks && a.term == n.term && a.node == f && a.upTo >= index;
    AckGivesHeld(c, actions, k, n, index, a);
  }

  lemma AckGivesHeld(c: Cluster, actions: seq<Action>, k: nat, n: Node, index: nat, a: Ack)
    requires Initial(c) && k < |actions| && index <= |n.log|
    requires n.term in Past(c, actions[..k + 1]).llog && Past(c, actions[..k + 1]).llog[n.term] == n.log
    requires a in Past(c, actions[..k + 1]).acks && a.term == n.term && a.upTo >= index
    ensures HeldAtSomeTime(c, actions, k, a.node, n.term, n.log[..index])
  {
    var i := AckHappened(c, actions[..k + 1], a);
    AtPrefix(c, actions, k + 1, i, a.node);
    HeldPrefix(At(c, actions, i, a.node), Past(c, actions[..k + 1]), a, index);
  }

  lemma HeldPrefix(n: Node, h: History, a: Ack, index: nat)
    requires HeldBy(n, h, a) && index <= a.upTo
    ensures h.llog[a.term][..index] <= n.log
  {
    assert h.llog[a.term][..index] <= h.llog[a.term][..a.upTo];
  }

  /** Quorum-backed commit: whenever a node reports the entry at `index` committed, it is the leader, the entry
      is of its current term, and a strict majority - the leader and distinct peers that its `matchIndex`
      counts - were each at some moment in that term with logs that agree with the leader's through `index`. */
  lemma CommitIsQuorumBacked(c: Cluster, actions: seq<Action>, k: nat, index: nat, entry: Entry)
    requires Initial(c) && CommitsAt(c, actions, k, index, entry)
    ensures Actor(actions[k]) in c.nodes
    ensures var n := Committer(c, actions, k);
      && n.role == Leader && entry.term == n.term && Sized(n)
      && 1 <= index <= |n.log| && n.log[index - 1] == entry
      && Backers(n, index) <= c.nodes.Keys && 2 * |Backers(n, index)| > |c.nodes|
      && forall f :: f in Backers(n, index) ==> HeldAtSomeTime(c, actions, k, f, n.term, n.log[..index])
  {
    CommitIsChosen(c, actions, k, index, entry);
    var n := Committer(c, actions, k);
    var h := Past(c, actions[..k + 1]);
    assert |Run(c, actions[..k + 1]).nodes.Keys| == |c.nodes.Keys|;
    CommitterLog(c, actions, k, n);
    forall f | f in Backers(n, index)
      ensures HeldAtSomeTime(c, actions, k, f, n.term, n.log[..index])
    {
      BackerHeld(c, actions, k, n, index, Backers(n, index), f);
    }
  }

  lemma CommitterLog(c: Cluster, actions: seq<Action>, k: nat, n: Node)
    requires Initial(c) && k < |actions| && n.id in c.nodes && n == At(c, actions, k + 1, n.id) && n.role == Leader
    ensures n.term in Past(c, actions[..k + 1]).llog && Past(c, actions[..k + 1]).llog[n.term] == n.log
  {
    RunKeeps(c, actions[..k + 1]);
    assert NodeOk(n, Past(c, actions[..k + 1]));
  }

  // ---------- Leader Completeness ----------

  /** The chosen prefix of leader `n` lies in the log of every leader `m` of a later term. */
  lemma ChosenInLaterLeader(nodes: map<NodeId, Node>, h: History, n: Node, index: nat, quorum: set<NodeId>, m: Node)
    requires Stands(nodes, h) && Votes(nodes, h) && Wins(nodes, h) && Recall(h)
    requires Chosen(nodes, h, n.term, index, quorum) && index <= |n.log| && n.log <= h.llog[n.term]
    requires Leads(m, h) && n.term < m.term
    ensures n.log[..index] <= m.log
  {
    LaterWinnersStartWithIt(nodes, h, n.term, index, quorum, m.term);
    PrefixChain(n.log, h.llog[n.term], index, h.won[m.term].start, m.log);
  }

  lemma PrefixChain(a: Log, b: Log, index: nat, x: Log, y: Log)
    requires index <= |a| && a <= b && b[..index] <= x && x <= y
    ensures a[..index] <= y
  {
    assert a[..index] == b[..index];
  }

  lemma ChosenForGood(c: Cluster, actions: seq<Action>, k: nat, index: nat, entry: Entry)
    requires Initial(c) && CommitsAt(c, actions, k, index, entry)
    ensures Actor(actions[k]) in c.nodes
    ensures var n := Committer(c, actions, k);
      && Sized(n) && n.role == Leader && 1 <= index <= |n.log| && n.log[index - 1] == entry
      && Chosen(Run(c, actions).nodes, Past(c, actions), n.term, index, Backers(n, index))
  {
    CommitIsChosen(c, actions, k, index, entry);
    var n := Committer(c, actions, k);
    PastExtends(c, actions, k + 1);
    ChosenExtends(Run(c, actions[..k + 1]).nodes, Past(c, actions[..k + 1]), Run(c, actions).nodes, Past(c, actions),
                  n.term, index, Backers(n, index));
  }

  lemma RunCompleteness(c: Cluster, actions: seq<Action>, n: Node, index: nat, quorum: set<NodeId>, m: Node)
    requires Initial(c) && Leads(n, Past(c, actions)) && Leads(m, Past(c, actions)) && index <= |n.log|
    requires n.term < m.term
    requires Chosen(Run(c, actions).nodes, Past(c, actions), n.term, index, quorum)
    ensures n.log[..index] <= m.log
  {
    RunKeeps(c, actions);
    ChosenInLaterLeader(Run(c, actions).nodes, Past(c, actions), n, index, quorum, m);
  }

  /** What leader `n` had chosen, every leader `m` of the same or a later term that reaches that far holds. */
  lemma ChosenPrefixHeld(c: Cluster, actions: seq<Action>, n: Node, index: nat, quorum: set<NodeId>, m: Node)
    requires Initial(c) && Leads(n, Past(c, actions)) && Leads(m, Past(c, actions))
    requires Chosen(Run(c, actions).nodes, Past(c, actions), n.term, index, quorum)
    requires index <= |n.log| && (n.term < m.term || (n.term == m.term && index <= |m.log|))
    ensures index <= |m.log| && n.log[..index] == m.log[..index] && n.log[index - 1] == m.log[index - 1]
  {
    if n.term < m.term {
      RunCompleteness(c, actions, n, index, quorum, m);
      PrefixAgrees(n.log, m.log, index);
    } else {
      SharedPrefix(n.log, m.log, Past(c, actions).llog[n.term], index);
    }
  }

  lemma SharedPrefix(a: Log, b: Log, whole: Log, index: nat)
    requires 1 <= index <= |a| && index <= |b| && a <= whole && b <= whole
    ensures a[..index] == b[..index] && a[index - 1] == b[index - 1]
  {
  }

  lemma PrefixAgrees(a: Log, b: Log, index: nat)
    requires 1 <= index <= |a| && a[..index] <= b
    ensures index <= |b| && a[..index] == b[..index] && a[index - 1] == b[index - 1]
  {
    assert a[..index][index - 1] == a[index - 1];
  }

  /** The committing leader's record in the history of the whole run. */
  lemma CommitRecorded(c: Cluster, actions: seq<Action>, k: nat, index: nat, entry: Entry)
    requires Initial(c) && CommitsAt(c, actions, k, index, entry)
    ensures Actor(actions[k]) in c.nodes
    ensures var n := Committer(c, actions, k);
      && Leads(n, Past(c, actions)) && 1 <= index <= |n.log| && n.log[index - 1] == entry && Sized(n)
      && Chosen(Run(c, actions).nodes, Past(c, actions), n.term, index, Backers(n, index))
  {
    ChosenForGood(c, actions, k, index, entry);
    LeaderWon(c, actions, k + 1, Actor(actions[k]));
  }

  /** Leader Completeness: once a node reports the entry at `index` committed, every leader of a later term,
      at whatever moment of the run, holds that entry, and the committer's whole log before it. */
  lemma LeaderCompleteness(c: Cluster, actions: seq<Action>, k: nat, index: nat, entry: Entry, j: nat, y: NodeId)
    requires Initial(c) && CommitsAt(c, actions, k, index, entry)
    requires j <= |actions| && y in c.nodes && At(c, actions, j, y).role == Leader
    requires Actor(actions[k]) in c.nodes && At(c, actions, j, y).term > Committer(c, actions, k).term
    ensures 1 <= index <= |At(c, actions, j, y).log| && At(c, actions, j, y).log[index - 1] == entry
    ensures index <= |Committer(c, actions, k).log|
    ensures Committer(c, actions, k).log[..index] == At(c, actions, j, y).log[..index]
  {
    var n := Committer(c, actions, k);
    CommitRecorded(c, actions, k, index, entry);
    LeaderWon(c, actions, j, y);
    ChosenPrefixHeld(c, actions, n, index, Backers(n, index), At(c, actions, j, y));
  }

  /** State Machine Safety for reported commits: whoever reports them and whenever, two entries committed at
      the same index are the same, and so is everything before them. */
  lemma StateMachineSafety(c: Cluster, actions: seq<Action>, k: nat, l: nat, index: nat, e: Entry, f: Entry)
    requires Initial(c) && CommitsAt(c, actions, k, index, e) && CommitsAt(c, actions, l, index, f)
    ensures e == f
    ensures Actor(actions[k]) in c.nodes && Actor(actions[l]) in c.nodes
    ensures index <= |Committer(c, actions, k).log| && index <= |Committer(c, actions, l).log|
    ensures Committer(c, actions, k).log[..index] == Committer(c, actions, l).log[..index]
  {
    CommitRecorded(c, actions, k, index, e);
    CommitRecorded(c, actions, l, index, f);
    var m := Committer(c, actions, k);
    var n := Committer(c, actions, l);
    if m.term <= n.term {
      ChosenPrefixHeld(c, actions, m, index, Backers(m, index), n);
    } else {
      ChosenPrefixHeld(c, actions, n, index, Backers(n, index), m);
    }
  }
}
