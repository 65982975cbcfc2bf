/** Clusters of at most two nodes, where a leader needs both votes: both logs always follow the latest leader's, so
    every batch can be trusted with a commit index. */
module RaftPair {
  import opened Types
  import opened RaftSpec
  import opened RaftCluster
  import opened RaftHistory
  import opened RaftLogs
  import opened RaftInvariant
  import opened RaftFrame
  import opened RaftMoves
  import opened RaftLead
  import opened RaftDeliveries
  import opened RaftRuns
  import opened RaftSafety
  import opened RaftTheorems
  import opened RaftCommitRule
  import opened RaftFollowers

  /** `t` is the latest term that anybody has won. */
  ghost predicate Latest(h: History, t: nat) {
    t in h.won && forall u :: u in h.won ==> u <= t
  }

  /** The log is a prefix of the latest leader's, or empty when nobody has won yet. */
  ghost predicate Following(log: Log, h: History) {
    && (h.won.Keys == {} ==> log == [])
    && (forall t :: Latest(h, t) ==> t in h.llog && log <= h.llog[t])
  }

  /** A vote in a term after all that were won was cast with the log the voter still has. */
  ghost predicate VoteFresh(b: Ballot, nodes: map<NodeId, Node>, h: History)
    requires b in h.voted
  {
    (forall u :: u in h.won ==> u < b.term) ==> b in h.voteLog && b.node in nodes && h.voteLog[b] == nodes[b.node].log
  }

  ghost predicate Paired(nodes: map<NodeId, Node>, h: History) {
    && |nodes| == 2
    && (forall x :: x in nodes ==> Following(nodes[x].log, h))
    && (forall b :: b in h.voted ==> VoteFresh(b, nodes, h))
  }

  // ---------- both nodes have seen every term that was won ----------

  lemma AllOfTwo(a: set<NodeId>, all: set<NodeId>)
    requires a <= all && |all| == 2 && 2 * |a| > 2
    ensures a == all
  {
    assert all == a + (all - a);
  }

  lemma BothVoted(nodes: map<NodeId, Node>, h: History, t: nat, x: NodeId)
    requires |nodes| == 2 && Wins(nodes, h) && t in h.won && x in nodes
    ensures Ballot(t, x) in h.voted && h.voted[Ballot(t, x)] == h.won[t].leader
  {
    assert WinOk(t, nodes, h);
    assert |nodes.Keys| == 2;
    AllOfTwo(h.won[t].voters, nodes.Keys);
  }

  lemma SeenAllWins(nodes: map<NodeId, Node>, h: History, t: nat, x: NodeId)
    requires |nodes| == 2 && Wins(nodes, h) && Votes(nodes, h) && t in h.won && x in nodes
    ensures t <= nodes[x].term
  {
    BothVoted(nodes, h, t, x);
    assert VoteOk(Ballot(t, x), nodes, h);
  }

  lemma VotedUpTo(nodes: map<NodeId, Node>, h: History, b: Ballot)
    requires Votes(nodes, h) && b in h.voted
    ensures b.node in nodes && b.term <= nodes[b.node].term
  {
    assert VoteOk(b, nodes, h);
  }

  /** A term that a node is in, or a later one, is the latest won if it was won at all. */
  lemma OwnTermLatest(nodes: map<NodeId, Node>, h: History, x: NodeId, t: nat)
    requires |nodes| == 2 && Wins(nodes, h) && Votes(nodes, h) && x in nodes && nodes[x].term <= t && t in h.won
    ensures Latest(h, t)
  {
    forall u | u in h.won
      ensures u <= t
    {
      SeenAllWins(nodes, h, u, x);
    }
  }

  // ---------- the four ways in which a node moves ----------

  lemma SizeKept(nodes: map<NodeId, Node>, n: Node)
    requires n.id in nodes
    ensures |nodes[n.id := n]| == |nodes|
  {
    assert nodes[n.id := n].Keys == nodes.Keys;
    assert |nodes[n.id := n].Keys| == |nodes[n.id := n]| && |nodes.Keys| == |nodes|;
  }

  /** The leader logs stay, and a new vote is one of `id`, cast with `log`. */
  ghost predicate VotesOnly(h: History, h': History, id: NodeId, log: Log) {
    && h'.won == h.won && h'.llog == h.llog
    && forall b :: b in h'.voted ==> OldVote(h, h', b) || NewVote(h', b, id, log)
  }

  ghost predicate OldVote(h: History, h': History, b: Ballot) {
    b in h.voted && b in h.voteLog && b in h'.voteLog && h'.voteLog[b] == h.voteLog[b]
  }

  ghost predicate NewVote(h': History, b: Ballot, id: NodeId, log: Log) {
    b.node == id && b in h'.voteLog && h'.voteLog[b] == log
  }

  lemma QuietMove(nodes: map<NodeId, Node>, h: History, n: Node, h': History)
    requires Paired(nodes, h) && n.id in nodes && n.log == nodes[n.id].log && VotesOnly(h, h', n.id, n.log)
    ensures Paired(nodes[n.id := n], h')
  {
    SizeKept(nodes, n);
    forall b | b in h'.voted
      ensures VoteFresh(b, nodes[n.id := n], h')
    {
      if b in h.voted {
        assert VoteFresh(b, nodes, h);
      }
    }
  }

  lemma LatestIsOne(h: History, t: nat, u: nat)
    requires Latest(h, t) && Latest(h, u)
    ensures t == u
  {
  }

  /** In the latest term that was won, the log of `n` becomes `log` and the leader's log `lead`, which contains
      all logs. */
  lemma LogMove(nodes: map<NodeId, Node>, h: History, n: Node, h': History, t: nat)
    requires Paired(nodes, h) && Votes(nodes, h) && n.id in nodes && nodes[n.id].term <= t && Latest(h, t)
    requires h'.won == h.won && h'.voted == h.voted && h'.voteLog == h.voteLog
    requires t in h.llog && t in h'.llog && h.llog[t] <= h'.llog[t] && n.log <= h'.llog[t]
    ensures Paired(nodes[n.id := n], h')
  {
    SizeKept(nodes, n);
    forall x | x in nodes
      ensures Following(nodes[n.id := n][x].log, h')
    {
      assert Following(nodes[x].log, h);
      forall u | Latest(h', u)
        ensures u in h'.llog && nodes[n.id := n][x].log <= h'.llog[u]
      {
        LatestIsOne(h', t, u);
      }
    }
    forall b | b in h'.voted
      ensures VoteFresh(b, nodes[n.id := n], h')
    {
      assert VoteFresh(b, nodes, h);
      VotedUpTo(nodes, h, b);
    }
  }

  // ---------- winning ----------

  lemma {:induction false} GreatestOf(s: set<nat>) returns (t: nat)
    requires s != {}
    ensures t in s && forall u :: u in s ==> u <= t
  {
    var x :| x in s;
    t := x;
    if s != {x} {
      var g := GreatestOf(s - {x});
      t := if g > x then g else x;
    }
    assert forall u :: u in s ==> u == x || u in s - {x};
  }

  /** Two prefixes of one sorted log: the one that is at least as up to date contains the other. */
  lemma UpToDateContains(a: Log, b: Log, lead: Log)
    requires a <= lead && b <= lead && Sorted(lead) && UpToDate(|a|, LastTerm(a), b)
    ensures b <= a
  {
    assert 0 < |a| <= |b| ==> lead[|a| - 1].term <= lead[|b| - 1].term;
  }

  lemma CandidateContains(nodes: map<NodeId, Node>, h: History, a: Log, b: Log)
    requires Wins(nodes, h) && Following(a, h) && Following(b, h) && UpToDate(|a|, LastTerm(a), b)
    ensures b <= a
  {
    if h.won.Keys != {} {
      var t := GreatestOf(h.won.Keys);
      assert Latest(h, t) && WinOk(t, nodes, h);
      TermsBounded(nodes, h);
      BackedIsSorted(h.llog[t], h.llog);
      UpToDateContains(a, b, h.llog[t]);
    }
  }

  /** What the other node had in its log when it voted for the winner it still has, and the winner has it too. */
  lemma WinnerContains(nodes: map<NodeId, Node>, h: History, n: Node, y: NodeId)
    requires Paired(nodes, h) && Wins(nodes, h) && Votes(nodes, h) && y in nodes && Following(n.log, h)
    requires Ballot(n.term, y) in h.voted && h.voted[Ballot(n.term, y)] == n.id
    requires Ballot(n.term, n.id) in h.candLog && h.candLog[Ballot(n.term, n.id)] == n.log
    requires forall u :: u in h.won ==> u < n.term
    ensures nodes[y].log <= n.log
  {
    assert VoteFresh(Ballot(n.term, y), nodes, h) && VoteOk(Ballot(n.term, y), nodes, h);
    assert Following(nodes[y].log, h);
    CandidateContains(nodes, h, n.log, nodes[y].log);
  }

  ghost predicate WonBy(h: History, n: Node, h': History) {
    && n.term !in h.won && h'.won.Keys == h.won.Keys + {n.term} && (forall u :: u in h.won ==> u < n.term)
    && n.term in h'.llog && h'.llog[n.term] == n.log
    && h'.voted == h.voted && h'.voteLog == h.voteLog
  }

  lemma WinMove(nodes: map<NodeId, Node>, h: History, n: Node, h': History)
    requires Paired(nodes, h) && n.id in nodes && n.log == nodes[n.id].log && WonBy(h, n, h')
    requires forall y :: y in nodes ==> nodes[y].log <= n.log
    ensures Paired(nodes[n.id := n], h')
  {
    SizeKept(nodes, n);
    forall x | x in nodes
      ensures Following(nodes[n.id := n][x].log, h')
    {
      forall u | Latest(h', u)
        ensures u in h'.llog && nodes[n.id := n][x].log <= h'.llog[u]
      {
        assert u == n.term;
      }
    }
    forall b | b in h'.voted
      ensures VoteFresh(b, nodes[n.id := n], h')
    {
      assert VoteFresh(b, nodes, h);
    }
  }

  // ---------- every action ----------

  ghost predicate VoteLogs(h: History) {
    h.voteLog.Keys == h.voted.Keys
  }

  lemma ElectVotes(h: History, n: Node)
    requires Sized(n) && |n.peers| > 0 && VoteLogs(h)
    ensures var n' := StartElection(n).node;
      n'.id == n.id && n'.log == n.log && VotesOnly(h, RecordElect(h, n), n.id, n.log)
  {
  }

  lemma ElectPaired(nodes: map<NodeId, Node>, h: History, n: Node)
    requires Paired(nodes, h) && VoteLogs(h) && n.id in nodes && nodes[n.id] == n && Sized(n) && |n.peers| > 0
    ensures Paired(nodes[n.id := StartElection(n).node], RecordElect(h, n))
  {
    ElectVotes(h, n);
    QuietMove(nodes, h, StartElection(n).node, RecordElect(h, n));
  }

  lemma SubmitShape(h: History, n: Node, src: NodeId, dst: NodeId)
    requires Sized(n) && VoteLogs(h) && NodeOk(n, h)
    ensures var n' := Propose(n, src, dst).1.node;
            var h' := RecordSubmit(h, n, n');
      && n'.id == n.id && h'.won == h.won && h'.voted == h.voted && h'.voteLog == h.voteLog
      && (if n.role == Leader && n'.log != n.log
          then n.term in h.won && n.term in h.llog && n.term in h'.llog
            && h.llog[n.term] <= h'.llog[n.term] && n'.log == h'.llog[n.term]
          else n'.log == n.log && VotesOnly(h, h', n.id, n.log))
  {
  }

  lemma SubmitPaired(nodes: map<NodeId, Node>, h: History, n: Node, src: NodeId, dst: NodeId)
    requires Paired(nodes, h) && Votes(nodes, h) && Wins(nodes, h) && n.id in nodes && nodes[n.id] == n && Sized(n)
    requires NodeOk(n, h)
    ensures var n' := Propose(n, src, dst).1.node; Paired(nodes[n.id := n'], RecordSubmit(h, n, n'))
  {
    var n' := Propose(n, src, dst).1.node;
    SubmitShape(h, n, src, dst);
    if n.role == Leader && n'.log != n.log {
      OwnTermLatest(nodes, h, n.id, n.term);
      LogMove(nodes, h, n', RecordSubmit(h, n, n'), n.term);
    } else {
      QuietMove(nodes, h, n', RecordSubmit(h, n, n'));
    }
  }

  /** The messages that leave the log and the leader logs alone. */
  predicate QuietMessage(n: Node, msg: Message) {
    match msg
    case RequestVote(_, _, _, _) => true
    case RequestVoteReply(_, _) => !(Counts(n, msg) && Counting(n).votes >= Quorum(|n.peers|))
    case AppendEntries(_, _, _, _, _, _) => !AcceptsBatch(n, msg)
    case AppendEntriesReply(_, _, _) => true
  }

  lemma QuietVote(h: History, n: Node, p: Packet)
    requires Sized(n) && VoteLogs(h) && p.msg.RequestVote?
    ensures var n' := OnRequestVote(n, p.src, p.msg).node;
      n'.id == n.id && n'.log == n.log && VotesOnly(h, RecordStep(h, n, n', p), n.id, n.log)
  {
  }

  lemma QuietReply(h: History, n: Node, p: Packet)
    requires Sized(n) && VoteLogs(h) && Patient(n) && QuietMessage(n, p.msg) && !p.msg.RequestVote?
    ensures var n' := Step(n, p.src, p.msg).node;
      n'.id == n.id && n'.log == n.log && VotesOnly(h, RecordStep(h, n, n', p), n.id, n.log)
  {
  }

  lemma QuietStep(h: History, n: Node, p: Packet)
    requires Sized(n) && VoteLogs(h) && Patient(n) && QuietMessage(n, p.msg)
    ensures var n' := Step(n, p.src, p.msg).node;
      n'.id == n.id && n'.log == n.log && VotesOnly(h, RecordStep(h, n, n', p), n.id, n.log)
  {
    if p.msg.RequestVote? {
      QuietVote(h, n, p);
    } else {
      QuietReply(h, n, p);
    }
  }

  lemma QuietPaired(nodes: map<NodeId, Node>, h: History, n: Node, p: Packet)
    requires Paired(nodes, h) && VoteLogs(h) && n.id in nodes && nodes[n.id] == n && Sized(n) && Patient(n)
    requires QuietMessage(n, p.msg)
    ensures var n' := Step(n, p.src, p.msg).node; Paired(nodes[n.id := n'], RecordStep(h, n, n', p))
  {
    var n' := Step(n, p.src, p.msg).node;
    QuietStep(h, n, p);
    QuietMove(nodes, h, n', RecordStep(h, n, n', p));
  }

  lemma AcceptedFollows(n: Node, from: NodeId, ae: Message, lead: Log, llog: map<nat, Log>)
    requires Sized(n) && AcceptsBatch(n, ae) && Fits(n.log, lead, ae.prevLogIndex, ae.entries, llog) && n.log <= lead
    ensures var n' := Step(n, from, ae).node; n'.id == n.id && n'.log <= lead
  {
    AcceptedNode(n, from, ae);
    OverlayOfLeader(n.log, lead, ae.prevLogIndex, ae.entries, llog);
    StepKeepsIdentity(n, from, ae);
  }

  lemma AcceptRecord(h: History, n: Node, n': Node, p: Packet)
    requires AcceptsBatch(n, p.msg)
    ensures var h' := RecordStep(h, n, n', p);
      h'.won == h.won && h'.voted == h.voted && h'.voteLog == h.voteLog && h'.llog == h.llog
  {
  }

  lemma AcceptPaired(nodes: map<NodeId, Node>, h: History, n: Node, p: Packet)
    requires Paired(nodes, h) && Votes(nodes, h) && Wins(nodes, h) && n.id in nodes && nodes[n.id] == n && Sized(n)
    requires AcceptsBatch(n, p.msg) && p.msg.term in h.won && p.msg.term in h.llog
    requires Fits(n.log, h.llog[p.msg.term], p.msg.prevLogIndex, p.msg.entries, h.llog)
    ensures var n' := Step(n, p.src, p.msg).node; Paired(nodes[n.id := n'], RecordStep(h, n, n', p))
  {
    var n', t := Step(n, p.src, p.msg).node, p.msg.term;
    OwnTermLatest(nodes, h, n.id, t);
    assert Following(n.log, h);
    AcceptedFollows(n, p.src, p.msg, h.llog[t], h.llog);
    AcceptRecord(h, n, n', p);
    LogMove(nodes, h, n', RecordStep(h, n, n', p), t);
  }

  // ---------- the deciding vote ----------

  predicate Decides(n: Node, msg: Message) {
    msg.RequestVoteReply? && Counts(n, msg) && Counting(n).votes >= Quorum(|n.peers|)
  }

  lemma DecidedTermIsNew(c: Cluster, h: History, n: Node, p: Packet)
    requires Arrives(c, h, n, p) && Decides(n, p.msg)
    ensures n.term !in h.won && n.term !in h.llog
  {
    CountKeeps(c, h, n, p);
    WinKeeps(Cluster(With(c.nodes, Counting(n)), c.net - {p}), Count(h, n.id, p.src), Counting(n));
  }

  lemma DecidedShape(h: History, n: Node, p: Packet)
    requires Sized(n) && Decides(n, p.msg) && n.term !in h.won && forall u :: u in h.won ==> u <= n.term
    ensures var n' := Step(n, p.src, p.msg).node;
            var h' := RecordStep(h, n, n', p);
      && n'.id == n.id && n'.log == n.log && n'.term == n.term && n.term in h'.won && h'.won[n.term].leader == n.id
      && WonBy(h, n', h')
  {
  }

  lemma DecidedPaired(nodes: map<NodeId, Node>, h: History, n: Node, p: Packet, nodes': map<NodeId, Node>)
    requires Paired(nodes, h) && Votes(nodes, h) && Wins(nodes, h) && n.id in nodes && nodes[n.id] == n && Sized(n)
    requires Decides(n, p.msg) && n.term !in h.won && CandidateOk(n, h)
    requires nodes' == nodes[n.id := Step(n, p.src, p.msg).node]
    requires Wins(nodes', RecordStep(h, n, Step(n, p.src, p.msg).node, p))
    ensures Paired(nodes', RecordStep(h, n, Step(n, p.src, p.msg).node, p))
  {
    var n' := Step(n, p.src, p.msg).node;
    var h' := RecordStep(h, n, n', p);
    forall u | u in h.won
      ensures u <= n.term
    {
      SeenAllWins(nodes, h, u, n.id);
    }
    DecidedShape(h, n, p);
    SizeKept(nodes, n');
    assert Following(n.log, h);
    forall y | y in nodes
      ensures nodes[y].log <= n'.log
    {
      BothVoted(nodes', h', n.term, y);
      WinnerContains(nodes, h, n, y);
    }
    WinMove(nodes, h, n', h');
  }

  // ---------- every action ----------

  lemma DeliverPaired(c: Cluster, h: History, n: Node, p: Packet)
    requires Arrives(c, h, n, p) && Waiting(c) && Paired(c.nodes, h)
    ensures var n' := Step(n, p.src, p.msg).node; Paired(c.nodes[n.id := n'], RecordStep(h, n, n', p))
  {
    VoteLogsKept(c, h);
    if AcceptsBatch(n, p.msg) {
      BatchFits(c, h, p);
      AcceptPaired(c.nodes, h, n, p);
    } else if Decides(n, p.msg) {
      DecidingPaired(c, h, n, p);
    } else {
      QuietPaired(c.nodes, h, n, p);
    }
  }

  lemma WinsAfter(c: Cluster, h: History, n: Node, p: Packet)
    requires Arrives(c, h, n, p) && Waiting(c)
    ensures var n' := Step(n, p.src, p.msg).node; Wins(c.nodes[n.id := n'], RecordStep(h, n, n', p))
  {
    ActionKeeps(c, h, Deliver(p));
    assert Apply(c, Deliver(p)).nodes == c.nodes[n.id := Step(n, p.src, p.msg).node];
  }

  lemma DecidingPaired(c: Cluster, h: History, n: Node, p: Packet)
    requires Arrives(c, h, n, p) && Waiting(c) && Paired(c.nodes, h) && Decides(n, p.msg)
    ensures var n' := Step(n, p.src, p.msg).node; Paired(c.nodes[n.id := n'], RecordStep(h, n, n', p))
  {
    assert NodeOk(n, h);
    DecidedTermIsNew(c, h, n, p);
    WinsAfter(c, h, n, p);
    DecidedPaired(c.nodes, h, n, p, c.nodes[n.id := Step(n, p.src, p.msg).node]);
  }

  lemma ActionPaired(c: Cluster, h: History, a: Action)
    requires Inv(c, h) && Waiting(c) && Paired(c.nodes, h)
    ensures Paired(Apply(c, a).nodes, Record(h, c, a))
  {
    if Enabled(c, a) && !a.Drop? {
      var n := c.nodes[Actor(a)];
      assert n.id == Actor(a) && |n.peers| == 1 && NodeOk(n, h);
      VoteLogsKept(c, h);
      match a
      case Elect(i) => ElectPaired(c.nodes, h, n);
      case Submit(i, src, dst) => SubmitPaired(c.nodes, h, n, src, dst);
      case Deliver(p) => DeliverPaired(c, h, n, p);
    }
  }

  lemma {:induction false} RunPaired(c: Cluster, actions: seq<Action>)
    requires Initial(c) && |c.nodes| == 2
    ensures Paired(Run(c, actions).nodes, Past(c, actions))
  {
    if |actions| > 0 {
      var earlier := actions[..|actions| - 1];
      RunPaired(c, earlier);
      RunKeeps(c, earlier);
      ActionPaired(Run(c, earlier), Past(c, earlier), actions[|actions| - 1]);
    }
  }

  // ---------- every batch can be trusted ----------

  lemma TwoAtLeast(nodes: map<NodeId, Node>, x: NodeId, y: NodeId)
    requires x in nodes && y in nodes && x != y
    ensures |nodes| >= 2
  {
    SubsetSize({x, y}, nodes.Keys);
    assert |nodes.Keys| == |nodes|;
  }

  lemma PairTrusts(c: Cluster, h: History, a: Action)
    requires Inv(c, h) && Paired(c.nodes, h)
    ensures TrustedAction(c, h, a)
  {
    if a.Deliver? && Enabled(c, a) && TakesCommit(c.nodes[a.packet.dst], a.packet.msg) {
      PacketOfState(c, h, a.packet);
      OwnTermLatest(c.nodes, h, a.packet.dst, a.packet.msg.term);
      assert Following(c.nodes[a.packet.dst].log, h);
    }
  }

  lemma LoneTrusts(c: Cluster, h: History, a: Action)
    requires Inv(c, h) && |c.nodes| < 2
    ensures TrustedAction(c, h, a)
  {
    if a.Deliver? && Enabled(c, a) {
      TwoAtLeast(c.nodes, a.packet.src, a.packet.dst);
    }
  }

  lemma SameCount(c: Cluster, actions: seq<Action>)
    requires Shaped(c)
    ensures |Run(c, actions).nodes| == |c.nodes|
  {
    assert |Run(c, actions).nodes.Keys| == |Run(c, actions).nodes| && |c.nodes.Keys| == |c.nodes|;
  }

  lemma SmallRunTrusted(c: Cluster, actions: seq<Action>)
    requires Initial(c) && |c.nodes| <= 2
    ensures RunTrusted(c, actions)
  {
    forall k | 0 <= k < |actions|
      ensures TrustedAfter(c, actions[..k], actions[k])
    {
      RunKeeps(c, actions[..k]);
      SameCount(c, actions[..k]);
      if |c.nodes| == 2 {
        RunPaired(c, actions[..k]);
        PairTrusts(Run(c, actions[..k]), Past(c, actions[..k]), actions[k]);
      } else {
        LoneTrusts(Run(c, actions[..k]), Past(c, actions[..k]), actions[k]);
      }
    }
  }

  /** At whatever two moments of the run, any two nodes agree on what both have committed. */
  ghost predicate CommitsAlwaysAgree(c: Cluster, actions: seq<Action>)
    requires Shaped(c)
  {
    forall i, j, x, y :: (0 <= i <= |actions| && 0 <= j <= |actions| && x in c.nodes && y in c.nodes) ==>
      CommitsAgree(At(c, actions, i, x), At(c, actions, j, y))
  }

  /** State Machine Safety for all nodes of clusters of at most two, in every run. */
  lemma SmallClusterAgrees(c: Cluster, actions: seq<Action>)
    requires Initial(c) && |c.nodes| <= 2
    ensures CommitsAlwaysAgree(c, actions)
  {
    SmallRunTrusted(c, actions);
    forall i, j, x, y | 0 <= i <= |actions| && 0 <= j <= |actions| && x in c.nodes && y in c.nodes
      ensures CommitsAgree(At(c, actions, i, x), At(c, actions, j, y))
    {
      TrustedRunAgrees(c, actions, i, j, x, y);
    }
  }
}
