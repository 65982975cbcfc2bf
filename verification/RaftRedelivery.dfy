/** Election Safety when the network may deliver votes again: it holds exactly for clusters of at most three nodes.

    Replies are counted, voters are not, so a vote that arrives twice counts twice. Two leaders of one term need a vote
    from somebody else each, and the two voters are neither of the leaders nor the same node. */
module RaftRedelivery {
  import opened Types
  import opened RaftSpec
  import opened RaftCluster
  import opened RaftHistory
  import opened RaftLogs

  // ---------- the network that forgets nothing ----------

  /** One transition; unlike in `Apply`, a delivered packet stays in flight whatever it carries. */
  function Redeliver(c: Cluster, a: Action): Cluster
    requires Shaped(c)
  {
    if !Enabled(c, a) then c
    else if a.Drop? then Cluster(c.nodes, c.net - {a.packet})
    else
      var o := Effect(c, a);
      Cluster(c.nodes[Actor(a) := o.node], c.net + Emitted(Actor(a), o.sent))
  }

  lemma RedeliverKeepsShape(c: Cluster, a: Action)
    requires Shaped(c)
    ensures Shaped(Redeliver(c, a)) && Redeliver(c, a).nodes.Keys == c.nodes.Keys
  {
    ApplyKeepsShape(c, a);
    assert Redeliver(c, a).nodes == Apply(c, a).nodes;
  }

  function RunAgain(c: Cluster, actions: seq<Action>): (c': Cluster)
    requires Shaped(c)
    ensures Shaped(c') && c'.nodes.Keys == c.nodes.Keys
  {
    if |actions| == 0 then c
    else
      var before := RunAgain(c, actions[..|actions| - 1]);
      RedeliverKeepsShape(before, actions[|actions| - 1]);
      Redeliver(before, actions[|actions| - 1])
  }

  function NodeAt(c: Cluster, actions: seq<Action>, i: nat, x: NodeId): Node
    requires Shaped(c) && i <= |actions| && x in c.nodes
  {
    RunAgain(c, actions[..i]).nodes[x]
  }

  /** At most one node leads in any term, at whatever two moments of the run. */
  ghost predicate OneLeaderPerTerm(c: Cluster, actions: seq<Action>)
    requires Shaped(c)
  {
    forall i, j, x, y :: (0 <= i <= |actions| && 0 <= j <= |actions| && x in c.nodes && y in c.nodes
                          && BothLead(NodeAt(c, actions, i, x), NodeAt(c, actions, j, y))) ==> x == y
  }

  predicate BothLead(m: Node, n: Node) {
    m.role == Leader && n.role == Leader && m.term == n.term
  }

  // ---------- votes, each cast once ----------

  type Votes = map<Ballot, NodeId>

  function WithVote(votes: Votes, n: Node): Votes {
    if n.votedFor.Some? then votes[Ballot(n.term, n.id) := n.votedFor.value] else votes
  }

  function VotesNext(votes: Votes, c: Cluster, a: Action): Votes
    requires Shaped(c)
  {
    if Enabled(c, a) && !a.Drop? then WithVote(votes, Effect(c, a).node) else votes
  }

  function VotesOf(c: Cluster, actions: seq<Action>): Votes
    requires Shaped(c)
  {
    if |actions| == 0 then map[]
    else
      var before := actions[..|actions| - 1];
      VotesNext(VotesOf(c, before), RunAgain(c, before), actions[|actions| - 1])
  }

  ghost predicate VotesGrow(votes: Votes, votes': Votes) {
    forall b :: b in votes ==> b in votes' && votes'[b] == votes[b]
  }

  /** Somebody else voted for `x` in the term. */
  ghost predicate Supported(votes: Votes, term: nat, x: NodeId) {
    exists v :: v != x && Ballot(term, v) in votes && votes[Ballot(term, v)] == x
  }

  /** The node's vote is on record; a candidate or leader voted for itself, and has a supporter once it counted more
      than its own vote. */
  ghost predicate VoterOk(n: Node, votes: Votes) {
    && (if n.votedFor.Some? then Ballot(n.term, n.id) in votes && votes[Ballot(n.term, n.id)] == n.votedFor.value
        else Ballot(n.term, n.id) !in votes)
    && (n.role != Follower ==> n.votedFor == Some(n.id))
    && (n.role == Candidate && n.votes > 1 ==> Supported(votes, n.term, n.id))
    && (n.role == Leader && |n.peers| > 0 ==> Supported(votes, n.term, n.id))
  }

  ghost predicate PacketFair(p: Packet, votes: Votes, nodes: map<NodeId, Node>) {
    && p.src in nodes && p.src != p.dst
    && (p.msg.RequestVote? ==> p.msg.candidateId == p.src)
    && (p.msg.RequestVoteReply? && p.msg.voteGranted ==>
        Ballot(p.msg.term, p.src) in votes && votes[Ballot(p.msg.term, p.src)] == p.dst)
  }

  ghost predicate BallotFair(b: Ballot, nodes: map<NodeId, Node>) {
    b.node in nodes && b.term <= nodes[b.node].term
  }

  ghost predicate Fair(c: Cluster, votes: Votes) {
    && Shaped(c)
    && (forall x :: x in c.nodes ==> VoterOk(c.nodes[x], votes))
    && (forall b :: b in votes ==> BallotFair(b, c.nodes))
    && (forall p :: p in c.net ==> PacketFair(p, votes, c.nodes))
  }

  // ---------- one node's move ----------

  /** Terms do not decrease, and a vote is not changed within a term. */
  ghost predicate VoteKept(n: Node, n': Node) {
    && n'.id == n.id && n'.peers == n.peers && n.term <= n'.term
    && (n'.term == n.term && n.votedFor.Some? ==> n'.votedFor == n.votedFor)
  }

  /** The node had counted another vote than its own, or counts one now. */
  predicate CountsAnother(n: Node, granted: bool) {
    n.role == Candidate && (n.votes > 1 || granted)
  }

  /** What makes the node a candidate or leader, if it is one afterwards. */
  ghost predicate RoleEarned(n: Node, n': Node, granted: bool) {
    && (n'.role != Follower ==> n'.votedFor == Some(n.id))
    && (n'.role == Candidate && n'.votes > 1 ==> n'.term == n.term && CountsAnother(n, granted))
    && (n'.role == Leader && |n.peers| > 0 ==> n'.term == n.term && (n.role == Leader || CountsAnother(n, granted)))
  }

  lemma ElectMoves(n: Node)
    requires Sized(n)
    ensures VoteKept(n, StartElection(n).node) && RoleEarned(n, StartElection(n).node, false)
  {
  }

  lemma ProposeMoves(n: Node, src: NodeId, dst: NodeId)
    requires Sized(n) && (n.role != Follower ==> n.votedFor == Some(n.id))
    ensures VoteKept(n, Propose(n, src, dst).1.node) && RoleEarned(n, Propose(n, src, dst).1.node, false)
  {
  }

  lemma StepMoves(n: Node, from: NodeId, msg: Message)
    requires Sized(n) && (n.role != Follower ==> n.votedFor == Some(n.id))
    ensures var n' := Step(n, from, msg).node;
      VoteKept(n, n') && RoleEarned(n, n', msg == RequestVoteReply(n.term, true))
  {
    StepKeepsIdentity(n, from, msg);
  }

  /** The record grows when a node moves, and stays right for it. */
  lemma RecordGrows(n: Node, n': Node, votes: Votes)
    requires VoterOk(n, votes) && VoteKept(n, n') && (forall b :: b in votes && b.node == n.id ==> b.term <= n.term)
    ensures VotesGrow(votes, WithVote(votes, n'))
    ensures if n'.votedFor.Some?
      then Ballot(n'.term, n'.id) in WithVote(votes, n')
        && WithVote(votes, n')[Ballot(n'.term, n'.id)] == n'.votedFor.value
      else Ballot(n'.term, n'.id) !in WithVote(votes, n')
  {
    assert Ballot(n'.term, n'.id) in votes ==> n'.term == n.term;
  }

  lemma SupportedGrows(votes: Votes, votes': Votes, term: nat, x: NodeId)
    requires VotesGrow(votes, votes') && Supported(votes, term, x)
    ensures Supported(votes', term, x)
  {
    var v :| v != x && Ballot(term, v) in votes && votes[Ballot(term, v)] == x;
    assert votes'[Ballot(term, v)] == x;
  }

  lemma VoterGrows(n: Node, votes: Votes, votes': Votes, b: Ballot)
    requires VoterOk(n, votes) && VotesGrow(votes, votes') && b.node != n.id
    requires forall a :: a in votes' ==> a in votes || a == b
    ensures VoterOk(n, votes')
  {
    if Supported(votes, n.term, n.id) {
      SupportedGrows(votes, votes', n.term, n.id);
    }
  }

  /** The node that moved is still on record, and supported where it has to be. */
  lemma MoverOk(n: Node, n': Node, votes: Votes, granted: bool)
    requires VoterOk(n, votes) && VoteKept(n, n') && RoleEarned(n, n', granted)
    requires forall b :: b in votes && b.node == n.id ==> b.term <= n.term
    requires granted ==> Supported(votes, n.term, n.id)
    ensures VoterOk(n', WithVote(votes, n'))
  {
    RecordGrows(n, n', votes);
    if Supported(votes, n.term, n.id) {
      SupportedGrows(votes, WithVote(votes, n'), n.term, n.id);
    }
  }

  // ---------- one action ----------

  lemma GrantSupports(c: Cluster, votes: Votes, p: Packet)
    requires Fair(c, votes) && p in c.net && p.dst in c.nodes && p.msg == RequestVoteReply(c.nodes[p.dst].term, true)
    ensures Supported(votes, c.nodes[p.dst].term, p.dst)
  {
    assert PacketFair(p, votes, c.nodes);
  }

  lemma OwnBallots(c: Cluster, votes: Votes, x: NodeId)
    requires Fair(c, votes) && x in c.nodes
    ensures VoterOk(c.nodes[x], votes) && c.nodes[x].id == x && Sized(c.nodes[x])
    ensures forall b :: b in votes && b.node == x ==> b.term <= c.nodes[x].term
  {
    forall b | b in votes && b.node == x
      ensures b.term <= c.nodes[x].term
    {
      assert BallotFair(b, c.nodes);
    }
  }

  lemma ActorMoves(c: Cluster, votes: Votes, a: Action)
    requires Fair(c, votes) && Enabled(c, a) && !a.Drop?
    ensures var n, n' := c.nodes[Actor(a)], Effect(c, a).node;
      VoteKept(n, n') && VotesGrow(votes, WithVote(votes, n')) && VoterOk(n', WithVote(votes, n'))
  {
    var n := c.nodes[Actor(a)];
    OwnBallots(c, votes, Actor(a));
    match a
    case Elect(i) =>
      ElectMoves(n);
      RecordGrows(n, StartElection(n).node, votes);
      MoverOk(n, StartElection(n).node, votes, false);
    case Submit(i, src, dst) =>
      ProposeMoves(n, src, dst);
      RecordGrows(n, Propose(n, src, dst).1.node, votes);
      MoverOk(n, Propose(n, src, dst).1.node, votes, false);
    case Deliver(p) =>
      StepMoves(n, p.src, p.msg);
      RecordGrows(n, Step(n, p.src, p.msg).node, votes);
      if p.msg == RequestVoteReply(n.term, true) {
        GrantSupports(c, votes, p);
      }
      MoverOk(n, Step(n, p.src, p.msg).node, votes, p.msg == RequestVoteReply(n.term, true));
  }

  lemma NodesFair(c: Cluster, votes: Votes, a: Action, x: NodeId)
    requires Fair(c, votes) && Enabled(c, a) && !a.Drop? && x in c.nodes
    ensures VoterOk(Redeliver(c, a).nodes[x], VotesNext(votes, c, a))
  {
    ActorMoves(c, votes, a);
    EffectKeepsIdentity(c, a);
    if x != Actor(a) {
      assert c.nodes[x].id == x && c.nodes[Actor(a)].id == Actor(a);
      VoterGrows(c.nodes[x], votes, VotesNext(votes, c, a), Ballot(Effect(c, a).node.term, Actor(a)));
    }
  }

  lemma BallotsFair(c: Cluster, votes: Votes, a: Action, b: Ballot)
    requires Fair(c, votes) && Enabled(c, a) && !a.Drop? && b in VotesNext(votes, c, a)
    ensures BallotFair(b, Redeliver(c, a).nodes)
  {
    ActorMoves(c, votes, a);
    EffectKeepsIdentity(c, a);
    assert c.nodes[Actor(a)].id == Actor(a);
    if b in votes {
      assert BallotFair(b, c.nodes);
    }
  }

  /** Something a node sends: to another node; a vote request is its own, and a granted vote is its vote. */
  ghost predicate SendFair(s: Send, n': Node) {
    && s.to != n'.id
    && (s.msg.RequestVote? ==> s.msg.candidateId == n'.id)
    && (s.msg.RequestVoteReply? && s.msg.voteGranted ==> s.msg.term == n'.term && n'.votedFor == Some(s.to))
  }

  lemma StepSendsFair(n: Node, from: NodeId, msg: Message, k: nat)
    requires Sized(n) && from != n.id && (msg.RequestVote? ==> msg.candidateId == from) && k < |Step(n, from, msg).sent|
    ensures SendFair(Step(n, from, msg).sent[k], Step(n, from, msg).node)
  {
  }

  lemma OwnSendsFair(n: Node, src: NodeId, dst: NodeId, k: nat)
    requires Sized(n) && n.id !in n.peers
    ensures k < |StartElection(n).sent| ==> SendFair(StartElection(n).sent[k], StartElection(n).node)
    ensures var o := Propose(n, src, dst).1; k < |o.sent| ==> SendFair(o.sent[k], o.node)
  {
  }

  lemma SentFair(c: Cluster, votes: Votes, a: Action, k: nat)
    requires Fair(c, votes) && Enabled(c, a) && !a.Drop? && k < |Effect(c, a).sent|
    ensures SendFair(Effect(c, a).sent[k], Effect(c, a).node)
  {
    OwnBallots(c, votes, Actor(a));
    match a
    case Elect(i) => OwnSendsFair(c.nodes[i], i, i, k);
    case Submit(i, src, dst) => OwnSendsFair(c.nodes[i], src, dst, k);
    case Deliver(p) =>
      assert PacketFair(p, votes, c.nodes);
      StepSendsFair(c.nodes[p.dst], p.src, p.msg, k);
  }

  lemma PacketsFair(c: Cluster, votes: Votes, a: Action, p: Packet)
    requires Fair(c, votes) && Enabled(c, a) && !a.Drop? && p in Redeliver(c, a).net
    ensures PacketFair(p, VotesNext(votes, c, a), Redeliver(c, a).nodes)
  {
    ActorMoves(c, votes, a);
    EffectKeepsIdentity(c, a);
    OwnBallots(c, votes, Actor(a));
    if p in c.net {
      assert PacketFair(p, votes, c.nodes);
    } else {
      var k :| 0 <= k < |Effect(c, a).sent| && p == Packet(Actor(a), Effect(c, a).sent[k].to, Effect(c, a).sent[k].msg);
      SentFair(c, votes, a, k);
    }
  }

  lemma RedeliverFair(c: Cluster, votes: Votes, a: Action)
    requires Fair(c, votes)
    ensures Fair(Redeliver(c, a), VotesNext(votes, c, a)) && VotesGrow(votes, VotesNext(votes, c, a))
  {
    RedeliverKeepsShape(c, a);
    if Enabled(c, a) && !a.Drop? {
      ActorMoves(c, votes, a);
      forall x | x in Redeliver(c, a).nodes
        ensures VoterOk(Redeliver(c, a).nodes[x], VotesNext(votes, c, a))
      {
        NodesFair(c, votes, a, x);
      }
      forall b | b in VotesNext(votes, c, a)
        ensures BallotFair(b, Redeliver(c, a).nodes)
      {
        BallotsFair(c, votes, a, b);
      }
      forall p | p in Redeliver(c, a).net
        ensures PacketFair(p, VotesNext(votes, c, a), Redeliver(c, a).nodes)
      {
        PacketsFair(c, votes, a, p);
      }
    }
  }

  // ---------- runs ----------

  lemma {:induction false} RunFair(c: Cluster, actions: seq<Action>)
    requires Initial(c)
    ensures Fair(RunAgain(c, actions), VotesOf(c, actions))
  {
    if |actions| > 0 {
      var before := actions[..|actions| - 1];
      RunFair(c, before);
      RedeliverFair(RunAgain(c, before), VotesOf(c, before), actions[|actions| - 1]);
    }
  }

  lemma {:induction false} VotesForGood(c: Cluster, actions: seq<Action>, i: nat)
    requires Initial(c) && i <= |actions|
    ensures VotesGrow(VotesOf(c, actions[..i]), VotesOf(c, actions))
    decreases |actions|
  {
    if i < |actions| {
      var before := actions[..|actions| - 1];
      assert before[..i] == actions[..i];
      VotesForGood(c, before, i);
      RunFair(c, before);
      RedeliverFair(RunAgain(c, before), VotesOf(c, before), actions[|actions| - 1]);
    } else {
      assert actions[..i] == actions;
    }
  }

  ghost predicate HasVotes(votes: Votes, term: nat, x: NodeId) {
    Ballot(term, x) in votes && votes[Ballot(term, x)] == x && Supported(votes, term, x)
  }

  /** In a cluster of two or more, a leader of whatever moment has its own vote and somebody else's. */
  lemma LeaderHasVotes(c: Cluster, actions: seq<Action>, i: nat, x: NodeId)
    requires Initial(c) && i <= |actions| && x in c.nodes && NodeAt(c, actions, i, x).role == Leader && |c.nodes| > 1
    ensures HasVotes(VotesOf(c, actions), NodeAt(c, actions, i, x).term, x)
  {
    var n, early := NodeAt(c, actions, i, x), VotesOf(c, actions[..i]);
    RunFair(c, actions[..i]);
    VotesForGood(c, actions, i);
    OwnBallots(RunAgain(c, actions[..i]), early, x);
    OthersArePeers(c, actions[..i], x);
    SupportedGrows(early, VotesOf(c, actions), n.term, x);
  }

  lemma OthersArePeers(c: Cluster, actions: seq<Action>, x: NodeId)
    requires Shaped(c) && x in c.nodes
    ensures |c.nodes| == |RunAgain(c, actions).nodes[x].peers| + 1
  {
    var s := RunAgain(c, actions);
    assert |s.nodes| == |s.nodes.Keys| == |c.nodes.Keys| == |c.nodes|;
    assert |s.nodes| == |s.nodes[x].peers| + 1;
  }

  ghost predicate VotedBy(votes: Votes, voters: set<NodeId>) {
    forall b :: b in votes ==> b.node in voters
  }

  /** Two nodes that voted for themselves and were each supported are not all the voters there are. */
  lemma FourVoters(votes: Votes, voters: set<NodeId>, t: nat, x: NodeId, y: NodeId)
    requires x != y && HasVotes(votes, t, x) && HasVotes(votes, t, y) && VotedBy(votes, voters)
    ensures |voters| >= 4
  {
    var v :| v != x && Ballot(t, v) in votes && votes[Ballot(t, v)] == x;
    var w :| w != y && Ballot(t, w) in votes && votes[Ballot(t, w)] == y;
    assert Ballot(t, x).node == x && Ballot(t, y).node == y && Ballot(t, v).node == v && Ballot(t, w).node == w;
    SubsetSize({x, y, v, w}, voters);
  }

  lemma VotersKnown(c: Cluster, actions: seq<Action>)
    requires Initial(c)
    ensures VotedBy(VotesOf(c, actions), c.nodes.Keys)
  {
    RunFair(c, actions);
    forall b | b in VotesOf(c, actions)
      ensures b.node in c.nodes.Keys
    {
      assert BallotFair(b, RunAgain(c, actions).nodes);
    }
  }

  lemma TwoAtLeast(c: Cluster, x: NodeId, y: NodeId)
    requires x in c.nodes && y in c.nodes && x != y
    ensures |c.nodes| > 1
  {
    SubsetSize({x, y}, c.nodes.Keys);
    assert |c.nodes| == |c.nodes.Keys|;
  }

  /** Two leaders of one term take four nodes. */
  lemma TwoLeadersNeedFour(c: Cluster, actions: seq<Action>, i: nat, j: nat, x: NodeId, y: NodeId)
    requires Initial(c) && i <= |actions| && j <= |actions| && x in c.nodes && y in c.nodes && x != y
    requires BothLead(NodeAt(c, actions, i, x), NodeAt(c, actions, j, y))
    ensures |c.nodes.Keys| >= 4
  {
    TwoAtLeast(c, x, y);
    LeaderHasVotes(c, actions, i, x);
    LeaderHasVotes(c, actions, j, y);
    VotersKnown(c, actions);
    FourVoters(VotesOf(c, actions), c.nodes.Keys, NodeAt(c, actions, i, x).term, x, y);
  }
}
