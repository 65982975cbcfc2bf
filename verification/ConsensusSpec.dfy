/** One consensus round as the boot state drives it: stand for election, read messages until leader, propose the
    edge, read messages until it commits. The messages are whatever the transport delivers. */
module ConsensusSpec {
  import opened Types
  import opened RaftSpec
  import opened RaftLogs

  type Inbox = seq<(NodeId, Message)>

  /** Messages are taken one by one until the node leads or none is left. */
  function Campaign(n: Node, inbox: Inbox): (r: (Node, Inbox))
    requires Sized(n)
    ensures Sized(r.0)
    decreases |inbox|
  {
    if n.role.Leader? || |inbox| == 0 then (n, inbox)
    else
      StepKeepsIdentity(n, inbox[0].0, inbox[0].1);
      Campaign(Step(n, inbox[0].0, inbox[0].1).node, inbox[1..])
  }

  /** Messages are taken one by one until a step reports a committed entry or none is left. */
  function Gather(n: Node, inbox: Inbox): Option<Entry>
    requires Sized(n)
    decreases |inbox|
  {
    if |inbox| == 0 then None
    else
      var o := Step(n, inbox[0].0, inbox[0].1);
      StepKeepsIdentity(n, inbox[0].0, inbox[0].1);
      if o.committed.Some? then o.committed else Gather(o.node, inbox[1..])
  }

  function Candidate1(id: NodeId, peers: seq<NodeId>): (n: Node)
    requires |peers| <= MAX_PEERS
    ensures Sized(n)
  {
    StartElection(NewNode(id, peers)).node
  }

  /** The entry that a leader commits after proposing the edge, if it commits one. */
  function Replicate(n: Node, src: NodeId, dst: NodeId, inbox: Inbox): Option<Entry>
    requires Sized(n)
  {
    var (r, o) := Propose(n, src, dst);
    if r.Err? then None
    else if o.node.commit >= |o.node.log| then Some(o.node.log[|o.node.log| - 1])
    else
      ProposeKeepsIdentity(n, src, dst);
      Gather(o.node, inbox)
  }

  /** The entry that the round commits, if it commits one. */
  function Round(id: NodeId, peers: seq<NodeId>, src: NodeId, dst: NodeId, inbox: Inbox): Option<Entry>
    requires |peers| <= MAX_PEERS
  {
    var (n, rest) := Campaign(Candidate1(id, peers), inbox);
    if !n.role.Leader? then None else Replicate(n, src, dst, rest)
  }

  // ---------- the transport afterwards ----------

  /** What is sent while campaigning. */
  function CampaignSent(n: Node, inbox: Inbox): seq<Send>
    requires Sized(n)
    decreases |inbox|
  {
    if n.role.Leader? || |inbox| == 0 then []
    else
      StepKeepsIdentity(n, inbox[0].0, inbox[0].1);
      var o := Step(n, inbox[0].0, inbox[0].1);
      o.sent + CampaignSent(o.node, inbox[1..])
  }

  /** What is sent while waiting for a commit, and what is left unread. */
  function GatherTraffic(n: Node, inbox: Inbox): (seq<Send>, Inbox)
    requires Sized(n)
    decreases |inbox|
  {
    if |inbox| == 0 then ([], [])
    else
      var o := Step(n, inbox[0].0, inbox[0].1);
      StepKeepsIdentity(n, inbox[0].0, inbox[0].1);
      if o.committed.Some? then (o.sent, inbox[1..])
      else
        var (sent, rest) := GatherTraffic(o.node, inbox[1..]);
        (o.sent + sent, rest)
  }

  function ReplicateTraffic(n: Node, src: NodeId, dst: NodeId, inbox: Inbox): (seq<Send>, Inbox)
    requires Sized(n)
  {
    var (r, o) := Propose(n, src, dst);
    ProposeKeepsIdentity(n, src, dst);
    if r.Err? || o.node.commit >= |o.node.log| then (o.sent, inbox)
    else
      var (sent, rest) := GatherTraffic(o.node, inbox);
      (o.sent + sent, rest)
  }

  /** What a round sends, and what it leaves unread. */
  function RoundTraffic(id: NodeId, peers: seq<NodeId>, src: NodeId, dst: NodeId, inbox: Inbox): (seq<Send>, Inbox)
    requires |peers| <= MAX_PEERS
  {
    var (n, rest) := Campaign(Candidate1(id, peers), inbox);
    var campaign := StartElection(NewNode(id, peers)).sent + CampaignSent(Candidate1(id, peers), inbox);
    if !n.role.Leader? then (campaign, rest)
    else
      var (sent, left) := ReplicateTraffic(n, src, dst, rest);
      (campaign + sent, left)
  }

  // ---------- the election ----------

  predicate IsGrant(m: Message) {
    m == RequestVoteReply(1, true)
  }

  /** Granted votes of term 1 among the messages. */
  function Grants(inbox: Inbox): nat {
    if |inbox| == 0 then 0 else Grants(inbox[1..]) + if IsGrant(inbox[0].1) then 1 else 0
  }

  /** The node is standing in term 1 and has done nothing else yet, or has just won, or will never lead. */
  ghost predicate Campaigning(n: Node, peers: seq<NodeId>) {
    && Sized(n) && n.peers == peers
    && (!n.role.Follower? ==> n.term == 1 && n.log == [] && n.commit == 0)
    && (n.role.Leader? ==> n.votes >= Quorum(|peers|) || |peers| == 0)
    && (n.role.Leader? ==> forall i :: 0 <= i < |peers| ==> n.matchIndex[i] == 0)
  }

  lemma CandidateStands(id: NodeId, peers: seq<NodeId>)
    requires |peers| <= MAX_PEERS
    ensures Campaigning(Candidate1(id, peers), peers) && Candidate1(id, peers).votes == 1
    ensures Candidate1(id, peers).role == if |peers| == 0 then Leader else Candidate
  {
  }

  /** No message makes a follower stand or lead again, and only a granted vote of term 1 counts. */
  lemma StepStands(n: Node, peers: seq<NodeId>, from: NodeId, msg: Message)
    requires Campaigning(n, peers) && !n.role.Leader?
    ensures var n' := Step(n, from, msg).node;
      && Campaigning(n', peers)
      && (!n'.role.Follower? ==> n.role.Candidate? && n'.votes == n.votes + if IsGrant(msg) then 1 else 0)
  {
    StepKeepsIdentity(n, from, msg);
  }

  lemma {:induction false} CampaignWins(n: Node, peers: seq<NodeId>, inbox: Inbox)
    requires Campaigning(n, peers)
    ensures var (n', rest) := Campaign(n, inbox);
      && Campaigning(n', peers)
      && (n'.role.Leader? ==> !n.role.Follower? && n'.votes + Grants(rest) == n.votes + Grants(inbox))
      && (exists k :: 0 <= k <= |inbox| && rest == inbox[k..])
    decreases |inbox|
  {
    if !n.role.Leader? && |inbox| > 0 {
      StepStands(n, peers, inbox[0].0, inbox[0].1);
      CampaignWins(Step(n, inbox[0].0, inbox[0].1).node, peers, inbox[1..]);
      var (n', rest) := Campaign(n, inbox);
      var k :| 0 <= k <= |inbox[1..]| && rest == inbox[1..][k..];
      assert inbox[1..][k..] == inbox[k + 1..];
    } else {
      assert inbox == inbox[0..];
    }
  }

  // ---------- replication ----------

  /** A message by which `peer` acknowledges index 1 in term 1. */
  predicate IsAck(m: (NodeId, Message), peer: NodeId) {
    m.0 == peer && m.1.AppendEntriesReply? && m.1.term == 1 && m.1.success && m.1.matchIndex >= 1
  }

  ghost predicate Acked(inbox: Inbox, peer: NodeId) {
    exists k :: 0 <= k < |inbox| && IsAck(inbox[k], peer)
  }

  /** Position `i` is the first one of its peer. */
  predicate First(peers: seq<NodeId>, i: nat) {
    i < |peers| && peers[i] !in peers[..i]
  }

  /** The node leads term 1 with just the proposed entry, and counts as acknowledged only what was; or it does not
      lead and will not. */
  ghost predicate Leading(n: Node, peers: seq<NodeId>, entry: Entry, seen: Inbox) {
    && Sized(n) && n.peers == peers && |peers| > 0 && entry.term == 1
    && !n.role.Candidate?
    && (n.role.Leader? ==> n.term == 1 && n.log == [entry] && n.commit == 0)
    && (n.role.Leader? ==>
        forall i :: 0 <= i < |peers| && n.matchIndex[i] >= 1 ==> First(peers, i) && Acked(seen, peers[i]))
  }

  lemma AckedMore(seen: Inbox, m: (NodeId, Message), peer: NodeId)
    ensures Acked(seen, peer) ==> Acked(seen + [m], peer)
    ensures IsAck(m, peer) ==> Acked(seen + [m], peer)
  {
    if Acked(seen, peer) {
      var k :| 0 <= k < |seen| && IsAck(seen[k], peer);
      assert IsAck((seen + [m])[k], peer);
    }
    if IsAck(m, peer) {
      assert IsAck((seen + [m])[|seen|], peer);
    }
  }

  /** Enough distinct peers acknowledged the entry in the messages, counting the node itself. */
  ghost predicate QuorumOf(peers: seq<NodeId>, inbox: Inbox, backers: set<NodeId>) {
    && 1 + |backers| >= Quorum(|peers|)
    && forall b :: b in backers ==> b in peers && Acked(inbox, b)
  }

  ghost predicate QuorumAcked(peers: seq<NodeId>, inbox: Inbox) {
    exists backers :: QuorumOf(peers, inbox, backers)
  }

  lemma CommittableAcked(n: Node, peers: seq<NodeId>, entry: Entry, seen: Inbox)
    requires Leading(n, peers, entry, seen) && n.role.Leader? && Committable(n, 1)
    ensures QuorumAcked(peers, seen)
  {
    var positions := AckedPeers(n, 1);
    PeersAtSize(peers, positions);
    assert QuorumOf(peers, seen, PeersAt(peers, positions));
  }

  /** An acknowledgement is recorded at the first position of its sender. */
  lemma RecordAck(n: Node, peers: seq<NodeId>, entry: Entry, seen: Inbox, m: (NodeId, Message), i: nat)
    requires Leading(n, peers, entry, seen) && n.role.Leader?
    requires m.1.AppendEntriesReply? && m.1.term == 1 && m.1.success && IndexOf(peers, m.0) == Some(i)
    ensures Leading(n.(nextIndex := n.nextIndex[i := m.1.matchIndex + 1],
              matchIndex := n.matchIndex[i := m.1.matchIndex]),
                    peers, entry, seen + [m])
  {
    var n1 := n.(nextIndex := n.nextIndex[i := m.1.matchIndex + 1], matchIndex := n.matchIndex[i := m.1.matchIndex]);
    forall k | 0 <= k < |peers| && n1.matchIndex[k] >= 1
      ensures First(peers, k) && Acked(seen + [m], peers[k])
    {
      AckedMore(seen, m, peers[k]);
    }
  }

  lemma LeadingMore(n: Node, peers: seq<NodeId>, entry: Entry, seen: Inbox, m: (NodeId, Message))
    requires Leading(n, peers, entry, seen)
    ensures Leading(n, peers, entry, seen + [m])
  {
    forall k | 0 <= k < |peers| && n.role.Leader? && n.matchIndex[k] >= 1
      ensures First(peers, k) && Acked(seen + [m], peers[k])
    {
      AckedMore(seen, m, peers[k]);
    }
  }

  /** Any message but a counted acknowledgement leaves the leader as it is, up to the next index, or deposes it. */
  lemma OtherMessage(n: Node, peers: seq<NodeId>, entry: Entry, seen: Inbox, m: (NodeId, Message))
    requires Leading(n, peers, entry, seen)
    requires !(n.role.Leader? && m.1.AppendEntriesReply? && m.1.term == 1 && m.1.success && m.0 in peers)
    ensures var o := Step(n, m.0, m.1); o.committed.None? && Leading(o.node, peers, entry, seen)
  {
    StepKeepsIdentity(n, m.0, m.1);
  }

  lemma StepLeads(n: Node, peers: seq<NodeId>, entry: Entry, seen: Inbox, m: (NodeId, Message))
    requires Leading(n, peers, entry, seen)
    ensures var o := Step(n, m.0, m.1);
      && (o.committed.None? ==> Leading(o.node, peers, entry, seen + [m]))
      && (o.committed.Some? ==> o.committed == Some(entry) && QuorumAcked(peers, seen + [m]))
  {
    if n.role.Leader? && m.1.AppendEntriesReply? && m.1.term == 1 && m.1.success && m.0 in peers {
      AckLeads(n, peers, entry, seen, m);
    } else {
      OtherMessage(n, peers, entry, seen, m);
      LeadingMore(Step(n, m.0, m.1).node, peers, entry, seen, m);
    }
  }

  lemma AckLeads(n: Node, peers: seq<NodeId>, entry: Entry, seen: Inbox, m: (NodeId, Message))
    requires Leading(n, peers, entry, seen) && n.role.Leader?
    requires m.1.AppendEntriesReply? && m.1.term == 1 && m.1.success && m.0 in peers
    ensures var o := Step(n, m.0, m.1);
      && (o.committed.None? ==> Leading(o.node, peers, entry, seen + [m]))
      && (o.committed.Some? ==> o.committed == Some(entry) && QuorumAcked(peers, seen + [m]))
  {
    var i := IndexOf(peers, m.0).value;
    var n1 := n.(nextIndex := n.nextIndex[i := m.1.matchIndex + 1], matchIndex := n.matchIndex[i := m.1.matchIndex]);
    RecordAck(n, peers, entry, seen, m, i);
    var c := HighestCommittable(n1, 1);
    if c == 1 {
      CommittableAcked(n1, peers, entry, seen + [m]);
    }
  }

  lemma {:induction false} GatherSound(n: Node, peers: seq<NodeId>, entry: Entry, seen: Inbox, inbox: Inbox)
    requires Leading(n, peers, entry, seen)
    ensures Gather(n, inbox).Some? ==> Gather(n, inbox) == Some(entry) && QuorumAcked(peers, seen + inbox)
    decreases |inbox|
  {
    if |inbox| > 0 {
      var m := inbox[0];
      StepLeads(n, peers, entry, seen, m);
      assert seen + inbox == seen + [m] + inbox[1..];
      if Step(n, m.0, m.1).committed.None? {
        GatherSound(Step(n, m.0, m.1).node, peers, entry, seen + [m], inbox[1..]);
      } else {
        QuorumAckedMore(peers, seen + [m], inbox[1..]);
      }
    }
  }

  lemma QuorumAckedMore(peers: seq<NodeId>, seen: Inbox, more: Inbox)
    requires QuorumAcked(peers, seen)
    ensures QuorumAcked(peers, seen + more)
  {
    var backers :| QuorumOf(peers, seen, backers);
    forall b | b in backers
      ensures Acked(seen + more, b)
    {
      var k :| 0 <= k < |seen| && IsAck(seen[k], b);
      assert IsAck((seen + more)[k], b);
    }
    assert QuorumOf(peers, seen + more, backers);
  }

  // ---------- what a committed round means ----------

  lemma AckedSuffix(inbox: Inbox, k: nat, peers: seq<NodeId>)
    requires k <= |inbox| && QuorumAcked(peers, inbox[k..])
    ensures QuorumAcked(peers, inbox)
  {
    var backers :| QuorumOf(peers, inbox[k..], backers);
    forall b | b in backers
      ensures Acked(inbox, b)
    {
      var j :| 0 <= j < |inbox[k..]| && IsAck(inbox[k..][j], b);
      assert IsAck(inbox[k + j], b);
    }
    assert QuorumOf(peers, inbox, backers);
  }

  /** Whatever the messages are: a round that commits, commits exactly the proposed edge in term 1. With peers, at
      least a quorum minus one of the messages were granted votes of term 1, and a quorum of the node and distinct
      peers acknowledged the entry. */
  lemma RoundSound(id: NodeId, peers: seq<NodeId>, src: NodeId, dst: NodeId, inbox: Inbox)
    requires |peers| <= MAX_PEERS && Round(id, peers, src, dst, inbox).Some?
    ensures Round(id, peers, src, dst, inbox) == Some(Entry(1, src, dst))
    ensures |peers| > 0 ==> 1 + Grants(inbox) >= Quorum(|peers|) && QuorumAcked(peers, inbox)
  {
    var n0 := Candidate1(id, peers);
    CandidateStands(id, peers);
    CampaignWins(n0, peers, inbox);
    var (n, rest) := Campaign(n0, inbox);
    if |peers| > 0 {
      var entry := Entry(1, src, dst);
      ProposalLeads(n, peers, src, dst);
      GatherSound(Propose(n, src, dst).1.node, peers, entry, [], rest);
      var k :| 0 <= k <= |inbox| && rest == inbox[k..];
      assert [] + rest == inbox[k..];
      AckedSuffix(inbox, k, peers);
    }
  }

  lemma ProposalLeads(n: Node, peers: seq<NodeId>, src: NodeId, dst: NodeId)
    requires Campaigning(n, peers) && n.role.Leader? && |peers| > 0
    ensures var (r, o) := Propose(n, src, dst);
      r.Ok? && Leading(o.node, peers, Entry(1, src, dst), []) && o.node.commit < |o.node.log|
  {
    assert n.log + [Entry(1, src, dst)] == [Entry(1, src, dst)];
  }

  // ---------- and when it is certain to commit ----------

  /** A message that neither deposes the node in term 1 nor takes an acknowledgement back. */
  predicate Harmless(m: Message) {
    match m
    case RequestVote(term, _, _, _) => term <= 1
    case RequestVoteReply(term, _) => term <= 1
    case AppendEntries(term, _, _, _, _, _) => term < 1
    case AppendEntriesReply(term, success, matchIndex) => term <= 1 && (term == 1 && success ==> matchIndex >= 1)
  }

  ghost predicate AllHarmless(inbox: Inbox) {
    forall k :: 0 <= k < |inbox| ==> Harmless(inbox[k].1)
  }

  lemma CandidateSteps(n: Node, peers: seq<NodeId>, m: (NodeId, Message))
    requires Campaigning(n, peers) && n.role.Candidate? && n.votedFor.Some? && |peers| > 0
    requires n.votes < Quorum(|peers|) && Harmless(m.1)
    ensures var n' := Step(n, m.0, m.1).node;
      && Campaigning(n', peers) && n'.votedFor.Some?
      && n'.votes == n.votes + (if IsGrant(m.1) then 1 else 0)
      && n'.role == if n'.votes >= Quorum(|peers|) then Leader else Candidate
  {
    StepStands(n, peers, m.0, m.1);
  }

  /** A candidate that still needs no more votes than the first part of the messages grants is elected within it. */
  lemma {:induction false} CampaignElected(n: Node, peers: seq<NodeId>, votes: Inbox, acks: Inbox) returns (k: nat)
    requires Campaigning(n, peers) && n.role.Candidate? && n.votedFor.Some? && |peers| > 0
    requires n.votes < Quorum(|peers|) <= n.votes + Grants(votes) && AllHarmless(votes)
    ensures var (n', rest) := Campaign(n, votes + acks);
      n'.role.Leader? && n'.votedFor.Some? && Campaigning(n', peers) && k <= |votes| && rest == votes[k..] + acks
    decreases |votes|
  {
    var m, inbox := votes[0], votes + acks;
    assert inbox[0] == m && inbox[1..] == votes[1..] + acks;
    CandidateSteps(n, peers, m);
    var n' := Step(n, m.0, m.1).node;
    if n'.votes >= Quorum(|peers|) {
      k := 1;
    } else {
      k := CampaignElected(n', peers, votes[1..], acks);
      assert votes[1..][k..] == votes[k + 1..];
      k := k + 1;
    }
  }

  /** The node counts an acknowledgement of the peer. */
  predicate Counted(n: Node, peers: seq<NodeId>, peer: NodeId)
    requires Sized(n) && n.peers == peers
  {
    var i := IndexOf(peers, peer);
    i.Some? && n.matchIndex[i.value] >= 1
  }

  function FirstPositions(peers: seq<NodeId>, ids: set<NodeId>): set<nat> {
    set i: nat | i < |peers| && First(peers, i) && peers[i] in ids
  }

  /** Enough counted peers make the entry committable. */
  lemma CountedCommittable(n: Node, peers: seq<NodeId>, entry: Entry, seen: Inbox, backers: set<NodeId>)
    requires Leading(n, peers, entry, seen) && n.role.Leader? && 1 + |backers| >= Quorum(|peers|)
    requires forall b :: b in backers ==> Counted(n, peers, b)
    ensures Committable(n, 1)
  {
    var positions := FirstPositions(peers, backers);
    forall b | b in backers
      ensures b in PeersAt(peers, positions)
    {
      var i := IndexOf(peers, b).value;
      assert First(peers, i) && i in positions;
    }
    PeersAtSize(peers, positions);
    SubsetSize(backers, PeersAt(peers, positions));
    FirstAreAcked(n, peers, backers);
    SubsetSize(positions, AckedPeers(n, 1));
  }

  lemma FirstAreAcked(n: Node, peers: seq<NodeId>, backers: set<NodeId>)
    requires Sized(n) && n.peers == peers && forall b :: b in backers ==> Counted(n, peers, b)
    ensures FirstPositions(peers, backers) <= AckedPeers(n, 1)
  {
    forall i | i in FirstPositions(peers, backers)
      ensures i in AckedPeers(n, 1)
    {
      var k := IndexOf(peers, peers[i]).value;
      assert Counted(n, peers, peers[i]);
      assert peers[k] == peers[i] && k == i;
    }
  }

  /** A harmless message leaves the leader leading; it counts one more acknowledgement or none, and forgets none. */
  lemma LeaderSteps(n: Node, peers: seq<NodeId>, entry: Entry, seen: Inbox, m: (NodeId, Message), peer: NodeId)
    requires Leading(n, peers, entry, seen) && n.role.Leader? && n.votedFor.Some? && !Committable(n, 1) && Harmless(m.1)
    ensures var o := Step(n, m.0, m.1);
      o.committed.None? ==>
        && o.node.role.Leader? && o.node.votedFor.Some? && Sized(o.node)
        && o.node.peers == peers && !Committable(o.node, 1)
        && (Counted(n, peers, peer) ==> Counted(o.node, peers, peer))
        && (peer in peers && IsAck(m, peer) ==> Counted(o.node, peers, peer))
  {
    if m.1.AppendEntriesReply? && m.1.term == 1 && m.1.success && m.0 in peers {
      var i := IndexOf(peers, m.0).value;
      var n1 := n.(nextIndex := n.nextIndex[i := m.1.matchIndex + 1], matchIndex := n.matchIndex[i := m.1.matchIndex]);
      var c := HighestCommittable(n1, 1);
      assert Step(n, m.0, m.1).node == n1.(commit := c);
      assert Committable(n1.(commit := c), 1) == Committable(n1, 1);
    } else {
      QuietStep(n, peers, entry, seen, m);
    }
  }

  lemma QuietStep(n: Node, peers: seq<NodeId>, entry: Entry, seen: Inbox, m: (NodeId, Message))
    requires Leading(n, peers, entry, seen) && n.role.Leader? && n.votedFor.Some? && Harmless(m.1)
    requires !(m.1.AppendEntriesReply? && m.1.term == 1 && m.1.success && m.0 in peers)
    ensures var n' := Step(n, m.0, m.1).node;
      && Sized(n') && n'.role.Leader? && n'.votedFor.Some? && n'.peers == peers && n'.matchIndex == n.matchIndex
      && n'.log == n.log && n'.term == n.term && (Committable(n', 1) ==> Committable(n, 1))
  {
    StepKeepsIdentity(n, m.0, m.1);
    var n' := Step(n, m.0, m.1).node;
    assert AckedPeers(n', 1) == AckedPeers(n, 1);
  }

  ghost predicate Expected(n: Node, peers: seq<NodeId>, inbox: Inbox, backers: set<NodeId>)
    requires Sized(n) && n.peers == peers
  {
    && 1 + |backers| >= Quorum(|peers|)
    && forall b :: b in backers ==> b in peers && (Counted(n, peers, b) || Acked(inbox, b))
  }

  lemma StillExpected(n: Node, peers: seq<NodeId>, entry: Entry, seen: Inbox, inbox: Inbox, backers: set<NodeId>)
    requires Leading(n, peers, entry, seen) && n.role.Leader? && n.votedFor.Some? && !Committable(n, 1) && |inbox| > 0
    requires Harmless(inbox[0].1) && Expected(n, peers, inbox, backers)
    requires Step(n, inbox[0].0, inbox[0].1).committed.None?
    ensures var n' := Step(n, inbox[0].0, inbox[0].1).node;
      Sized(n') && n'.peers == peers && Expected(n', peers, inbox[1..], backers)
  {
    var n' := Step(n, inbox[0].0, inbox[0].1).node;
    StepKeepsIdentity(n, inbox[0].0, inbox[0].1);
    forall b | b in backers
      ensures b in peers && (Counted(n', peers, b) || Acked(inbox[1..], b))
    {
      LeaderSteps(n, peers, entry, seen, inbox[0], b);
      if !Counted(n, peers, b) {
        var k :| 0 <= k < |inbox| && IsAck(inbox[k], b);
        assert k > 0 ==> IsAck(inbox[1..][k - 1], b);
      }
    }
  }

  lemma {:induction false} GatherCommits(n: Node, peers: seq<NodeId>, entry: Entry, seen: Inbox, inbox: Inbox,
        backers: set<NodeId>)
    requires Leading(n, peers, entry, seen) && n.role.Leader? && n.votedFor.Some? && !Committable(n, 1)
    requires AllHarmless(inbox) && Expected(n, peers, inbox, backers)
    ensures Gather(n, inbox).Some?
    decreases |inbox|
  {
    if |inbox| == 0 {
      CountedCommittable(n, peers, entry, seen, backers);
    } else if Step(n, inbox[0].0, inbox[0].1).committed.None? {
      StillExpected(n, peers, entry, seen, inbox, backers);
      LeaderSteps(n, peers, entry, seen, inbox[0], 1);
      StepLeads(n, peers, entry, seen, inbox[0]);
      GatherCommits(Step(n, inbox[0].0, inbox[0].1).node, peers, entry, seen + [inbox[0]], inbox[1..], backers);
    }
  }

  /** The counterpart of `RoundSound`: enough granted votes, and after them acknowledgements from enough distinct peers,
      commit the edge, whatever harmless messages come in between. A node without peers commits whatever it receives. */
  lemma RoundComplete(id: NodeId, peers: seq<NodeId>, src: NodeId, dst: NodeId, votes: Inbox, acks: Inbox)
    requires |peers| <= MAX_PEERS
    requires |peers| > 0 ==>
      AllHarmless(votes) && AllHarmless(acks) && 1 + Grants(votes) >= Quorum(|peers|) && QuorumAcked(peers, acks)
    ensures Round(id, peers, src, dst, votes + acks) == Some(Entry(1, src, dst))
  {
    CandidateStands(id, peers);
    if |peers| > 0 {
      var n0 := Candidate1(id, peers);
      var k := CampaignElected(n0, peers, votes, acks);
      var n := Campaign(n0, votes + acks).0;
      WinnerCommits(n, peers, src, dst, votes[k..], acks);
    }
    RoundSound(id, peers, src, dst, votes + acks);
  }

  lemma WinnerCommits(n: Node, peers: seq<NodeId>, src: NodeId, dst: NodeId, left: Inbox, acks: Inbox)
    requires Campaigning(n, peers) && n.role.Leader? && n.votedFor.Some? && |peers| > 0
    requires AllHarmless(left) && AllHarmless(acks) && QuorumAcked(peers, acks)
    ensures Replicate(n, src, dst, left + acks).Some?
  {
    ProposalLeads(n, peers, src, dst);
    var n1 := Propose(n, src, dst).1.node;
    assert AckedPeers(n1, 1) == {};
    var backers :| QuorumOf(peers, acks, backers);
    forall b | b in backers
      ensures Acked(left + acks, b)
    {
      var k :| 0 <= k < |acks| && IsAck(acks[k], b);
      assert IsAck((left + acks)[|left| + k], b);
    }
    GatherCommits(n1, peers, Entry(1, src, dst), [], left + acks, backers);
  }
}
