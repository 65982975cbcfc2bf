/** What a round puts on the wire and takes from it. */
module ConsensusTraffic {
  import opened Types
  import opened RaftSpec
  import opened ConsensusSpec

  /** The messages are sent, in any order and among others. */
  ghost predicate SentToAll(sent: seq<Send>, peers: seq<NodeId>, msg: Message) {
    forall i :: 0 <= i < |peers| ==> Send(peers[i], msg) in sent
  }

  /** A round begins by asking every peer for its vote in term 1, for an empty log. */
  lemma RoundAsks(id: NodeId, peers: seq<NodeId>, src: NodeId, dst: NodeId, inbox: Inbox)
    requires |peers| <= MAX_PEERS
    ensures var sent := RoundTraffic(id, peers, src, dst, inbox).0;
      |peers| <= |sent| && forall i :: 0 <= i < |peers| ==> sent[i] == Send(peers[i], RequestVote(1, id, 0, 0))
  {
    var asked := StartElection(NewNode(id, peers)).sent;
    assert |asked| == |peers|;
    forall i | 0 <= i < |peers|
      ensures asked[i] == Send(peers[i], RequestVote(1, id, 0, 0))
    {
    }
    assert asked <= RoundTraffic(id, peers, src, dst, inbox).0;
  }

  lemma StepIntoLead(n: Node, from: NodeId, msg: Message)
    requires Sized(n) && !n.role.Leader?
    ensures var n' := Step(n, from, msg).node;
      && n'.id == n.id && n'.peers == n.peers
      && (n'.role.Leader? ==> forall i :: 0 <= i < |n.peers| ==> n'.nextIndex[i] == |n'.log| + 1)
  {
  }

  /** A node that wins a campaign sends every peer what comes behind its whole log. */
  lemma {:induction false} WonCampaign(n: Node, inbox: Inbox)
    requires Sized(n) && !n.role.Leader?
    ensures var n' := Campaign(n, inbox).0;
      && n'.id == n.id && n'.peers == n.peers
      && (n'.role.Leader? ==> forall i :: 0 <= i < |n.peers| ==> n'.nextIndex[i] == |n'.log| + 1)
    decreases |inbox|
  {
    if |inbox| > 0 {
      var n1 := Step(n, inbox[0].0, inbox[0].1).node;
      StepIntoLead(n, inbox[0].0, inbox[0].1);
      StepKeepsIdentity(n, inbox[0].0, inbox[0].1);
      if !n1.role.Leader? {
        WonCampaign(n1, inbox[1..]);
      }
    }
  }

  lemma ProposalSent(n: Node, src: NodeId, dst: NodeId, i: nat)
    requires Sized(n) && n.role.Leader? && n.term == 1 && n.log == [] && n.commit == 0
    requires i < |n.peers| && n.nextIndex[i] == 1
    ensures var o := Propose(n, src, dst).1;
      i < |o.sent| && o.sent[i] == Send(n.peers[i], AppendEntries(1, n.id, 0, 0, [Entry(1, src, dst)], 0))
  {
  }

  lemma ProposalSentToAll(n: Node, src: NodeId, dst: NodeId)
    requires Sized(n) && n.role.Leader? && n.term == 1 && n.log == [] && n.commit == 0
    requires forall i :: 0 <= i < |n.peers| ==> n.nextIndex[i] == 1
    ensures SentToAll(Propose(n, src, dst).1.sent, n.peers, AppendEntries(1, n.id, 0, 0, [Entry(1, src, dst)], 0))
  {
    var sent := Propose(n, src, dst).1.sent;
    forall i | 0 <= i < |n.peers|
      ensures Send(n.peers[i], AppendEntries(1, n.id, 0, 0, [Entry(1, src, dst)], 0)) in sent
    {
      ProposalSent(n, src, dst, i);
      assert sent[i] in sent;
    }
  }

  /** A round that is won sends every peer the edge as the first entry. */
  lemma RoundProposes(id: NodeId, peers: seq<NodeId>, src: NodeId, dst: NodeId, inbox: Inbox)
    requires 0 < |peers| <= MAX_PEERS && Campaign(Candidate1(id, peers), inbox).0.role.Leader?
    ensures var sent := RoundTraffic(id, peers, src, dst, inbox).0;
      SentToAll(sent, peers, AppendEntries(1, id, 0, 0, [Entry(1, src, dst)], 0))
  {
    var n0 := Candidate1(id, peers);
    var (n, rest) := Campaign(n0, inbox);
    CandidateStands(id, peers);
    CampaignWins(n0, peers, inbox);
    WonCampaign(n0, inbox);
    ProposalSentToAll(n, src, dst);
    var proposed := Propose(n, src, dst).1.sent;
    var replicated := ReplicateTraffic(n, src, dst, rest).0;
    assert proposed <= replicated;
    forall s | s in proposed
      ensures s in RoundTraffic(id, peers, src, dst, inbox).0
    {
      assert s in replicated;
    }
  }

  // ---------- what is read ----------

  /** The rest is what remains after some of the messages were read. */
  ghost predicate Unread(inbox: Inbox, rest: Inbox) {
    exists k :: 0 <= k <= |inbox| && rest == inbox[k..]
  }

  lemma UnreadFurther(inbox: Inbox, rest: Inbox)
    requires |inbox| > 0 && Unread(inbox[1..], rest)
    ensures Unread(inbox, rest)
  {
    var k :| 0 <= k <= |inbox[1..]| && rest == inbox[1..][k..];
    assert rest == inbox[k + 1..];
  }

  lemma {:induction false} CampaignReads(n: Node, inbox: Inbox)
    requires Sized(n)
    ensures Unread(inbox, Campaign(n, inbox).1)
    ensures !Campaign(n, inbox).0.role.Leader? ==> Campaign(n, inbox).1 == []
    decreases |inbox|
  {
    if n.role.Leader? || |inbox| == 0 {
      assert inbox == inbox[0..];
    } else {
      StepKeepsIdentity(n, inbox[0].0, inbox[0].1);
      CampaignReads(Step(n, inbox[0].0, inbox[0].1).node, inbox[1..]);
      UnreadFurther(inbox, Campaign(n, inbox).1);
    }
  }

  lemma {:induction false} GatherReads(n: Node, inbox: Inbox)
    requires Sized(n)
    ensures Unread(inbox, GatherTraffic(n, inbox).1)
    ensures Gather(n, inbox).None? ==> GatherTraffic(n, inbox).1 == []
    decreases |inbox|
  {
    if |inbox| == 0 {
      assert inbox == inbox[0..];
    } else {
      var o := Step(n, inbox[0].0, inbox[0].1);
      StepKeepsIdentity(n, inbox[0].0, inbox[0].1);
      if o.committed.None? {
        GatherReads(o.node, inbox[1..]);
        UnreadFurther(inbox, GatherTraffic(n, inbox).1);
      }
    }
  }

  lemma UnreadTwice(inbox: Inbox, middle: Inbox, rest: Inbox)
    requires Unread(inbox, middle) && Unread(middle, rest)
    ensures Unread(inbox, rest)
  {
    var k :| 0 <= k <= |inbox| && middle == inbox[k..];
    var m :| 0 <= m <= |middle| && rest == middle[m..];
    assert rest == inbox[k + m..];
  }

  /** A round reads messages from the front, and gives up only when none is left. */
  lemma RoundReads(id: NodeId, peers: seq<NodeId>, src: NodeId, dst: NodeId, inbox: Inbox)
    requires |peers| <= MAX_PEERS
    ensures var rest := RoundTraffic(id, peers, src, dst, inbox).1;
      Unread(inbox, rest) && (Round(id, peers, src, dst, inbox).None? ==> rest == [])
  {
    var n0 := Candidate1(id, peers);
    var (n, middle) := Campaign(n0, inbox);
    CandidateStands(id, peers);
    CampaignWins(n0, peers, inbox);
    CampaignReads(n0, inbox);
    if n.role.Leader? {
      var (r, o) := Propose(n, src, dst);
      ProposeKeepsIdentity(n, src, dst);
      assert middle == middle[0..];
      GatherReads(o.node, middle);
      UnreadTwice(inbox, middle, ReplicateTraffic(n, src, dst, middle).1);
    }
  }
}
