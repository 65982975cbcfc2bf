/** `run_topology_consensus`: the local gate, one Raft round over a transport, and the audit log. */
module Driver {
  import opened Types
  import opened Audit
  import opened Boot
  import opened RaftNode
  import opened ConsensusSpec
  import R = RaftSpec

  function ChangeRequest(src: NodeId, committed: bool): Request {
    Request(TopologyChange, src, UNTIMED,
            if committed then None else Some((Halt, "topology consensus not reached")))
  }

  /** The log after the call: one record of the local gate, and one of the round when it took place. */
  function LogAfter(h: Hash, log: seq<Event>, gate: Result<()>, src: NodeId, committed: bool): seq<Event> {
    var traversed := Appended(h, log, Request(TopologyTraverse, src, UNTIMED, DenialOf(gate)));
    if gate.Err? || |log| >= MAX_AUDIT_EVENTS then traversed
    else Appended(h, traversed, ChangeRequest(src, committed))
  }

  /** One turn of the first loop. */
  lemma OneMessage(n: R.Node, inbox: Inbox, sent: seq<R.Send>)
    requires R.Sized(n) && n.role != R.Leader && |inbox| > 0
    ensures var o := R.Step(n, inbox[0].0, inbox[0].1);
      && R.Sized(o.node) && Campaign(n, inbox) == Campaign(o.node, inbox[1..])
      && sent + CampaignSent(n, inbox) == sent + o.sent + CampaignSent(o.node, inbox[1..])
  {
    R.StepKeepsIdentity(n, inbox[0].0, inbox[0].1);
    var o := R.Step(n, inbox[0].0, inbox[0].1);
    Joined(sent, o.sent, CampaignSent(o.node, inbox[1..]));
  }

  /** Reads messages until the node leads. */
  method Elect(node: RaftNode, transport: Transport)
    requires node.Valid()
    modifies node, node.log, node.nextIndex, node.matchIndex, transport
    ensures node.Valid()
    ensures (node.State(), transport.inbox) == Campaign(old(node.State()), old(transport.inbox))
    ensures transport.sent == old(transport.sent) + CampaignSent(old(node.State()), old(transport.inbox))
  {
    ghost var goal := Campaign(node.State(), transport.inbox);
    ghost var sent := transport.sent + CampaignSent(node.State(), transport.inbox);
    while node.role != R.Leader && |transport.inbox| > 0
      invariant node.Valid() && goal == Campaign(node.State(), transport.inbox)
      invariant sent == transport.sent + CampaignSent(node.State(), transport.inbox)
      decreases |transport.inbox|
    {
      ghost var n, inbox, before := node.State(), transport.inbox, transport.sent;
      var m := transport.Recv();
      var _ := node.Step(m.value.0, m.value.1, transport);
      OneMessage(n, inbox, before);
    }
  }

  /** One turn of the second loop. */
  lemma OneReply(n: R.Node, inbox: Inbox, sent: seq<R.Send>)
    requires R.Sized(n) && |inbox| > 0
    ensures var o := R.Step(n, inbox[0].0, inbox[0].1);
            var (more, rest) := GatherTraffic(n, inbox);
      && R.Sized(o.node)
      && (o.committed.Some? ==> Gather(n, inbox).Some? && sent + more == sent + o.sent && rest == inbox[1..])
      && (o.committed.None? ==>
            && Gather(n, inbox) == Gather(o.node, inbox[1..]) && rest == GatherTraffic(o.node, inbox[1..]).1
            && sent + more == sent + o.sent + GatherTraffic(o.node, inbox[1..]).0)
  {
    R.StepKeepsIdentity(n, inbox[0].0, inbox[0].1);
    var o := R.Step(n, inbox[0].0, inbox[0].1);
    Joined(sent, o.sent, GatherTraffic(o.node, inbox[1..]).0);
  }

  /** Reads messages until one of them commits an entry. */
  method AwaitCommit(node: RaftNode, transport: Transport) returns (committed: bool)
    requires node.Valid()
    modifies node, node.log, node.nextIndex, node.matchIndex, transport
    ensures node.Valid()
    ensures committed <==> Gather(old(node.State()), old(transport.inbox)).Some?
    ensures var (sent, rest) := GatherTraffic(old(node.State()), old(transport.inbox));
      transport.sent == old(transport.sent) + sent && transport.inbox == rest
  {
    ghost var goal := Gather(node.State(), transport.inbox);
    ghost var traffic := GatherTraffic(node.State(), transport.inbox);
    while |transport.inbox| > 0
      invariant node.Valid() && goal == Gather(node.State(), transport.inbox)
      invariant old(transport.sent) + traffic.0 == transport.sent + GatherTraffic(node.State(), transport.inbox).0
      invariant traffic.1 == GatherTraffic(node.State(), transport.inbox).1
      decreases |transport.inbox|
    {
      ghost var n, inbox, before := node.State(), transport.inbox, transport.sent;
      var m := transport.Recv();
      var entry := node.Step(m.value.0, m.value.1, transport);
      OneReply(n, inbox, before);
      if entry.Some? {
        return true;
      }
    }
    return false;
  }

  /** A node that has just won proposes the edge and waits for it to commit. */
  method ProposeAndAwait(node: RaftNode, src: NodeId, dst: NodeId, transport: Transport) returns (committed: bool)
    requires node.Valid() && Campaigning(node.State(), node.peers) && node.role == R.Leader
    modifies node, node.log, node.nextIndex, node.matchIndex, transport
    ensures committed <==> Replicate(old(node.State()), src, dst, old(transport.inbox)).Some?
    ensures var (sent, rest) := ReplicateTraffic(old(node.State()), src, dst, old(transport.inbox));
      transport.sent == old(transport.sent) + sent && transport.inbox == rest
  {
    var proposed := node.Propose(src, dst, transport);
    assert proposed.Ok?;  // a node that has just won has an empty log
    if node.commitIndex >= |node.log.entries| {
      return true;
    }
    committed := AwaitCommit(node, transport);
  }

  lemma Joined(a: seq<R.Send>, b: seq<R.Send>, c: seq<R.Send>)
    ensures a + b + c == a + (b + c)
  {
  }

  /** A fresh node stands for election and reads messages until it leads or none is left. */
  method Stand(id: NodeId, peers: seq<NodeId>, transport: Transport) returns (node: RaftNode)
    requires |peers| <= R.MAX_PEERS
    modifies transport
    ensures fresh(node) && fresh(node.log) && fresh(node.nextIndex) && fresh(node.matchIndex)
    ensures node.Valid() && node.peers == peers && Campaigning(node.State(), peers)
    ensures (node.State(), transport.inbox) == Campaign(Candidate1(id, peers), old(transport.inbox))
    ensures transport.sent
      == old(transport.sent)
         + (R.StartElection(R.NewNode(id, peers)).sent + CampaignSent(Candidate1(id, peers), old(transport.inbox)))
  {
    node := new RaftNode(id, peers);
    node.StartElection(transport);
    CandidateStands(id, peers);
    CampaignWins(node.State(), peers, transport.inbox);
    Joined(old(transport.sent), R.StartElection(R.NewNode(id, peers)).sent,
      CampaignSent(node.State(), transport.inbox));
    Elect(node, transport);
  }

  /** The round itself. */
  method RunRound(id: NodeId, peers: seq<NodeId>, src: NodeId, dst: NodeId, transport: Transport)
    returns (committed: bool)
    requires |peers| <= R.MAX_PEERS
    modifies transport
    ensures committed <==> Round(id, peers, src, dst, old(transport.inbox)).Some?
    ensures var (sent, rest) := RoundTraffic(id, peers, src, dst, old(transport.inbox));
      transport.sent == old(transport.sent) + sent && transport.inbox == rest
  {
    var node := Stand(id, peers, transport);
    if node.role != R.Leader {
      return false;
    }
    Joined(old(transport.sent),
           R.StartElection(R.NewNode(id, peers)).sent + CampaignSent(Candidate1(id, peers), old(transport.inbox)),
           ReplicateTraffic(node.State(), src, dst, transport.inbox).0);
    committed := ProposeAndAwait(node, src, dst, transport);
  }

  /** For every finite inbox of arbitrary messages the call ends. It answers `Ok` exactly when the edge is in the
      sealed graph, the log had room for the record of the traversal, and the round commits. */
  method RunTopologyConsensus(boot: BootState, peers: seq<NodeId>, src: NodeId, dst: NodeId,
                              transport: Transport, audit: AuditLog) returns (r: Result<()>)
    requires boot.Valid() && audit.Valid() && |peers| <= R.MAX_PEERS
    modifies transport, audit
    ensures audit.Valid()
    ensures r.Ok? <==>
      && (src, dst) in boot.graph.Edges()
      && |old(audit.events)| < MAX_AUDIT_EVENTS
      && Round(boot.localId, peers, src, dst, old(transport.inbox)).Some?
    ensures r.Err? ==> r.error == TopologyViolation(src, dst)
    ensures (src, dst) in boot.graph.Edges() && |old(audit.events)| < MAX_AUDIT_EVENTS ==>
      var (sent, rest) := RoundTraffic(boot.localId, peers, src, dst, old(transport.inbox));
      transport.sent == old(transport.sent) + sent && transport.inbox == rest
    ensures !((src, dst) in boot.graph.Edges() && |old(audit.events)| < MAX_AUDIT_EVENTS) ==>
      transport.sent == old(transport.sent) && transport.inbox == old(transport.inbox)
    ensures audit.events == LogAfter(audit.h, old(audit.events), boot.graph.TraverseInner(src, dst), src, r.Ok?)
  {
    var local := boot.graph.Traverse(src, dst, audit);
    if local.Err? {
      return Err(TopologyViolation(src, dst));
    }
    var committed := RunRound(boot.localId, peers, src, dst, transport);
    var denial := if committed then None else Some((Halt, "topology consensus not reached"));
    var _ := audit.Append(TopologyChange, src, UNTIMED, denial);
    return if committed then Ok(()) else Err(TopologyViolation(src, dst));
  }

  /** What the log says when the local gate refuses: a denied traversal, and nothing of a change. */
  lemma RefusalLogged(h: Hash, log: seq<Event>, src: NodeId, error: Error, committed: bool)
    requires |log| < 512
    ensures var after := LogAfter(h, log, Err(error), src, committed);
      && |after| == |log| + 1 && log <= after
      && Says(after[|log|], TopologyTraverse, src, Some((error.Class(), error.Reason())))
  {
    AppendSays(h, log, TopologyTraverse, src, Some((error.Class(), error.Reason())));
  }

  lemma Stacked(log: seq<Event>, one: seq<Event>, two: seq<Event>)
    requires log <= one <= two && |one| == |log| + 1
    ensures log <= two && two[|log|] == one[|log|]
  {
  }

  lemma RoundLogIs(h: Hash, log: seq<Event>, src: NodeId, committed: bool, denial: Denial)
    requires |log| < 512 && denial == if committed then None else Some((Halt, "topology consensus not reached"))
    ensures LogAfter(h, log, Ok(()), src, committed)
      == Appended(h, Appended(h, log, Request(TopologyTraverse, src, UNTIMED, None)),
                  Request(TopologyChange, src, UNTIMED, denial))
  {
  }

  /** What the log says of a round: the traversal as permitted, and behind it, if there is room, the change, permitted
      if the round committed and otherwise denied, with a denial that halts. */
  lemma RoundLogged(h: Hash, log: seq<Event>, src: NodeId, committed: bool)
    requires |log| < 512
    ensures var after := LogAfter(h, log, Ok(()), src, committed);
            var denial := if committed then None else Some((Halt, "topology consensus not reached"));
      && |after| == (if |log| < 511 then |log| + 2 else |log| + 1) && log <= after
      && Says(after[|log|], TopologyTraverse, src, None)
      && (|log| < 511 ==> Says(after[|log| + 1], TopologyChange, src, denial))
  {
    var denial := if committed then None else Some((Halt, "topology consensus not reached"));
    var one := Appended(h, log, Request(TopologyTraverse, src, UNTIMED, None));
    AppendSays(h, log, TopologyTraverse, src, None);
    AppendSays(h, one, TopologyChange, src, denial);
    RoundLogIs(h, log, src, committed, denial);
    Stacked(log, one, LogAfter(h, log, Ok(()), src, committed));
  }

  lemma GateSays(boot: BootState, src: NodeId, dst: NodeId)
    requires boot.graph.Valid()
    ensures var gate := boot.graph.TraverseInner(src, dst);
      if (src, dst) in boot.graph.Edges() then gate == Ok(())
      else gate.Err? && gate.error.Class() == Halt && gate.error.Reason() == "edge not in boot manifest"
  {
  }

  /** What an `Ok` answer guarantees: the traversal is on record as permitted and so is the change, and the entry
      committed is the edge itself, in term 1, with a quorum of distinct peers behind it unless there are none. */
  lemma OkMeans(boot: BootState, peers: seq<NodeId>, src: NodeId, dst: NodeId, inbox: Inbox, h: Hash, log: seq<Event>)
    requires boot.graph.Valid() && |peers| <= R.MAX_PEERS && |log| < MAX_AUDIT_EVENTS
    requires (src, dst) in boot.graph.Edges() && Round(boot.localId, peers, src, dst, inbox).Some?
    ensures var after := LogAfter(h, log, boot.graph.TraverseInner(src, dst), src, true);
      && |after| > |log| && after[..|log|] == log
      && after[|log|].kind == TopologyTraverse && after[|log|].actor == src && after[|log|].verdict == Permitted
      && (|log| + 1 < MAX_AUDIT_EVENTS ==>
          && |after| == |log| + 2 && after[|log| + 1].kind == TopologyChange
          && after[|log| + 1].actor == src && after[|log| + 1].verdict == Permitted)
    ensures Round(boot.localId, peers, src, dst, inbox) == Some(R.Entry(1, src, dst))
    ensures |peers| > 0 ==> QuorumAcked(peers, inbox) && 1 + Grants(inbox) >= R.Quorum(|peers|)
  {
    RoundSound(boot.localId, peers, src, dst, inbox);
    GateSays(boot, src, dst);
    RoundLogged(h, log, src, true);
  }

  /** What an `Err` answer guarantees. If the edge is not in the graph, a denied traversal is on record. Otherwise the
      traversal is on record as permitted, and behind it, if there is room, the change as denied to the node that
      asked, with a denial that halts. A full log says nothing. */
  lemma ErrMeans(boot: BootState, src: NodeId, dst: NodeId, h: Hash, log: seq<Event>)
    requires boot.graph.Valid()
    ensures var after := LogAfter(h, log, boot.graph.TraverseInner(src, dst), src, false);
      if |log| >= 512 then after == log
      else if (src, dst) in boot.graph.Edges()
      then
        && |after| == (if |log| < 511 then |log| + 2 else |log| + 1) && log <= after
        && Says(after[|log|], TopologyTraverse, src, None)
        && (|log| < 511 ==>
              Says(after[|log| + 1], TopologyChange, src, Some((Halt, "topology consensus not reached"))))
      else
        && |after| == |log| + 1 && log <= after
        && Says(after[|log|], TopologyTraverse, src, Some((Halt, "edge not in boot manifest")))
  {
    var gate := boot.graph.TraverseInner(src, dst);
    GateSays(boot, src, dst);
    if |log| < 512 && gate.Ok? {
      RoundLogged(h, log, src, false);
    } else if |log| < 512 {
      RefusalLogged(h, log, src, gate.error, false);
    }
  }
}
