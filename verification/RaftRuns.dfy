/** The invariant over whole runs. */
module RaftRuns {
  import opened Types
  import opened RaftSpec
  import opened RaftCluster
  import opened RaftHistory
  import opened RaftInvariant
  import opened RaftFrame
  import opened RaftSteps
  import opened RaftMoves
  import opened RaftLead
  import opened RaftReplicate
  import opened RaftActions
  import opened RaftDeliveries

  // ---------- one action ----------

  lemma DeliverKeeps(c: Cluster, h: History, p: Packet)
    requires Inv(c, h) && Waiting(c) && Enabled(c, Deliver(p))
    ensures Inv(Apply(c, Deliver(p)), Record(h, c, Deliver(p)))
  {
    var n := c.nodes[p.dst];
    match p.msg {
      case RequestVote(_, _, _, _) => RequestKeeps(c, h, n, p);
      case RequestVoteReply(_, _) =>
        if Counts(n, p.msg) {
          CountedReplyKeeps(c, h, n, p);
        } else {
          IdleReplyKeeps(c, h, n, p);
        }
      case AppendEntries(_, _, _, _, _, _) => BatchKeeps(c, h, n, p);
      case AppendEntriesReply(_, _, _) => AppendReplyKeeps(c, h, n, p);
    }
  }

  lemma SubmitKeeps(c: Cluster, h: History, i: NodeId, src: NodeId, dst: NodeId)
    requires Inv(c, h) && i in c.nodes
    ensures Inv(Apply(c, Submit(i, src, dst)), Record(h, c, Submit(i, src, dst)))
  {
    if Propose(c.nodes[i], src, dst).0.Ok? {
      AcceptedSubmitKeeps(c, h, c.nodes[i], src, dst);
    } else {
      RefusedSubmitKeeps(c, h, c.nodes[i], src, dst);
    }
  }

  lemma ElectKeeps(c: Cluster, h: History, i: NodeId)
    requires Inv(c, h) && i in c.nodes
    ensures Inv(Apply(c, Elect(i)), Record(h, c, Elect(i)))
  {
    if |c.nodes[i].peers| == 0 {
      SoloElectKeeps(c, h, c.nodes[i]);
    } else {
      GroupElectKeeps(c, h, c.nodes[i]);
    }
  }

  lemma ActionKeeps(c: Cluster, h: History, a: Action)
    requires Inv(c, h) && Waiting(c)
    ensures Inv(Apply(c, a), Record(h, c, a))
  {
    if Enabled(c, a) {
      match a {
        case Elect(i) => ElectKeeps(c, h, i);
        case Submit(i, src, dst) => SubmitKeeps(c, h, i, src, dst);
        case Deliver(p) => DeliverKeeps(c, h, p);
        case Drop(p) => LoseKeeps(c, h, Remaining(c.net, a));
      }
    }
  }

  // ---------- candidates keep waiting ----------

  ghost predicate Patient(n: Node) {
    n.role == Candidate ==> n.votes < Quorum(|n.peers|)
  }

  lemma StepPatient(n: Node, from: NodeId, msg: Message)
    requires Sized(n) && Patient(n)
    ensures Patient(Step(n, from, msg).node)
  {
  }

  lemma ActionPatient(c: Cluster, a: Action)
    requires Shaped(c) && Waiting(c) && Enabled(c, a) && !a.Drop?
    ensures Patient(Effect(c, a).node)
  {
    match a
    case Elect(i) =>
    case Submit(i, src, dst) =>
    case Deliver(p) => StepPatient(c.nodes[p.dst], p.src, p.msg);
  }

  lemma ActionWaits(c: Cluster, a: Action)
    requires Shaped(c) && Waiting(c)
    ensures Waiting(Apply(c, a))
  {
    if Enabled(c, a) && !a.Drop? {
      ActionPatient(c, a);
    }
  }

  // ---------- histories only grow ----------

  lemma ElectExtends(c: Cluster, h: History, n: Node)
    requires Inv(c, h) && n.id in c.nodes && c.nodes[n.id] == n
    ensures Extends(h, RecordElect(h, n))
  {
    StandKeeps(c, h, n);
    VoteLogsKept(c, h);
    if |n.peers| == 0 {
      LoneTermIsNew(c, h, n);
    }
    ElectGrowsHistory(h, n);
  }

  lemma VoteLogsKept(c: Cluster, h: History)
    requires Inv(c, h)
    ensures h.voteLog.Keys == h.voted.Keys
  {
  }

  /** Nobody has led the term in which a node without peers stands. */
  lemma LoneTermIsNew(c: Cluster, h: History, n: Node)
    requires Inv(c, h) && n.id in c.nodes && c.nodes[n.id] == n && |n.peers| == 0
    ensures n.term + 1 !in StandHistory(h, n).won && n.term + 1 !in StandHistory(h, n).llog
  {
    StandKeeps(c, h, n);
    StoodAlone(c, n);
    WinnersTermIsNew(Cluster(With(c.nodes, Standing(n)), c.net), StandHistory(h, n), Standing(n));
  }

  lemma StoodAlone(c: Cluster, n: Node)
    requires |n.peers| == 0
    ensures var c1, n1 := Cluster(With(c.nodes, Standing(n)), c.net), Standing(n);
      && n1.id in c1.nodes && c1.nodes[n1.id] == n1 && n1.role == Candidate && n1.votes >= Quorum(|n1.peers|)
      && n1.term == n.term + 1
  {
  }

  lemma WinnersTermIsNew(c: Cluster, h: History, n: Node)
    requires Inv(c, h) && n.id in c.nodes && c.nodes[n.id] == n && n.role == Candidate && n.votes >= Quorum(|n.peers|)
    ensures n.term !in h.won && n.term !in h.llog
  {
    WinKeeps(c, h, n);
  }

  lemma ElectGrowsHistory(h: History, n: Node)
    requires Unheard(h, n) && h.voteLog.Keys == h.voted.Keys
    requires |n.peers| == 0 ==> n.term + 1 !in StandHistory(h, n).won && n.term + 1 !in StandHistory(h, n).llog
    ensures Extends(h, RecordElect(h, n))
  {
    StandLocal(h, n);
    if |n.peers| == 0 {
      WinLocal(StandHistory(h, n), Standing(n));
      ExtendsTransitive(h, StandHistory(h, n), RecordElect(h, n));
    }
  }

  lemma SubmitExtends(c: Cluster, h: History, n: Node, src: NodeId, dst: NodeId)
    requires Shaped(c) && n.id in c.nodes && c.nodes[n.id] == n && NodeOk(n, h)
    ensures Extends(h, RecordSubmit(h, n, Propose(n, src, dst).1.node))
  {
    if Propose(n, src, dst).0.Ok? {
      SubmitShape(c, h, n, src, dst);
      AppendLocal(h, n, Propose(n, src, dst).1.node);
    }
  }

  lemma CastExtends(h: History, n: Node, p: Packet)
    requires Sized(n) && NodeOk(n, h) && p.msg.RequestVote? && h.voteLog.Keys == h.voted.Keys
    requires forall b :: b in h.voted && b.node == n.id ==> b.term <= n.term
    ensures Extends(h, RecordStep(h, n, Step(n, p.src, p.msg).node, p))
  {
    var n' := Step(n, p.src, p.msg).node;
    if n'.votedFor.Some? && !(n'.term == n.term && n.votedFor.Some?) {
      CastLocal(h, Ballot(n'.term, n.id), n'.votedFor.value, n.log);
    }
  }

  lemma CountedWinExtends(h: History, n: Node, p: Packet)
    requires Sized(n) && p.msg.RequestVoteReply? && Counts(n, p.msg)
    requires Counting(n).votes >= Quorum(|n.peers|) ==> n.term !in h.won && n.term !in h.llog
    ensures Extends(h, RecordStep(h, n, Step(n, p.src, p.msg).node, p))
  {
  }

  lemma CountExtends(c: Cluster, h: History, n: Node, p: Packet)
    requires Arrives(c, h, n, p) && p.msg.RequestVoteReply? && Counts(n, p.msg)
    ensures Extends(h, RecordStep(h, n, Step(n, p.src, p.msg).node, p))
  {
    if Counting(n).votes >= Quorum(|n.peers|) {
      CountKeeps(c, h, n, p);
      WinKeeps(Cluster(With(c.nodes, Counting(n)), c.net - {p}), Count(h, n.id, p.src), Counting(n));
    }
    CountedWinExtends(h, n, p);
  }

  lemma AckExtends(h: History, a: Ack)
    ensures Extends(h, h) && Extends(h, h.(acks := h.acks + {a}))
  {
  }

  lemma PlainExtends(h: History, n: Node, p: Packet)
    requires Sized(n) && !p.msg.RequestVote? && !(p.msg.RequestVoteReply? && Counts(n, p.msg))
    ensures Extends(h, RecordStep(h, n, Step(n, p.src, p.msg).node, p))
  {
    AckExtends(h, if p.msg.AppendEntries? then Ack(p.msg.term, n.id, p.msg.prevLogIndex + |p.msg.entries|)
                  else Ack(0, n.id, 0));
  }

  lemma VoteTerms(nodes: map<NodeId, Node>, h: History, n: Node)
    requires Votes(nodes, h) && n.id in nodes && nodes[n.id] == n
    ensures forall b :: b in h.voted && b.node == n.id ==> b.term <= n.term
  {
  }

  lemma StepExtends(c: Cluster, h: History, n: Node, p: Packet)
    requires Arrives(c, h, n, p)
    ensures Extends(h, RecordStep(h, n, Step(n, p.src, p.msg).node, p))
  {
    if p.msg.RequestVote? {
      assert NodeOk(n, h);
      VoteTerms(c.nodes, h, n);
      CastExtends(h, n, p);
    } else if p.msg.RequestVoteReply? && Counts(n, p.msg) {
      CountExtends(c, h, n, p);
    } else {
      PlainExtends(h, n, p);
    }
  }

  lemma ActionExtends(c: Cluster, h: History, a: Action)
    requires Inv(c, h)
    ensures Extends(h, Record(h, c, a))
  {
    if Enabled(c, a) && !a.Drop? {
      match a {
        case Elect(i) => ElectExtends(c, h, c.nodes[i]);
        case Submit(i, src, dst) =>
          assert NodeOk(c.nodes[i], h);
          SubmitExtends(c, h, c.nodes[i], src, dst);
        case Deliver(p) => StepExtends(c, h, c.nodes[p.dst], p);
      }
    }
  }

  // ---------- runs ----------

  /** The invariant holds after every run from an initial cluster. */
  lemma {:induction false} RunKeeps(c: Cluster, actions: seq<Action>)
    requires Initial(c)
    ensures Inv(Run(c, actions), Past(c, actions)) && Waiting(Run(c, actions))
  {
    if |actions| == 0 {
      InvInitially(c);
    } else {
      var earlier := actions[..|actions| - 1];
      RunKeeps(c, earlier);
      ActionKeeps(Run(c, earlier), Past(c, earlier), actions[|actions| - 1]);
      ActionWaits(Run(c, earlier), actions[|actions| - 1]);
    }
  }

  /** A longer run remembers what a shorter one did. */
  lemma {:induction false} PastExtends(c: Cluster, actions: seq<Action>, i: nat)
    requires Initial(c) && i <= |actions|
    ensures Extends(Past(c, actions[..i]), Past(c, actions))
  {
    if i == |actions| {
      assert actions[..i] == actions;
    } else {
      var earlier := actions[..|actions| - 1];
      assert earlier[..i] == actions[..i];
      PastExtends(c, earlier, i);
      RunKeeps(c, earlier);
      ActionExtends(Run(c, earlier), Past(c, earlier), actions[|actions| - 1]);
      ExtendsTransitive(Past(c, actions[..i]), Past(c, earlier), Past(c, actions));
    }
  }
}
