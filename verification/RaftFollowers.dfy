/** The commit index of followers over whole runs: as long as no follower takes a commit index from a batch that shows
    none of the signs of `CommitSafe`, the committed prefixes of all nodes agree. */
module RaftFollowers {
  import opened Types
  import opened RaftSpec
  import opened RaftCluster
  import opened RaftHistory
  import opened RaftLogs
  import opened RaftInvariant
  import opened RaftRuns
  import opened RaftSafety
  import opened RaftTheorems
  import opened RaftCommitRule

  // ---------- whole runs ----------

  /** The first `commit` entries of `log` were chosen by a leader of a term up to `term`. */
  ghost predicate SettledBy(nodes: map<NodeId, Node>, h: History, term: nat, commit: nat, log: Log,
                            t: nat, index: nat, quorum: set<NodeId>) {
    && t <= term && commit <= index && Chosen(nodes, h, t, index, quorum)
    && commit <= |log| && h.llog[t][..commit] <= log
  }

  ghost predicate Settled(nodes: map<NodeId, Node>, h: History, term: nat, commit: nat, log: Log) {
    commit == 0 || exists t, index, quorum :: SettledBy(nodes, h, term, commit, log, t, index, quorum)
  }

  ghost predicate NodesSettled(nodes: map<NodeId, Node>, h: History) {
    forall i :: i in nodes ==> Settled(nodes, h, nodes[i].term, nodes[i].commit, nodes[i].log)
  }

  ghost predicate PacketSettled(nodes: map<NodeId, Node>, h: History, msg: Message) {
    msg.AppendEntries? ==> msg.term in h.llog && Settled(nodes, h, msg.term, msg.leaderCommit, h.llog[msg.term])
  }

  ghost predicate PacketsSettled(c: Cluster, h: History) {
    forall p :: p in c.net ==> PacketSettled(c.nodes, h, p.msg)
  }

  lemma SettledExtends(nodes: map<NodeId, Node>, h: History, nodes': map<NodeId, Node>, h': History,
                       term: nat, term': nat, commit: nat, log: Log, log': Log)
    requires Settled(nodes, h, term, commit, log) && Extends(h, h') && nodes'.Keys == nodes.Keys
    requires term <= term' && log <= log'
    ensures Settled(nodes', h', term', commit, log')
  {
    if commit > 0 {
      var t, index, quorum :| SettledBy(nodes, h, term, commit, log, t, index, quorum);
      ChosenExtends(nodes, h, nodes', h', t, index, quorum);
      assert h.llog[t] <= h'.llog[t];
      assert h.llog[t][..commit] == h'.llog[t][..commit];
      assert SettledBy(nodes', h', term', commit, log', t, index, quorum);
    }
  }

  lemma PacketsSettledExtends(c: Cluster, h: History, nodes': map<NodeId, Node>, h': History, net: set<Packet>)
    requires PacketsSettled(c, h) && Extends(h, h') && nodes'.Keys == c.nodes.Keys && net <= c.net
    ensures PacketsSettled(Cluster(nodes', net), h')
  {
    forall p | p in net
      ensures PacketSettled(nodes', h', p.msg)
    {
      if p.msg.AppendEntries? {
        assert PacketSettled(c.nodes, h, p.msg);
        assert h.llog[p.msg.term] <= h'.llog[p.msg.term];
        SettledExtends(c.nodes, h, nodes', h', p.msg.term, p.msg.term, p.msg.leaderCommit,
                       h.llog[p.msg.term], h'.llog[p.msg.term]);
      }
    }
  }

  lemma WinnerStart(nodes: map<NodeId, Node>, h: History, u: nat)
    requires Wins(nodes, h) && u in h.won
    ensures u in h.llog && h.won[u].start <= h.llog[u]
  {
    assert WinOk(u, nodes, h);
  }

  lemma ChosenIndex(nodes: map<NodeId, Node>, h: History, t: nat, index: nat, quorum: set<NodeId>)
    requires Chosen(nodes, h, t, index, quorum)
    ensures t in h.llog && index <= |h.llog[t]| && h.llog[t][..index] <= h.llog[t]
  {
  }

  /** Chosen entries are in the log of every winner of the same or a later term. */
  lemma ChosenInWinner(nodes: map<NodeId, Node>, h: History, t: nat, index: nat, quorum: set<NodeId>, u: nat)
    requires Stands(nodes, h) && Votes(nodes, h) && Wins(nodes, h) && Recall(h)
    requires Chosen(nodes, h, t, index, quorum) && t <= u && u in h.won
    ensures u in h.llog && h.llog[t][..index] <= h.llog[u]
  {
    ChosenIndex(nodes, h, t, index, quorum);
    if t < u {
      WinnerStart(nodes, h, u);
      LaterWinnersStartWithIt(nodes, h, t, index, quorum, u);
      PrefixChain(h.llog[t], h.llog[t], index, h.won[u].start, h.llog[u]);
    }
  }

  lemma FittingBatchKeeps(log: Log, lead: Log, ae: Message, llog: map<nat, Log>, chosen: Log, index: nat, commit: nat)
    requires ae.AppendEntries? && Fits(log, lead, ae.prevLogIndex, ae.entries, llog)
    requires commit <= index <= |chosen| && chosen[..index] <= lead && chosen[..commit] <= log
    ensures chosen[..commit] <= Overlay(log, ae.prevLogIndex, ae.entries)
  {
    assert chosen[..commit] <= chosen[..index];
    assert lead[..commit] == chosen[..commit];
    OverlayKeeps(log, lead, ae.prevLogIndex, ae.entries, commit, llog);
  }

  /** A batch of a later or the same leader keeps what the follower has committed. */
  lemma OldCommitKept(nodes: map<NodeId, Node>, h: History, n: Node, ae: Message)
    requires Stands(nodes, h) && Votes(nodes, h) && Wins(nodes, h) && Recall(h)
    requires Settled(nodes, h, n.term, n.commit, n.log)
    requires ae.AppendEntries? && ae.term >= n.term && ae.term in h.won && ae.term in h.llog
    requires Fits(n.log, h.llog[ae.term], ae.prevLogIndex, ae.entries, h.llog)
    ensures Settled(nodes, h, ae.term, n.commit, Overlay(n.log, ae.prevLogIndex, ae.entries))
  {
    if n.commit > 0 {
      var t, index, quorum :| SettledBy(nodes, h, n.term, n.commit, n.log, t, index, quorum);
      ChosenInWinner(nodes, h, t, index, quorum, ae.term);
      KeptSettled(nodes, h, n, ae, t, index, quorum);
    }
  }

  lemma KeptSettled(nodes: map<NodeId, Node>, h: History, n: Node, ae: Message, t: nat, index: nat, quorum: set<NodeId>)
    requires SettledBy(nodes, h, n.term, n.commit, n.log, t, index, quorum)
    requires ae.AppendEntries? && ae.term >= n.term && ae.term in h.llog
    requires Fits(n.log, h.llog[ae.term], ae.prevLogIndex, ae.entries, h.llog)
    requires h.llog[t][..index] <= h.llog[ae.term]
    ensures Settled(nodes, h, ae.term, n.commit, Overlay(n.log, ae.prevLogIndex, ae.entries))
  {
    FittingBatchKeeps(n.log, h.llog[ae.term], ae, h.llog, h.llog[t], index, n.commit);
    assert SettledBy(nodes, h, ae.term, n.commit, Overlay(n.log, ae.prevLogIndex, ae.entries), t, index, quorum);
  }

  /** The leader's commit is carried over as far as the log is known to follow the leader's. */
  lemma NewCommitSettled(nodes: map<NodeId, Node>, h: History, ae: Message, log': Log, commit: nat, end: nat)
    requires ae.AppendEntries? && PacketSettled(nodes, h, ae) && commit <= ae.leaderCommit
    requires commit <= end <= |h.llog[ae.term]| && h.llog[ae.term][..end] <= log'
    ensures Settled(nodes, h, ae.term, commit, log')
  {
    if commit > 0 {
      var lead := h.llog[ae.term];
      var t, index, quorum :| SettledBy(nodes, h, ae.term, ae.leaderCommit, lead, t, index, quorum);
      assert h.llog[t][..commit] <= h.llog[t][..ae.leaderCommit] <= lead;
      assert h.llog[t][..commit] == lead[..commit] <= lead[..end];
      assert SettledBy(nodes, h, ae.term, commit, log', t, index, quorum);
    }
  }

  /** A leader's own commit is settled. */
  lemma LeaderCommitSettled(nodes: map<NodeId, Node>, h: History, n: Node)
    requires ShapedNodes(nodes) && n.id in nodes && nodes[n.id] == n && n.role == Leader && LeaderOk(n, h)
    requires n.term in h.won && WinOk(n.term, nodes, h) && Committable(n, n.commit)
    ensures Settled(nodes, h, n.term, n.commit, n.log)
  {
    BackersChoose(nodes, h, n, n.commit);
    assert SettledBy(nodes, h, n.term, n.commit, n.log, n.term, n.commit, Backers(n, n.commit));
  }

  // ---------- one action ----------

  predicate AcceptsBatch(n: Node, msg: Message) {
    msg.AppendEntries? && msg.term >= n.term && PrevMatches(n.log, msg)
  }

  /** Apart from an accepted batch, a call leaves the commit index and the log prefix alone,
      or it makes a leader commit what it may commit. */
  ghost predicate QuietOrLeading(n: Node, n': Node) {
    && Sized(n') && n.term <= n'.term && n.log <= n'.log
    && (n'.commit == n.commit || (n'.role == Leader && Committable(n', n'.commit)))
  }

  lemma StepQuietOrLeading(n: Node, from: NodeId, msg: Message)
    requires Sized(n) && !AcceptsBatch(n, msg)
    ensures QuietOrLeading(n, Step(n, from, msg).node)
  {
    StepKeepsIdentity(n, from, msg);
    if Step(n, from, msg).committed.Some? {
      StepCommits(n, from, msg);
    }
  }

  lemma EffectQuietOrLeading(c: Cluster, a: Action)
    requires Shaped(c) && Enabled(c, a) && !a.Drop?
    requires a.Deliver? ==> !AcceptsBatch(c.nodes[a.packet.dst], a.packet.msg)
    ensures QuietOrLeading(c.nodes[Actor(a)], Effect(c, a).node)
  {
    EffectKeepsIdentity(c, a);
    match a
    case Elect(i) =>
    case Submit(i, src, dst) =>
    case Deliver(p) => StepQuietOrLeading(c.nodes[p.dst], p.src, p.msg);
  }

  /** The hypothesis of the theorem: a batch from which a follower takes its commit index shows a sign that this
      is safe. */
  ghost predicate Covered(c: Cluster, a: Action)
    requires Shaped(c)
  {
    a.Deliver? && Enabled(c, a) && TakesCommit(c.nodes[a.packet.dst], a.packet.msg) ==>
      CommitSafe(c.nodes[a.packet.dst], a.packet.msg)
  }

  /** What the proof needs of a batch: a sign, or a follower whose log is all the leader's anyway. */
  ghost predicate Trusted(n: Node, ae: Message, h: History)
    requires ae.AppendEntries?
  {
    CommitSafe(n, ae) || (ae.term in h.llog && n.log <= h.llog[ae.term])
  }

  ghost predicate TrustedAction(c: Cluster, h: History, a: Action)
    requires Shaped(c)
  {
    a.Deliver? && Enabled(c, a) && TakesCommit(c.nodes[a.packet.dst], a.packet.msg) ==>
      Trusted(c.nodes[a.packet.dst], a.packet.msg, h)
  }

  lemma QuietActorSettled(nodes: map<NodeId, Node>, h: History, nodes': map<NodeId, Node>, h': History,
        n: Node, n': Node)
    requires Settled(nodes, h, n.term, n.commit, n.log) && Extends(h, h') && nodes'.Keys == nodes.Keys
    requires QuietOrLeading(n, n') && ShapedNodes(nodes') && n'.id in nodes' && nodes'[n'.id] == n'
    requires Nodes(nodes', h') && Wins(nodes', h')
    ensures Settled(nodes', h', n'.term, n'.commit, n'.log)
  {
    if n'.commit == n.commit {
      SettledExtends(nodes, h, nodes', h', n.term, n'.term, n.commit, n.log, n'.log);
    } else {
      assert NodeOk(n', h') && WinOk(n'.term, nodes', h');
      LeaderCommitSettled(nodes', h', n');
    }
  }

  lemma BatchFits(c: Cluster, h: History, p: Packet)
    requires Inv(c, h) && p in c.net && p.dst in c.nodes && AcceptsBatch(c.nodes[p.dst], p.msg)
    ensures p.msg.term in h.won && p.msg.term in h.llog
    ensures Fits(c.nodes[p.dst].log, h.llog[p.msg.term], p.msg.prevLogIndex, p.msg.entries, h.llog)
  {
    PacketOfState(c, h, p);
    BatchGround(c, h, p, p.dst);
    GroundedFits(c.nodes[p.dst].log, p.msg, h);
  }

  lemma GroundedFits(log: Log, ae: Message, h: History)
    requires Grounded(log, ae, h) && PrevMatches(log, ae)
    ensures Fits(log, h.llog[ae.term], ae.prevLogIndex, ae.entries, h.llog)
  {
  }

  lemma AcceptedNode(n: Node, from: NodeId, ae: Message)
    requires Sized(n) && AcceptsBatch(n, ae)
    ensures var n' := Step(n, from, ae).node;
      && n'.term == ae.term && n'.log == Overlay(n.log, ae.prevLogIndex, ae.entries)
      && n'.commit == if ae.leaderCommit > n.commit then Min(ae.leaderCommit, |n'.log|) else n.commit
  {
  }

  /** The first `end` entries of the leader's log are in the new log, and the new commit index is among them. */
  ghost predicate Carries(lead: Log, n': Node, end: nat) {
    n'.commit <= end <= |lead| && lead[..end] <= n'.log
  }

  /** A trusted batch carries the commit index it gives, or nothing happens at all. */
  lemma TrustedOutcome(n: Node, from: NodeId, ae: Message, h: History) returns (end: nat)
    requires TakesCommit(n, ae) && Trusted(n, ae, h) && ae.term in h.llog && n.commit <= |n.log|
    requires Fits(n.log, h.llog[ae.term], ae.prevLogIndex, ae.entries, h.llog)
    ensures var n' := Step(n, from, ae).node;
      Carries(h.llog[ae.term], n', end) || (n'.log == n.log && n'.commit == n.commit)
  {
    var n' := Step(n, from, ae).node;
    LogAfterBatch(n, from, ae, h.llog);
    end := BatchEnd(ae);
    if n'.commit > end {
      end := |n.log|;
      if LastTerm(n.log) == ae.term {
        BackedByLast(n.log, h.llog);
      }
    }
  }

  lemma CarriedCommitSettled(nodes: map<NodeId, Node>, h: History, ae: Message, n': Node, end: nat)
    requires ae.AppendEntries? && PacketSettled(nodes, h, ae) && n'.commit <= ae.leaderCommit
    requires Carries(h.llog[ae.term], n', end)
    ensures Settled(nodes, h, ae.term, n'.commit, n'.log)
  {
    NewCommitSettled(nodes, h, ae, n'.log, n'.commit, end);
  }

  lemma TakenCommitSettled(nodes: map<NodeId, Node>, h: History, n: Node, from: NodeId, ae: Message)
    requires Stands(nodes, h) && Votes(nodes, h) && Wins(nodes, h) && Recall(h)
    requires Settled(nodes, h, n.term, n.commit, n.log) && PacketSettled(nodes, h, ae)
    requires TakesCommit(n, ae) && Trusted(n, ae, h) && ae.term in h.won && ae.term in h.llog
    requires Fits(n.log, h.llog[ae.term], ae.prevLogIndex, ae.entries, h.llog)
    ensures var n' := Step(n, from, ae).node; Settled(nodes, h, ae.term, n'.commit, n'.log)
  {
    var n' := Step(n, from, ae).node;
    SettledWithin(nodes, h, n.term, n.commit, n.log);
    StepCommitRule(n, from, ae);
    var end := TrustedOutcome(n, from, ae, h);
    if Carries(h.llog[ae.term], n', end) {
      CarriedCommitSettled(nodes, h, ae, n', end);
    } else {
      OldCommitKept(nodes, h, n, ae);
    }
  }

  lemma AcceptedActorSettled(nodes: map<NodeId, Node>, h: History, n: Node, from: NodeId, ae: Message)
    requires Stands(nodes, h) && Votes(nodes, h) && Wins(nodes, h) && Recall(h)
    requires Settled(nodes, h, n.term, n.commit, n.log) && PacketSettled(nodes, h, ae)
    requires Sized(n) && AcceptsBatch(n, ae) && ae.term in h.won && ae.term in h.llog
    requires Fits(n.log, h.llog[ae.term], ae.prevLogIndex, ae.entries, h.llog)
    requires TakesCommit(n, ae) ==> Trusted(n, ae, h)
    ensures var n' := Step(n, from, ae).node; Settled(nodes, h, n'.term, n'.commit, n'.log)
  {
    AcceptedNode(n, from, ae);
    if ae.leaderCommit > n.commit {
      TakenCommitSettled(nodes, h, n, from, ae);
    } else {
      OldCommitKept(nodes, h, n, ae);
    }
  }

  lemma DeliveredSettled(c: Cluster, h: History, p: Packet)
    requires Inv(c, h) && NodesSettled(c.nodes, h) && PacketsSettled(c, h) && Enabled(c, Deliver(p))
    requires AcceptsBatch(c.nodes[p.dst], p.msg) && TrustedAction(c, h, Deliver(p))
    ensures var n' := Step(c.nodes[p.dst], p.src, p.msg).node; Settled(c.nodes, h, n'.term, n'.commit, n'.log)
  {
    BatchFits(c, h, p);
    assert PacketSettled(c.nodes, h, p.msg);
    AcceptedActorSettled(c.nodes, h, c.nodes[p.dst], p.src, p.msg);
  }

  lemma ActorSettled(c: Cluster, h: History, a: Action)
    requires Inv(c, h) && Waiting(c) && NodesSettled(c.nodes, h) && PacketsSettled(c, h)
    requires Enabled(c, a) && !a.Drop? && TrustedAction(c, h, a)
    ensures var n' := Effect(c, a).node; Settled(Apply(c, a).nodes, Record(h, c, a), n'.term, n'.commit, n'.log)
  {
    var n' := Effect(c, a).node;
    ActionExtends(c, h, a);
    ApplyKeepsShape(c, a);
    EffectKeepsIdentity(c, a);
    if a.Deliver? && AcceptsBatch(c.nodes[a.packet.dst], a.packet.msg) {
      DeliveredSettled(c, h, a.packet);
      SettledExtends(c.nodes, h, Apply(c, a).nodes, Record(h, c, a), n'.term, n'.term, n'.commit, n'.log, n'.log);
    } else {
      EffectQuietOrLeading(c, a);
      ActionKeeps(c, h, a);
      QuietActorSettled(c.nodes, h, Apply(c, a).nodes, Record(h, c, a), c.nodes[Actor(a)], n');
    }
  }

  lemma OtherNodesSettled(nodes: map<NodeId, Node>, h: History, nodes': map<NodeId, Node>, h': History, x: NodeId)
    requires NodesSettled(nodes, h) && Extends(h, h') && nodes'.Keys == nodes.Keys
    requires forall i :: i in nodes && i != x ==> nodes'[i] == nodes[i]
    requires x in nodes' ==> Settled(nodes', h', nodes'[x].term, nodes'[x].commit, nodes'[x].log)
    ensures NodesSettled(nodes', h')
  {
    forall i | i in nodes'
      ensures Settled(nodes', h', nodes'[i].term, nodes'[i].commit, nodes'[i].log)
    {
      if i != x {
        SettledExtends(nodes, h, nodes', h', nodes[i].term, nodes[i].term, nodes[i].commit, nodes[i].log, nodes[i].log);
      }
    }
  }

  /** The batches a leader sends carry its own commit index. */
  lemma SentByLeader(c: Cluster, a: Action, k: nat)
    requires Shaped(c) && Enabled(c, a) && !a.Drop? && k < |Effect(c, a).sent|
    requires Effect(c, a).sent[k].msg.AppendEntries?
    ensures var n' := Effect(c, a).node;
            var msg := Effect(c, a).sent[k].msg;
      n'.role == Leader && msg.term == n'.term && msg.leaderCommit == n'.commit
  {
  }

  lemma SentSettled(c: Cluster, h: History, a: Action, p: Packet)
    requires Inv(c, h) && Waiting(c) && Enabled(c, a) && !a.Drop? && p in Emitted(Actor(a), Effect(c, a).sent)
    requires var n' := Effect(c, a).node; Settled(Apply(c, a).nodes, Record(h, c, a), n'.term, n'.commit, n'.log)
    ensures PacketSettled(Apply(c, a).nodes, Record(h, c, a), p.msg)
  {
    if p.msg.AppendEntries? {
      var k :| 0 <= k < |Effect(c, a).sent| && p == Packet(Actor(a), Effect(c, a).sent[k].to, Effect(c, a).sent[k].msg);
      SentByLeader(c, a, k);
      EffectKeepsIdentity(c, a);
      ActionKeeps(c, h, a);
      assert NodeOk(Apply(c, a).nodes[Actor(a)], Record(h, c, a));
    }
  }

  lemma ActionSettlesNodes(c: Cluster, h: History, a: Action)
    requires Inv(c, h) && Waiting(c) && NodesSettled(c.nodes, h) && PacketsSettled(c, h) && TrustedAction(c, h, a)
    ensures NodesSettled(Apply(c, a).nodes, Record(h, c, a))
  {
    if Enabled(c, a) && !a.Drop? {
      ActorSettled(c, h, a);
      ActionExtends(c, h, a);
      ApplyKeepsShape(c, a);
      OtherNodesSettled(c.nodes, h, Apply(c, a).nodes, Record(h, c, a), Actor(a));
    }
  }

  lemma ActionSettlesPackets(c: Cluster, h: History, a: Action)
    requires Inv(c, h) && Waiting(c) && NodesSettled(c.nodes, h) && PacketsSettled(c, h) && TrustedAction(c, h, a)
    ensures PacketsSettled(Apply(c, a), Record(h, c, a))
  {
    ActionExtends(c, h, a);
    ApplyKeepsShape(c, a);
    if Enabled(c, a) {
      PacketsSettledExtends(c, h, Apply(c, a).nodes, Record(h, c, a), Remaining(c.net, a));
      if !a.Drop? {
        ActorSettled(c, h, a);
        forall p | p in Emitted(Actor(a), Effect(c, a).sent)
          ensures PacketSettled(Apply(c, a).nodes, Record(h, c, a), p.msg)
        {
          SentSettled(c, h, a, p);
        }
      }
    }
  }

  // ---------- the theorem ----------

  ghost predicate RunCovered(c: Cluster, actions: seq<Action>)
    requires Shaped(c)
  {
    forall k :: 0 <= k < |actions| ==> Covered(Run(c, actions[..k]), actions[k])
  }

  ghost predicate TrustedAfter(c: Cluster, done: seq<Action>, a: Action)
    requires Shaped(c)
  {
    TrustedAction(Run(c, done), Past(c, done), a)
  }

  ghost predicate RunTrusted(c: Cluster, actions: seq<Action>)
    requires Shaped(c)
  {
    forall k :: 0 <= k < |actions| ==> TrustedAfter(c, actions[..k], actions[k])
  }

  lemma CoveredIsTrusted(c: Cluster, actions: seq<Action>)
    requires Shaped(c) && RunCovered(c, actions)
    ensures RunTrusted(c, actions)
  {
    forall k | 0 <= k < |actions|
      ensures TrustedAfter(c, actions[..k], actions[k])
    {
      assert Covered(Run(c, actions[..k]), actions[k]);
    }
  }

  lemma PrefixOfPrefix(actions: seq<Action>, i: nat, k: nat)
    requires k < i <= |actions|
    ensures actions[..i][..k] == actions[..k] && actions[..i][k] == actions[k]
  {
  }

  lemma TrustedPrefix(c: Cluster, actions: seq<Action>, i: nat)
    requires Shaped(c) && RunTrusted(c, actions) && i <= |actions|
    ensures RunTrusted(c, actions[..i])
  {
    forall k | 0 <= k < i
      ensures TrustedAfter(c, actions[..i][..k], actions[..i][k])
    {
      assert TrustedAfter(c, actions[..k], actions[k]);
      PrefixOfPrefix(actions, i, k);
    }
  }

  lemma {:induction false} RunSettles(c: Cluster, actions: seq<Action>)
    requires Initial(c) && RunTrusted(c, actions)
    ensures NodesSettled(Run(c, actions).nodes, Past(c, actions))
    ensures PacketsSettled(Run(c, actions), Past(c, actions))
  {
    if |actions| > 0 {
      var last := |actions| - 1;
      TrustedPrefix(c, actions, last);
      RunSettles(c, actions[..last]);
      RunKeeps(c, actions[..last]);
      assert TrustedAfter(c, actions[..last], actions[last]);
      ActionSettlesNodes(Run(c, actions[..last]), Past(c, actions[..last]), actions[last]);
      ActionSettlesPackets(Run(c, actions[..last]), Past(c, actions[..last]), actions[last]);
    }
  }

  /** What a node has committed at some moment of a trusted run, in the history of the whole run. */
  lemma CommitSettledForGood(c: Cluster, actions: seq<Action>, i: nat, x: NodeId)
    requires Initial(c) && RunTrusted(c, actions) && i <= |actions| && x in c.nodes
    ensures var n := At(c, actions, i, x);
      Settled(Run(c, actions).nodes, Past(c, actions), n.term, n.commit, n.log)
  {
    var n := At(c, actions, i, x);
    TrustedPrefix(c, actions, i);
    RunSettles(c, actions[..i]);
    PastExtends(c, actions, i);
    SettledExtends(Run(c, actions[..i]).nodes, Past(c, actions[..i]), Run(c, actions).nodes, Past(c, actions),
                   n.term, n.term, n.commit, n.log, n.log);
  }

  lemma SettledInOrderAgrees(nodes: map<NodeId, Node>, h: History, m: Node, n: Node,
                             t: nat, index: nat, quorum: set<NodeId>, t': nat, index': nat, quorum': set<NodeId>)
    requires Stands(nodes, h) && Votes(nodes, h) && Wins(nodes, h) && Recall(h)
    requires SettledBy(nodes, h, m.term, m.commit, m.log, t, index, quorum)
    requires SettledBy(nodes, h, n.term, n.commit, n.log, t', index', quorum')
    requires t <= t'
    ensures CommitsAgree(m, n)
  {
    ChosenInWinner(nodes, h, t, index, quorum, t');
    PrefixesOfOne(h.llog[t], index, h.llog[t'], m.log, m.commit, n.log, n.commit);
  }

  /** Both commit indices lie within the logs, and the logs agree up to the smaller one. */
  ghost predicate CommitsAgree(m: Node, n: Node) {
    && m.commit <= |m.log| && n.commit <= |n.log|
    && m.log[..Min(m.commit, n.commit)] == n.log[..Min(m.commit, n.commit)]
  }

  lemma SettledPairAgrees(nodes: map<NodeId, Node>, h: History, m: Node, n: Node,
                          t: nat, index: nat, quorum: set<NodeId>, t': nat, index': nat, quorum': set<NodeId>)
    requires Stands(nodes, h) && Votes(nodes, h) && Wins(nodes, h) && Recall(h)
    requires SettledBy(nodes, h, m.term, m.commit, m.log, t, index, quorum)
    requires SettledBy(nodes, h, n.term, n.commit, n.log, t', index', quorum')
    ensures CommitsAgree(m, n)
  {
    if t <= t' {
      SettledInOrderAgrees(nodes, h, m, n, t, index, quorum, t', index', quorum');
    } else {
      SettledInOrderAgrees(nodes, h, n, m, t', index', quorum', t, index, quorum);
    }
  }

  lemma PrefixesOfOne(early: Log, index: nat, late: Log, a: Log, i: nat, b: Log, j: nat)
    requires index <= |early| && early[..index] <= late && i <= index && j <= |late|
    requires early[..i] <= a && late[..j] <= b
    ensures Min(i, j) <= |a| && Min(i, j) <= |b| && a[..Min(i, j)] == b[..Min(i, j)]
  {
    var k := Min(i, j);
    assert early[..index][..k] == early[..i][..k] == a[..k];
    assert late[..j][..k] == b[..k];
    assert early[..index][..k] == late[..k];
  }

  lemma SettledWithin(nodes: map<NodeId, Node>, h: History, term: nat, commit: nat, log: Log)
    requires Settled(nodes, h, term, commit, log)
    ensures commit <= |log|
  {
  }

  lemma SettledWitness(nodes: map<NodeId, Node>, h: History, n: Node) returns (t: nat, index: nat, quorum: set<NodeId>)
    requires Settled(nodes, h, n.term, n.commit, n.log) && n.commit > 0
    ensures SettledBy(nodes, h, n.term, n.commit, n.log, t, index, quorum)
  {
    t, index, quorum :| SettledBy(nodes, h, n.term, n.commit, n.log, t, index, quorum);
  }

  lemma SettledAgree(nodes: map<NodeId, Node>, h: History, m: Node, n: Node)
    requires Stands(nodes, h) && Votes(nodes, h) && Wins(nodes, h) && Recall(h)
    requires Settled(nodes, h, m.term, m.commit, m.log) && Settled(nodes, h, n.term, n.commit, n.log)
    ensures CommitsAgree(m, n)
  {
    SettledWithin(nodes, h, m.term, m.commit, m.log);
    SettledWithin(nodes, h, n.term, n.commit, n.log);
    if m.commit > 0 && n.commit > 0 {
      var t, index, quorum := SettledWitness(nodes, h, m);
      var t', index', quorum' := SettledWitness(nodes, h, n);
      SettledPairAgrees(nodes, h, m, n, t, index, quorum, t', index', quorum');
    }
  }

  lemma TrustedRunAgrees(c: Cluster, actions: seq<Action>, i: nat, j: nat, x: NodeId, y: NodeId)
    requires Initial(c) && RunTrusted(c, actions)
    requires i <= |actions| && j <= |actions| && x in c.nodes && y in c.nodes
    ensures CommitsAgree(At(c, actions, i, x), At(c, actions, j, y))
  {
    CommitSettledForGood(c, actions, i, x);
    CommitSettledForGood(c, actions, j, y);
    RunKeeps(c, actions);
    SettledAgree(Run(c, actions).nodes, Past(c, actions), At(c, actions, i, x), At(c, actions, j, y));
  }

  /** State Machine Safety for all nodes: in a run in which followers take commit indices only from batches that show
      one of the signs, the commit index of every node stays within its log, and what any two nodes have committed,
      at whatever two moments, agrees. */
  lemma CommittedPrefixesAgree(c: Cluster, actions: seq<Action>, i: nat, j: nat, x: NodeId, y: NodeId)
    requires Initial(c) && RunCovered(c, actions)
    requires i <= |actions| && j <= |actions| && x in c.nodes && y in c.nodes
    ensures CommitsAgree(At(c, actions, i, x), At(c, actions, j, y))
  {
    CoveredIsTrusted(c, actions);
    TrustedRunAgrees(c, actions, i, j, x, y);
  }

  // ---------- the rule for one batch applies to every delivery ----------

  lemma PacketCommitWithin(c: Cluster, h: History, p: Packet)
    requires PacketsSettled(c, h) && p in c.net && p.msg.AppendEntries?
    ensures p.msg.term in h.llog && p.msg.leaderCommit <= |h.llog[p.msg.term]|
  {
    assert PacketSettled(c.nodes, h, p.msg);
    SettledWithin(c.nodes, h, p.msg.term, p.msg.leaderCommit, h.llog[p.msg.term]);
  }

  lemma LeaderLogsSound(nodes: map<NodeId, Node>, h: History, t: nat)
    requires Wins(nodes, h) && t in h.llog
    ensures Backed(h.llog[t], h.llog) && TermsUpTo(h.llog[t], t) && |h.llog[t]| <= LOG_CAPACITY
  {
    assert WinOk(t, nodes, h);
  }

  /** What a node has committed is in the log of every leader of its term or a later one. */
  lemma CommittedInLeader(nodes: map<NodeId, Node>, h: History, n: Node, u: nat)
    requires Stands(nodes, h) && Votes(nodes, h) && Wins(nodes, h) && Recall(h)
    requires Settled(nodes, h, n.term, n.commit, n.log) && n.term <= u && u in h.won
    ensures u in h.llog && Agrees(h.llog[u], n.log, n.commit)
  {
    SettledWithin(nodes, h, n.term, n.commit, n.log);
    WinnerStart(nodes, h, u);
    if n.commit > 0 {
      var t, index, quorum := SettledWitness(nodes, h, n);
      ChosenInWinner(nodes, h, t, index, quorum, u);
      ChosenAgrees(h.llog[t], index, h.llog[u], n.log, n.commit);
    }
  }

  lemma ChosenAgrees(chosen: Log, index: nat, lead: Log, log: Log, commit: nat)
    requires commit <= index <= |chosen| && chosen[..index] <= lead && chosen[..commit] <= log
    ensures Agrees(lead, log, commit)
  {
    assert chosen[..commit] == chosen[..index][..commit] == lead[..commit];
  }

  lemma BatchBehind(c: Cluster, h: History, p: Packet, x: NodeId)
    requires Inv(c, h) && NodesSettled(c.nodes, h) && PacketsSettled(c, h)
    requires p in c.net && p.msg.AppendEntries? && x in c.nodes && c.nodes[x].term <= p.msg.term
    ensures Behind(h.llog, c.nodes[x], p.msg)
  {
    PacketOfState(c, h, p);
    PacketMatches(c, h, p, x);
    PacketCommitWithin(c, h, p);
    CommittedInLeader(c.nodes, h, c.nodes[x], p.msg.term);
    assert NodeOk(c.nodes[x], h);
    forall t | t in h.llog
      ensures Backed(h.llog[t], h.llog) && TermsUpTo(h.llog[t], t) && |h.llog[t]| <= LOG_CAPACITY
    {
      LeaderLogsSound(c.nodes, h, t);
    }
  }

  /** Up to the first uncovered delivery, the leader logs of the run itself lie behind every batch in flight and
      every node that is not ahead of its term: `CommitRightIff` speaks about every delivery that can happen then. */
  lemma RunBehind(c: Cluster, actions: seq<Action>, p: Packet, x: NodeId)
    requires Initial(c) && RunCovered(c, actions)
    requires p in Run(c, actions).net && p.msg.AppendEntries? && x in c.nodes
    requires Run(c, actions).nodes[x].term <= p.msg.term
    ensures Behind(Past(c, actions).llog, Run(c, actions).nodes[x], p.msg)
  {
    CoveredIsTrusted(c, actions);
    RunKeeps(c, actions);
    RunSettles(c, actions);
    BatchBehind(Run(c, actions), Past(c, actions), p, x);
  }
}
