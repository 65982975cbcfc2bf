/** A cluster of mutual peers and the network between them.

    The network may delay, reorder and drop anything. It may also deliver a packet again, except a vote
    request or a granted vote: a candidate counts granted replies without looking at who sent them, so
    these two are consumed by their delivery. */
module RaftCluster {
  import opened Types
  import opened RaftSpec

  datatype Packet = Packet(src: NodeId, dst: NodeId, msg: Message)

  datatype Cluster = Cluster(nodes: map<NodeId, Node>, net: set<Packet>)

  datatype Action =
    | Elect(id: NodeId)
    | Submit(id: NodeId, src: NodeId, dst: NodeId)
    | Deliver(packet: Packet)
    | Drop(packet: Packet)

  predicate Distinct(peers: seq<NodeId>) {
    forall i, j :: 0 <= i < j < |peers| ==> peers[i] != peers[j]
  }

  /** Every node is stored under its own id and its peers are other nodes, each listed once, as many as
      there are other nodes: so they are all the others. */
  ghost predicate ShapedNodes(nodes: map<NodeId, Node>) {
    forall i {:trigger nodes[i]} :: i in nodes ==>
      && nodes[i].id == i
      && Sized(nodes[i])
      && Distinct(nodes[i].peers)
      && (forall k :: 0 <= k < |nodes[i].peers| ==> nodes[i].peers[k] in nodes && nodes[i].peers[k] != i)
      && |nodes| == |nodes[i].peers| + 1
  }

  ghost predicate Shaped(c: Cluster) {
    ShapedNodes(c.nodes)
  }

  ghost predicate Initial(c: Cluster) {
    && Shaped(c)
    && (forall i :: i in c.nodes ==> c.nodes[i] == NewNode(i, c.nodes[i].peers))
    && c.net == {}
  }

  predicate VoteBearing(msg: Message) {
    msg.RequestVote? || (msg.RequestVoteReply? && msg.voteGranted)
  }

  predicate Enabled(c: Cluster, a: Action) {
    match a
    case Elect(i) => i in c.nodes
    case Submit(i, _, _) => i in c.nodes
    case Deliver(p) => p in c.net && p.dst in c.nodes
    case Drop(p) => p in c.net
  }

  function Actor(a: Action): NodeId {
    match a
    case Elect(i) => i
    case Submit(i, _, _) => i
    case Deliver(p) => p.dst
    case Drop(p) => p.dst
  }

  /** What the acting node does. */
  function Effect(c: Cluster, a: Action): Outcome
    requires Shaped(c) && Enabled(c, a) && !a.Drop?
  {
    match a
    case Elect(i) => StartElection(c.nodes[i])
    case Submit(i, src, dst) => Propose(c.nodes[i], src, dst).1
    case Deliver(p) => Step(c.nodes[p.dst], p.src, p.msg)
  }

  function Emitted(from: NodeId, sent: seq<Send>): set<Packet> {
    set k | 0 <= k < |sent| :: Packet(from, sent[k].to, sent[k].msg)
  }

  function Remaining(net: set<Packet>, a: Action): set<Packet> {
    if a.Drop? || (a.Deliver? && VoteBearing(a.packet.msg)) then net - {a.packet} else net
  }

  /** One transition; an action that is not enabled changes nothing. */
  function Apply(c: Cluster, a: Action): Cluster
    requires Shaped(c)
  {
    if !Enabled(c, a) then c
    else if a.Drop? then Cluster(c.nodes, Remaining(c.net, a))
    else
      var o := Effect(c, a);
      Cluster(c.nodes[Actor(a) := o.node], Remaining(c.net, a) + Emitted(Actor(a), o.sent))
  }

  lemma EffectKeepsIdentity(c: Cluster, a: Action)
    requires Shaped(c) && Enabled(c, a) && !a.Drop?
    ensures SameIdentity(c.nodes[Actor(a)], Effect(c, a).node)
  {
    match a
    case Elect(i) => ElectionKeepsIdentity(c.nodes[i]);
    case Submit(i, src, dst) => ProposeKeepsIdentity(c.nodes[i], src, dst);
    case Deliver(p) => StepKeepsIdentity(c.nodes[p.dst], p.src, p.msg);
  }

  lemma ApplyKeepsShape(c: Cluster, a: Action)
    requires Shaped(c)
    ensures Shaped(Apply(c, a))
    ensures Apply(c, a).nodes.Keys == c.nodes.Keys
  {
    if Enabled(c, a) && !a.Drop? {
      EffectKeepsIdentity(c, a);
    }
  }

  /** The cluster after the given actions. */
  function Run(c: Cluster, actions: seq<Action>): (c': Cluster)
    requires Shaped(c)
    ensures Shaped(c') && c'.nodes.Keys == c.nodes.Keys
  {
    if |actions| == 0 then c
    else
      var before := Run(c, actions[..|actions| - 1]);
      ApplyKeepsShape(before, actions[|actions| - 1]);
      Apply(before, actions[|actions| - 1])
  }

  lemma RunStep(c: Cluster, actions: seq<Action>, k: nat)
    requires Shaped(c) && k < |actions|
    ensures Run(c, actions[..k + 1]) == Apply(Run(c, actions[..k]), actions[k])
  {
    assert actions[..k + 1][..k] == actions[..k];
  }

  /** Action `a` makes its node report the entry at `index` as committed: `step` returned it,
      or `propose` committed it in a cluster of one. */
  predicate Commits(c: Cluster, a: Action, index: nat, entry: Entry)
    requires Shaped(c)
  {
    && Enabled(c, a)
    && !a.Drop?
    && var o := Effect(c, a);
       && o.node.commit == index
       && 1 <= index <= |o.node.log|
       && o.node.log[index - 1] == entry
       && match a
          case Deliver(_) => o.committed == Some(entry)
          case Submit(i, src, dst) => Propose(c.nodes[i], src, dst).0.Ok? && |c.nodes[i].peers| == 0
          case _ => false
  }

  // ---------- peers ----------

  function Elements(peers: seq<NodeId>): set<NodeId> {
    set k | 0 <= k < |peers| :: peers[k]
  }

  lemma {:induction false} ElementsCount(peers: seq<NodeId>)
    requires Distinct(peers)
    ensures |Elements(peers)| == |peers|
  {
    if |peers| > 0 {
      var front, last := peers[..|peers| - 1], peers[|peers| - 1];
      ElementsCount(front);
      assert Elements(peers) == Elements(front) + {last};
    }
  }

  lemma SameSize(a: set<NodeId>, b: set<NodeId>)
    requires a <= b && |a| >= |b|
    ensures a == b
  {
    assert b == a + (b - a);
  }

  /** The peers of a node are all the others. */
  lemma PeersAreOthers(c: Cluster, x: NodeId, y: NodeId)
    requires Shaped(c) && x in c.nodes && y in c.nodes && x != y
    ensures y in c.nodes[x].peers
  {
    var peers := c.nodes[x].peers;
    ElementsCount(peers);
    assert |c.nodes.Keys| == |c.nodes| == |peers| + 1;
    assert Elements(peers) <= c.nodes.Keys - {x};
    SameSize(Elements(peers), c.nodes.Keys - {x});
    assert y in Elements(peers);
  }
}
