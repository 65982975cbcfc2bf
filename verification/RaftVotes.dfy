/** Votes that arrive more than once, and the two leaders they can make. */
module RaftVotes {
  import opened Types
  import opened RaftSpec
  import opened RaftCluster
  import opened RaftLogs
  import opened RaftRedelivery

  /** The node after the same granted vote of its term was delivered `times` times. */
  function Delivered(n: Node, from: NodeId, times: nat): (n': Node)
    requires Sized(n)
    ensures Sized(n') && n'.peers == n.peers && n'.term == n.term && n'.id == n.id
    decreases times
  {
    if times == 0 then n
    else Step(Delivered(n, from, times - 1), from, RequestVoteReply(n.term, true)).node
  }

  /** One voter's reply, delivered often enough, elects a candidate: exactly when the deliveries and the votes it
      already has add up to the quorum. */
  lemma {:induction false} RepeatedGrantElects(n: Node, from: NodeId, times: nat)
    requires Sized(n) && n.role == Candidate && n.votes < Quorum(|n.peers|)
    ensures Delivered(n, from, times).role == Leader <==> n.votes + times >= Quorum(|n.peers|)
    ensures Delivered(n, from, times).role != Leader ==>
      Delivered(n, from, times).role == Candidate && Delivered(n, from, times).votes == n.votes + times
  {
    if times > 0 {
      RepeatedGrantElects(n, from, times - 1);
    }
  }

  // ---------- a run with two leaders ----------

  /** After `done`, node `x` is `n`. */
  ghost predicate Is(c: Cluster, done: seq<Action>, x: NodeId, n: Node) {
    Shaped(c) && x in c.nodes && RunAgain(c, done).nodes[x] == n
  }

  ghost predicate InFlight(c: Cluster, done: seq<Action>, p: Packet) {
    Shaped(c) && p in RunAgain(c, done).net
  }

  lemma Performs(c: Cluster, done: seq<Action>, a: Action)
    requires Shaped(c)
    ensures RunAgain(c, done + [a]) == Redeliver(RunAgain(c, done), a)
  {
    assert (done + [a])[..|done + [a]| - 1] == done;
  }

  /** An action of another node changes nothing here, and no packet is lost. */
  lemma Elsewhere(c: Cluster, done: seq<Action>, a: Action, x: NodeId, n: Node)
    requires Is(c, done, x, n) && !a.Drop? && Actor(a) != x
    ensures Is(c, done + [a], x, n)
  {
    Performs(c, done, a);
  }

  lemma NotLost(c: Cluster, done: seq<Action>, a: Action, p: Packet)
    requires InFlight(c, done, p) && !a.Drop?
    ensures InFlight(c, done + [a], p)
  {
    Performs(c, done, a);
  }

  lemma LeftAlone(c: Cluster, done: seq<Action>, a: Action, y: NodeId, m: Node, p: Packet, q: Packet)
    requires Is(c, done, y, m) && !a.Drop? && Actor(a) != y && InFlight(c, done, p) && InFlight(c, done, q)
    ensures Is(c, done + [a], y, m) && InFlight(c, done + [a], p) && InFlight(c, done + [a], q)
  {
    Elsewhere(c, done, a, y, m);
    NotLost(c, done, a, p);
    NotLost(c, done, a, q);
  }

  lemma Takes(c: Cluster, done: seq<Action>, p: Packet, n: Node)
    requires InFlight(c, done, p) && Is(c, done, p.dst, n) && Sized(n)
    ensures Is(c, done + [Deliver(p)], p.dst, Step(n, p.src, p.msg).node)
    ensures forall k :: 0 <= k < |Step(n, p.src, p.msg).sent| ==>
      InFlight(c, done + [Deliver(p)],
        Packet(p.dst, Step(n, p.src, p.msg).sent[k].to, Step(n, p.src, p.msg).sent[k].msg))
  {
    Performs(c, done, Deliver(p));
  }

  lemma Moves(c: Cluster, done: seq<Action>, p: Packet, n: Node, n': Node)
    requires InFlight(c, done, p) && Is(c, done, p.dst, n) && Sized(n) && n' == Step(n, p.src, p.msg).node
    ensures Is(c, done + [Deliver(p)], p.dst, n')
  {
    Performs(c, done, Deliver(p));
  }

  function Candidacy(x: NodeId, peers: seq<NodeId>): Node {
    Standing(NewNode(x, peers))
  }

  function Request(x: NodeId, v: NodeId): Packet {
    Packet(x, v, RequestVote(1, x, 0, 0))
  }

  function Grant(v: NodeId, x: NodeId): Packet {
    Packet(v, x, RequestVoteReply(1, true))
  }

  /** A fresh node stands and asks all the others. */
  lemma Asks(c: Cluster, done: seq<Action>, x: NodeId, peers: seq<NodeId>, v: NodeId)
    requires Is(c, done, x, NewNode(x, peers)) && 0 < |peers| <= MAX_PEERS && v in peers
    ensures Is(c, done + [Elect(x)], x, Candidacy(x, peers)) && InFlight(c, done + [Elect(x)], Request(x, v))
  {
    Performs(c, done, Elect(x));
    var o := StartElection(NewNode(x, peers));
    var k :| 0 <= k < |peers| && peers[k] == v;
    assert o.sent[k] == Send(v, RequestVote(1, x, 0, 0));
    assert Packet(x, o.sent[k].to, o.sent[k].msg) == Request(x, v);
  }

  /** A fresh node grants the first request it gets. */
  lemma Answers(c: Cluster, done: seq<Action>, x: NodeId, v: NodeId, peers: seq<NodeId>)
    requires InFlight(c, done, Request(x, v)) && Is(c, done, v, NewNode(v, peers)) && |peers| <= MAX_PEERS
    ensures InFlight(c, done + [Deliver(Request(x, v))], Grant(v, x))
  {
    var p, n := Request(x, v), NewNode(v, peers);
    Takes(c, done, p, n);
    assert Step(n, p.src, p.msg).sent[0] == Send(x, RequestVoteReply(1, true));
  }

  /** The candidate `n` counted `times` more votes. */
  ghost predicate CountedMore(n: Node, n': Node, times: nat) {
    && Sized(n') && n'.term == n.term
    && (if n.votes + times < Quorum(|n.peers|) then n' == n.(votes := n.votes + times) else n'.role == Leader)
  }

  lemma CountsOneMore(n: Node, n': Node, times: nat, from: NodeId)
    requires Sized(n) && n.role == Candidate && CountedMore(n, n', times)
    ensures CountedMore(n, Step(n', from, RequestVoteReply(n.term, true)).node, times + 1)
  {
    StepKeepsIdentity(n', from, RequestVoteReply(n.term, true));
  }

  lemma TakesGrant(c: Cluster, done: seq<Action>, x: NodeId, v: NodeId, n: Node, n1: Node, times: nat)
    returns (n': Node)
    requires InFlight(c, done, Grant(v, x)) && Is(c, done, x, n1) && Sized(n) && n.role == Candidate && n.term == 1
    requires CountedMore(n, n1, times)
    ensures Is(c, done + [Deliver(Grant(v, x))], x, n') && CountedMore(n, n', times + 1)
  {
    n' := Step(n1, v, RequestVoteReply(1, true)).node;
    CountsOneMore(n, n1, times, v);
    Moves(c, done, Grant(v, x), n1, n');
  }

  /** After `done`, the candidate `n` has counted the grant `times` times and is `n'`; the other node `y` and the
      packet `q` are as they were. */
  ghost predicate Counted(c: Cluster, done: seq<Action>, x: NodeId, v: NodeId, n: Node, n': Node, times: nat,
                          y: NodeId, m: Node, q: Packet) {
    && InFlight(c, done, Grant(v, x)) && Is(c, done, x, n') && CountedMore(n, n', times)
    && Is(c, done, y, m) && InFlight(c, done, q)
  }

  lemma CountedAgain(c: Cluster, done: seq<Action>, x: NodeId, v: NodeId, n: Node, n1: Node, times: nat,
                     y: NodeId, m: Node, q: Packet) returns (n': Node)
    requires Counted(c, done, x, v, n, n1, times, y, m, q)
    requires Sized(n) && n.role == Candidate && n.term == 1 && y != x
    ensures Counted(c, done + [Deliver(Grant(v, x))], x, v, n, n', times + 1, y, m, q)
  {
    n' := TakesGrant(c, done, x, v, n, n1, times);
    LeftAlone(c, done, Deliver(Grant(v, x)), y, m, Grant(v, x), q);
  }

  /** One grant, delivered again and again. */
  lemma {:induction false} IsElected(c: Cluster, done: seq<Action>, x: NodeId, v: NodeId, n: Node, times: nat,
                                     y: NodeId, m: Node, q: Packet) returns (after: seq<Action>, n': Node)
    requires Counted(c, done, x, v, n, n, 0, y, m, q)
    requires Sized(n) && n.role == Candidate && n.term == 1 && y != x
    ensures Counted(c, after, x, v, n, n', times, y, m, q)
    decreases times
  {
    if times == 0 {
      after, n' := done, n;
    } else {
      var before, n1 := IsElected(c, done, x, v, n, times - 1, y, m, q);
      n' := CountedAgain(c, before, x, v, n, n1, times - 1, y, m, q);
      after := before + [Deliver(Grant(v, x))];
    }
  }

  /** Four different nodes of the cluster. */
  ghost predicate Four(c: Cluster, a: NodeId, b: NodeId, v: NodeId, w: NodeId) {
    && a in c.nodes && b in c.nodes && v in c.nodes && w in c.nodes
    && a != b && a != v && a != w && b != v && b != w && v != w
  }

  lemma FourExist(c: Cluster) returns (a: NodeId, b: NodeId, v: NodeId, w: NodeId)
    requires |c.nodes.Keys| >= 4
    ensures Four(c, a, b, v, w)
  {
    var keys := c.nodes.Keys;
    a := Another(keys, {});
    b := Another(keys, {a});
    v := Another(keys, {a, b});
    w := Another(keys, {a, b, v});
  }

  /** The four nodes before anything happened. */
  ghost predicate FreshFour(c: Cluster, a: NodeId, b: NodeId, v: NodeId, w: NodeId, pa: seq<NodeId>, pb: seq<NodeId>,
                            pv: seq<NodeId>, pw: seq<NodeId>) {
    && a != b && a != v && a != w && b != v && b != w && v != w
    && Is(c, [], a, NewNode(a, pa)) && Is(c, [], b, NewNode(b, pb))
    && Is(c, [], v, NewNode(v, pv)) && Is(c, [], w, NewNode(w, pw))
    && v in pa && w in pb
    && |pa| <= MAX_PEERS && |pb| <= MAX_PEERS && |pv| <= MAX_PEERS && |pw| <= MAX_PEERS
  }

  lemma FreshStart(c: Cluster, a: NodeId, b: NodeId, v: NodeId, w: NodeId)
    requires Initial(c) && Four(c, a, b, v, w)
    ensures FreshFour(c, a, b, v, w, c.nodes[a].peers, c.nodes[b].peers, c.nodes[v].peers, c.nodes[w].peers)
  {
    PeersAreOthers(c, a, v);
    PeersAreOthers(c, b, w);
  }

  lemma BothAsk(c: Cluster, a: NodeId, b: NodeId, v: NodeId, w: NodeId, pa: seq<NodeId>, pb: seq<NodeId>,
                pv: seq<NodeId>, pw: seq<NodeId>) returns (done: seq<Action>)
    requires FreshFour(c, a, b, v, w, pa, pb, pv, pw)
    ensures Is(c, done, a, Candidacy(a, pa)) && Is(c, done, b, Candidacy(b, pb))
    ensures Is(c, done, v, NewNode(v, pv)) && Is(c, done, w, NewNode(w, pw))
    ensures InFlight(c, done, Request(a, v)) && InFlight(c, done, Request(b, w))
  {
    Asks(c, [], a, pa, v);
    Elsewhere(c, [], Elect(a), b, NewNode(b, pb));
    Elsewhere(c, [], Elect(a), v, NewNode(v, pv));
    Elsewhere(c, [], Elect(a), w, NewNode(w, pw));
    var one := [] + [Elect(a)];
    Asks(c, one, b, pb, w);
    NotLost(c, one, Elect(b), Request(a, v));
    Elsewhere(c, one, Elect(b), a, Candidacy(a, pa));
    Elsewhere(c, one, Elect(b), v, NewNode(v, pv));
    Elsewhere(c, one, Elect(b), w, NewNode(w, pw));
    done := one + [Elect(b)];
  }

  /** One answer, seen by two other nodes. */
  lemma OneAnswers(c: Cluster, done: seq<Action>, x: NodeId, v: NodeId, peers: seq<NodeId>,
        y: NodeId, m: Node, z: NodeId, n: Node, q: Packet)
    requires InFlight(c, done, Request(x, v)) && Is(c, done, v, NewNode(v, peers)) && |peers| <= MAX_PEERS
    requires y != v && z != v && Is(c, done, y, m) && Is(c, done, z, n) && InFlight(c, done, q)
    ensures var after := done + [Deliver(Request(x, v))];
      InFlight(c, after, Grant(v, x)) && Is(c, after, y, m) && Is(c, after, z, n) && InFlight(c, after, q)
  {
    Answers(c, done, x, v, peers);
    LeftAlone(c, done, Deliver(Request(x, v)), y, m, q, q);
    Elsewhere(c, done, Deliver(Request(x, v)), z, n);
  }

  lemma BothAnswer(c: Cluster, done: seq<Action>, a: NodeId, b: NodeId, v: NodeId, w: NodeId, m: Node, n: Node,
                   pv: seq<NodeId>, pw: seq<NodeId>) returns (after: seq<Action>)
    requires a != v && b != v && a != w && b != w && v != w && |pv| <= MAX_PEERS && |pw| <= MAX_PEERS
    requires Is(c, done, a, m) && Is(c, done, b, n) && Is(c, done, v, NewNode(v, pv)) && Is(c, done, w, NewNode(w, pw))
    requires InFlight(c, done, Request(a, v)) && InFlight(c, done, Request(b, w))
    ensures Is(c, after, a, m) && Is(c, after, b, n)
    ensures InFlight(c, after, Grant(v, a)) && InFlight(c, after, Grant(w, b))
  {
    OneAnswers(c, done, a, v, pv, a, m, b, n, Request(b, w));
    Elsewhere(c, done, Deliver(Request(a, v)), w, NewNode(w, pw));
    var one := done + [Deliver(Request(a, v))];
    OneAnswers(c, one, b, w, pw, a, m, b, n, Grant(v, a));
    after := one + [Deliver(Request(b, w))];
  }

  /** In every cluster of four nodes or more: one vote for each of two candidates, delivered again and again. */
  lemma TwoLeaders(c: Cluster) returns (actions: seq<Action>, a: NodeId, b: NodeId)
    requires Initial(c) && |c.nodes.Keys| >= 4
    ensures a != b && a in c.nodes && b in c.nodes
    ensures BothLead(RunAgain(c, actions).nodes[a], RunAgain(c, actions).nodes[b])
  {
    var v, w;
    a, b, v, w := FourExist(c);
    FreshStart(c, a, b, v, w);
    actions := LeadTogether(c, a, b, v, w, c.nodes[a].peers, c.nodes[b].peers, c.nodes[v].peers, c.nodes[w].peers);
  }

  lemma LeadTogether(c: Cluster, a: NodeId, b: NodeId, v: NodeId, w: NodeId, pa: seq<NodeId>, pb: seq<NodeId>,
                     pv: seq<NodeId>, pw: seq<NodeId>) returns (actions: seq<Action>)
    requires FreshFour(c, a, b, v, w, pa, pb, pv, pw)
    ensures Shaped(c) && a in c.nodes && b in c.nodes
    ensures BothLead(RunAgain(c, actions).nodes[a], RunAgain(c, actions).nodes[b])
  {
    var asked := BothAsk(c, a, b, v, w, pa, pb, pv, pw);
    var answered := BothAnswer(c, asked, a, b, v, w, Candidacy(a, pa), Candidacy(b, pb), pv, pw);
    CandidacyCounts(a, pa);
    CandidacyCounts(b, pb);
    actions := BothElected(c, answered, a, b, v, w, Candidacy(a, pa), Candidacy(b, pb));
  }

  lemma CandidacyCounts(x: NodeId, peers: seq<NodeId>)
    requires 0 < |peers| <= MAX_PEERS
    ensures var n := Candidacy(x, peers);
      Sized(n) && n.term == 1 && n.role == Candidate && n.votes == 1 < Quorum(|n.peers|)
  {
  }

  lemma BothElected(c: Cluster, done: seq<Action>, a: NodeId, b: NodeId, v: NodeId, w: NodeId, m: Node, n: Node)
    returns (after: seq<Action>)
    requires a != b && Is(c, done, a, m) && Is(c, done, b, n) && Sized(m) && Sized(n) && m.term == 1 && n.term == 1
    requires m.role == Candidate && n.role == Candidate && m.votes == 1 < Quorum(|m.peers|)
    requires n.votes == 1 < Quorum(|n.peers|)
    requires InFlight(c, done, Grant(v, a)) && InFlight(c, done, Grant(w, b))
    ensures Shaped(c) && a in c.nodes && b in c.nodes
    ensures BothLead(RunAgain(c, after).nodes[a], RunAgain(c, after).nodes[b])
  {
    var first, m' := IsElected(c, done, a, v, m, Quorum(|m.peers|) - 1, b, n, Grant(w, b));
    var n';
    after, n' := IsElected(c, first, b, w, n, Quorum(|n.peers|) - 1, a, m', Grant(w, b));
  }

  /** With votes delivered again, Election Safety holds in all runs of a cluster if and only if it has at most three
      nodes. */
  lemma ElectionSafeIff(c: Cluster)
    requires Initial(c)
    ensures (forall actions :: OneLeaderPerTerm(c, actions)) <==> |c.nodes.Keys| <= 3
  {
    if |c.nodes.Keys| <= 3 {
      forall actions
        ensures OneLeaderPerTerm(c, actions)
      {
        SmallClusterSafe(c, actions);
      }
    } else {
      var actions, a, b := TwoLeaders(c);
      assert actions[..|actions|] == actions;
      assert BothLead(NodeAt(c, actions, |actions|, a), NodeAt(c, actions, |actions|, b));
      assert !OneLeaderPerTerm(c, actions);
    }
  }

  lemma SmallClusterSafe(c: Cluster, actions: seq<Action>)
    requires Initial(c) && |c.nodes.Keys| <= 3
    ensures OneLeaderPerTerm(c, actions)
  {
    forall i, j, x, y | 0 <= i <= |actions| && 0 <= j <= |actions| && x in c.nodes && y in c.nodes
                        && BothLead(NodeAt(c, actions, i, x), NodeAt(c, actions, j, y))
      ensures x == y
    {
      if x != y {
        TwoLeadersNeedFour(c, actions, i, j, x, y);
      }
    }
  }
}
