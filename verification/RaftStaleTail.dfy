/** Runs in which a follower commits an entry that differs from the one a leader committed at that index.

    Node `a` leads term 1 and appends seventeen entries, sixteen of which reach node `b` and enough others. Node `b`
    leads term 2 and commits its own seventeenth entry with those others. Node `b` wins term 3 as well; node `a` refuses
    its next batch, and the refusal, delivered seventeen times, walks the next index for `a` back to 1. The next batch
    then carries sixteen entries that `a` already has and a leader commit of 17: `a` keeps its stale seventeenth entry
    and commits it. Every cluster of three nodes or more has such a run. */
module RaftStaleTail {
  import opened Types
  import opened RaftSpec
  import opened RaftOverlay
  import opened RaftCluster
  import opened RaftLogs
  import opened RaftTheorems
  import opened RaftFollowers
  import opened RaftPair

  // ---------- pieces of runs ----------

  /** The actions lead from one state to the other. */
  ghost predicate Leads(s: Cluster, actions: seq<Action>, s': Cluster) {
    Shaped(s) && Shaped(s') && Run(s, actions) == s'
  }

  lemma {:induction false} RunConcat(s: Cluster, a: seq<Action>, b: seq<Action>)
    requires Shaped(s)
    ensures Run(s, a + b) == Run(Run(s, a), b)
  {
    if |b| == 0 {
      assert a + b == a;
    } else {
      var front := b[..|b| - 1];
      RunConcat(s, a, front);
      assert (a + b)[..|a + b| - 1] == a + front;
    }
  }

  lemma LeadsOn(s: Cluster, a: seq<Action>, s1: Cluster, b: seq<Action>, s2: Cluster)
    requires Leads(s, a, s1) && Leads(s1, b, s2)
    ensures Leads(s, a + b, s2)
  {
    RunConcat(s, a, b);
  }

  lemma OneAction(s: Cluster, a: Action)
    requires Shaped(s)
    ensures Leads(s, [a], Apply(s, a))
  {
    ApplyKeepsShape(s, a);
    assert [a][..|[a]| - 1] == [];
    assert Run(s, []) == s;
  }

  /** Only the nodes in `moved` changed, and no packet was lost that may be delivered again. */
  ghost predicate Changed(s: Cluster, s': Cluster, moved: set<NodeId>) {
    && s'.nodes.Keys == s.nodes.Keys
    && (forall x {:trigger s'.nodes[x]} :: x in s.nodes && x !in moved ==> s'.nodes[x] == s.nodes[x])
    && (forall p {:trigger p in s'.net} :: p in s.net && !VoteBearing(p.msg) ==> p in s'.net)
  }

  lemma ChangedOn(s: Cluster, s1: Cluster, s2: Cluster, moved: set<NodeId>, more: set<NodeId>)
    requires Changed(s, s1, moved) && Changed(s1, s2, more)
    ensures Changed(s, s2, moved + more)
  {
  }

  lemma ChangedAgain(s: Cluster, s1: Cluster, s2: Cluster, moved: set<NodeId>, x: NodeId)
    requires Changed(s, s1, moved) && Changed(s1, s2, {x}) && x in moved
    ensures Changed(s, s2, moved)
  {
  }

  lemma ChangedMore(s: Cluster, s': Cluster, moved: set<NodeId>, more: set<NodeId>)
    requires Changed(s, s', moved) && moved <= more
    ensures Changed(s, s', more)
  {
  }

  lemma Stands(s: Cluster, x: NodeId) returns (s': Cluster)
    requires Shaped(s) && x in s.nodes
    ensures Leads(s, [Elect(x)], s') && Changed(s, s', {x})
    ensures s'.nodes[x] == StartElection(s.nodes[x]).node && Emitted(x, StartElection(s.nodes[x]).sent) <= s'.net
  {
    OneAction(s, Elect(x));
    s' := Apply(s, Elect(x));
  }

  lemma Submits(s: Cluster, x: NodeId) returns (s': Cluster)
    requires Shaped(s) && x in s.nodes
    ensures Leads(s, [Submit(x, 1, 1)], s') && Changed(s, s', {x})
    ensures s'.nodes[x] == Propose(s.nodes[x], 1, 1).1.node && Emitted(x, Propose(s.nodes[x], 1, 1).1.sent) <= s'.net
  {
    OneAction(s, Submit(x, 1, 1));
    s' := Apply(s, Submit(x, 1, 1));
  }

  lemma Takes(s: Cluster, p: Packet) returns (s': Cluster)
    requires Shaped(s) && p in s.net && p.dst in s.nodes
    ensures Leads(s, [Deliver(p)], s') && Changed(s, s', {p.dst}) && (forall q :: q in s.net && q != p ==> q in s'.net)
    ensures var o := Step(s.nodes[p.dst], p.src, p.msg); s'.nodes[p.dst] == o.node && Emitted(p.dst, o.sent) <= s'.net
  {
    OneAction(s, Deliver(p));
    s' := Apply(s, Deliver(p));
  }

  // ---------- winning an election with the votes of some helpers ----------

  /** The node would vote for the candidate that `n` becomes. */
  predicate WouldVote(m: Node, n: Node) {
    m.term <= n.term && UpToDate(|n.log|, LastTerm(n.log), m.log)
  }

  ghost predicate CanElect(s: Cluster, x: NodeId, helpers: seq<NodeId>) {
    && Shaped(s) && x in s.nodes && Distinct(helpers) && 0 < |helpers| == Quorum(|s.nodes[x].peers|) - 1
    && forall k :: 0 <= k < |helpers| ==> Helper(s, x, helpers[k])
  }

  /** Node `h` is asked by `x` and would vote for it. */
  ghost predicate Helper(s: Cluster, x: NodeId, h: NodeId) {
    x in s.nodes && h in s.nodes && h != x && h in s.nodes[x].peers && WouldVote(s.nodes[h], s.nodes[x])
  }

  function Ask(n: Node, to: NodeId): Packet {
    Packet(n.id, to, RequestVote(n.term + 1, n.id, |n.log|, LastTerm(n.log)))
  }

  function Grant(n: Node, from: NodeId): Packet {
    Packet(from, n.id, RequestVoteReply(n.term + 1, true))
  }

  function Voted(m: Node, n: Node): Node {
    m.(term := n.term + 1, role := Follower, votedFor := Some(n.id))
  }

  function Counting(n: Node, votes: nat): Node {
    Standing(n).(votes := votes)
  }

  function Won(n: Node, votes: nat): Node
    requires Sized(n)
  {
    BecomeLeader(Counting(n, votes))
  }

  lemma AsksAll(n: Node, to: NodeId)
    requires Sized(n) && to in n.peers
    ensures StartElection(n).node == Counting(n, 1) && Ask(n, to) in Emitted(n.id, StartElection(n).sent)
  {
    var k :| 0 <= k < |n.peers| && n.peers[k] == to;
    assert StartElection(n).sent[k] == Send(to, Ask(n, to).msg);
  }

  lemma VoteIsCast(m: Node, n: Node)
    requires Sized(m) && WouldVote(m, n)
    ensures var o := Step(m, n.id, Ask(n, m.id).msg);
      o.node == Voted(m, n) && Grant(n, m.id) in Emitted(m.id, o.sent)
  {
    assert Step(m, n.id, Ask(n, m.id).msg).sent[0] == Send(n.id, Grant(n, m.id).msg);
  }

  lemma VoteIsCounted(n: Node, votes: nat, from: NodeId)
    requires Sized(n)
    ensures Step(Counting(n, votes), from, Grant(n, from).msg).node
      == if votes + 1 >= Quorum(|n.peers|) then Won(n, votes + 1) else Counting(n, votes + 1)
  {
  }

  /** From `s0` on, node `x` stood and has counted the votes of the first `k` helpers. */
  ghost predicate Polled(s0: Cluster, s: Cluster, x: NodeId, helpers: seq<NodeId>, k: nat)
    requires CanElect(s0, x, helpers)
  {
    && Shaped(s) && k <= |helpers| && Changed(s0, s, {x} + Elements(helpers))
    && (forall j :: 0 <= j < |helpers| ==> PolledHelper(s0, s, x, helpers[j], j < k))
  }

  ghost predicate PolledHelper(s0: Cluster, s: Cluster, x: NodeId, h: NodeId, voted: bool) {
    && x in s0.nodes && h in s0.nodes && h in s.nodes
    && if voted then s.nodes[h] == Voted(s0.nodes[h], s0.nodes[x])
       else s.nodes[h] == s0.nodes[h] && Ask(s0.nodes[x], h) in s.net
  }

  function Candidate(n: Node, votes: nat): Node
    requires Sized(n)
  {
    if votes >= Quorum(|n.peers|) then Won(n, votes) else Counting(n, votes)
  }

  lemma StartsPoll(s0: Cluster, x: NodeId, helpers: seq<NodeId>) returns (s: Cluster)
    requires CanElect(s0, x, helpers)
    ensures Leads(s0, [Elect(x)], s) && Polled(s0, s, x, helpers, 0) && s.nodes[x] == Candidate(s0.nodes[x], 1)
  {
    s := Stands(s0, x);
    ChangedMore(s0, s, {x}, {x} + Elements(helpers));
    forall j | 0 <= j < |helpers|
      ensures PolledHelper(s0, s, x, helpers[j], false)
    {
      assert Helper(s0, x, helpers[j]);
      AsksAll(s0.nodes[x], helpers[j]);
    }
    assert Helper(s0, x, helpers[0]);
    AsksAll(s0.nodes[x], helpers[0]);
  }

  /** One helper votes. */
  lemma HelperVotes(s0: Cluster, s: Cluster, x: NodeId, h: NodeId) returns (s1: Cluster)
    requires Shaped(s0) && Shaped(s) && Helper(s0, x, h) && PolledHelper(s0, s, x, h, false) && x in s.nodes
    ensures Leads(s, [Deliver(Ask(s0.nodes[x], h))], s1) && PolledHelper(s0, s1, x, h, true) && Changed(s, s1, {h})
    ensures s1.nodes[x] == s.nodes[x] && Grant(s0.nodes[x], h) in s1.net
    ensures forall q :: q in s.net && q != Ask(s0.nodes[x], h) ==> q in s1.net
  {
    s1 := Takes(s, Ask(s0.nodes[x], h));
    VoteIsCast(s0.nodes[h], s0.nodes[x]);
  }

  lemma VoteArrives(s: Cluster, x: NodeId, n: Node, h: NodeId, votes: nat) returns (s1: Cluster)
    requires Shaped(s) && x in s.nodes && n.id == x && Sized(n) && s.nodes[x] == Counting(n, votes)
    requires Grant(n, h) in s.net
    ensures Leads(s, [Deliver(Grant(n, h))], s1) && Changed(s, s1, {x}) && s1.nodes[x] == Candidate(n, votes + 1)
    ensures forall q :: q in s.net && q != Grant(n, h) ==> q in s1.net
  {
    s1 := Takes(s, Grant(n, h));
    VoteIsCounted(n, votes, h);
  }

  /** One helper votes and its vote is counted. */
  lemma PollsOne(s0: Cluster, s: Cluster, x: NodeId, h: NodeId, votes: nat) returns (actions: seq<Action>, s': Cluster)
    requires Shaped(s0) && Shaped(s) && Helper(s0, x, h) && PolledHelper(s0, s, x, h, false)
    requires x in s.nodes && s.nodes[x] == Counting(s0.nodes[x], votes)
    ensures Leads(s, actions, s') && Changed(s, s', {x} + {h}) && PolledHelper(s0, s', x, h, true)
    ensures s'.nodes[x] == Candidate(s0.nodes[x], votes + 1)
    ensures forall q :: q in s.net && q != Ask(s0.nodes[x], h) && !q.msg.RequestVoteReply? ==> q in s'.net
  {
    var n := s0.nodes[x];
    var s1 := HelperVotes(s0, s, x, h);
    s' := VoteArrives(s1, x, n, h, votes);
    LeadsOn(s, [Deliver(Ask(n, h))], s1, [Deliver(Grant(n, h))], s');
    ChangedOn(s, s1, s', {h}, {x});
    assert {h} + {x} == {x} + {h};
    actions := [Deliver(Ask(n, h))] + [Deliver(Grant(n, h))];
  }

  lemma PolledNext(s0: Cluster, s: Cluster, s': Cluster, x: NodeId, helpers: seq<NodeId>, k: nat)
    requires CanElect(s0, x, helpers) && Polled(s0, s, x, helpers, k) && k < |helpers| && Shaped(s')
    requires Changed(s, s', {x} + {helpers[k]}) && PolledHelper(s0, s', x, helpers[k], true)
    requires forall q :: q in s.net && q != Ask(s0.nodes[x], helpers[k]) && !q.msg.RequestVoteReply? ==> q in s'.net
    ensures Polled(s0, s', x, helpers, k + 1)
  {
    ChangedOn(s0, s, s', {x} + Elements(helpers), {x} + {helpers[k]});
    assert {x} + Elements(helpers) + ({x} + {helpers[k]}) == {x} + Elements(helpers);
    forall j | 0 <= j < |helpers|
      ensures PolledHelper(s0, s', x, helpers[j], j < k + 1)
    {
      assert Helper(s0, x, helpers[j]) && PolledHelper(s0, s, x, helpers[j], j < k);
      assert j != k ==> helpers[j] != helpers[k];
    }
  }

  lemma {:induction false} FinishesPoll(s0: Cluster, s: Cluster, x: NodeId, helpers: seq<NodeId>, k: nat)
    returns (actions: seq<Action>, s': Cluster)
    requires CanElect(s0, x, helpers) && Polled(s0, s, x, helpers, k) && s.nodes[x] == Candidate(s0.nodes[x], k + 1)
    ensures Leads(s, actions, s') && Polled(s0, s', x, helpers, |helpers|)
    ensures s'.nodes[x] == Won(s0.nodes[x], |helpers| + 1)
    decreases |helpers| - k
  {
    if k == |helpers| {
      actions, s' := [], s;
    } else {
      assert Helper(s0, x, helpers[k]) && PolledHelper(s0, s, x, helpers[k], false);
      var first, s1 := PollsOne(s0, s, x, helpers[k], k + 1);
      PolledNext(s0, s, s1, x, helpers, k);
      var rest;
      rest, s' := FinishesPoll(s0, s1, x, helpers, k + 1);
      LeadsOn(s, first, s1, rest, s');
      actions := first + rest;
    }
  }

  /** What an election leaves behind. */
  ghost predicate Elected(s0: Cluster, s: Cluster, x: NodeId, helpers: seq<NodeId>)
    requires CanElect(s0, x, helpers)
  {
    && Shaped(s) && Changed(s0, s, {x} + Elements(helpers)) && s.nodes[x] == Won(s0.nodes[x], |helpers| + 1)
    && forall j :: 0 <= j < |helpers| ==> PolledHelper(s0, s, x, helpers[j], true)
  }

  lemma IsElected(s0: Cluster, x: NodeId, helpers: seq<NodeId>) returns (actions: seq<Action>, s: Cluster)
    requires CanElect(s0, x, helpers)
    ensures Leads(s0, actions, s) && Elected(s0, s, x, helpers)
  {
    var s1 := StartsPoll(s0, x, helpers);
    var rest;
    rest, s := FinishesPoll(s0, s1, x, helpers, 0);
    LeadsOn(s0, [Elect(x)], s1, rest, s);
    actions := [Elect(x)] + rest;
  }

  // ---------- one message for several nodes ----------

  ghost predicate CanSpread(s: Cluster, src: NodeId, targets: seq<NodeId>, msg: Message) {
    && Shaped(s) && Distinct(targets) && !VoteBearing(msg)
    && forall k :: 0 <= k < |targets| ==> targets[k] in s.nodes && Packet(src, targets[k], msg) in s.net
  }

  /** From `s0` on, the first `k` targets took the message. */
  ghost predicate Spread(s0: Cluster, s: Cluster, src: NodeId, targets: seq<NodeId>, msg: Message, k: nat)
    requires CanSpread(s0, src, targets, msg)
  {
    && Shaped(s) && k <= |targets| && Changed(s0, s, Elements(targets))
    && (forall j :: 0 <= j < |targets| ==> Reached(s0, s, src, targets[j], msg, j < k))
  }

  /** The target took the message and answered it, or is as it was. */
  ghost predicate Reached(s0: Cluster, s: Cluster, src: NodeId, t: NodeId, msg: Message, taken: bool) {
    && Shaped(s0) && t in s0.nodes && t in s.nodes
    && if taken then
         && s.nodes[t] == Step(s0.nodes[t], src, msg).node
         && (forall p :: p in Emitted(t, Step(s0.nodes[t], src, msg).sent) && !VoteBearing(p.msg) ==> p in s.net)
       else s.nodes[t] == s0.nodes[t]
  }

  lemma TargetTakes(s0: Cluster, s: Cluster, src: NodeId, t: NodeId, msg: Message) returns (s1: Cluster)
    requires Shaped(s) && Reached(s0, s, src, t, msg, false) && Packet(src, t, msg) in s.net
    ensures Leads(s, [Deliver(Packet(src, t, msg))], s1) && Reached(s0, s1, src, t, msg, true) && Changed(s, s1, {t})
  {
    s1 := Takes(s, Packet(src, t, msg));
  }

  lemma SpreadNext(s0: Cluster, s: Cluster, s1: Cluster, src: NodeId, targets: seq<NodeId>, msg: Message, k: nat)
    requires CanSpread(s0, src, targets, msg) && Spread(s0, s, src, targets, msg, k) && k < |targets| && Shaped(s1)
    requires Reached(s0, s1, src, targets[k], msg, true) && Changed(s, s1, {targets[k]})
    ensures Spread(s0, s1, src, targets, msg, k + 1)
  {
    ChangedOn(s0, s, s1, Elements(targets), {targets[k]});
    assert Elements(targets) + {targets[k]} == Elements(targets);
    forall j | 0 <= j < |targets|
      ensures Reached(s0, s1, src, targets[j], msg, j < k + 1)
    {
      assert Reached(s0, s, src, targets[j], msg, j < k);
      assert j != k ==> targets[j] != targets[k];
    }
  }

  lemma SpreadsOn(s0: Cluster, s: Cluster, src: NodeId, targets: seq<NodeId>, msg: Message, k: nat)
    returns (s1: Cluster)
    requires CanSpread(s0, src, targets, msg) && Spread(s0, s, src, targets, msg, k) && k < |targets|
    ensures Leads(s, [Deliver(Packet(src, targets[k], msg))], s1) && Spread(s0, s1, src, targets, msg, k + 1)
  {
    assert Reached(s0, s, src, targets[k], msg, false);
    s1 := TargetTakes(s0, s, src, targets[k], msg);
    SpreadNext(s0, s, s1, src, targets, msg, k);
  }

  lemma {:induction false} SpreadsFrom(s0: Cluster, s: Cluster, src: NodeId, targets: seq<NodeId>, msg: Message, k: nat)
    returns (actions: seq<Action>, s': Cluster)
    requires CanSpread(s0, src, targets, msg) && Spread(s0, s, src, targets, msg, k)
    ensures Leads(s, actions, s') && Spread(s0, s', src, targets, msg, |targets|)
    decreases |targets| - k
  {
    if k == |targets| {
      actions, s' := [], s;
    } else {
      var s1 := SpreadsOn(s0, s, src, targets, msg, k);
      var rest;
      rest, s' := SpreadsFrom(s0, s1, src, targets, msg, k + 1);
      LeadsOn(s, [Deliver(Packet(src, targets[k], msg))], s1, rest, s');
      actions := [Deliver(Packet(src, targets[k], msg))] + rest;
    }
  }

  lemma Spreads(s: Cluster, src: NodeId, targets: seq<NodeId>, msg: Message) returns (actions: seq<Action>, s': Cluster)
    requires CanSpread(s, src, targets, msg)
    ensures Leads(s, actions, s') && Spread(s, s', src, targets, msg, |targets|)
  {
    actions, s' := SpreadsFrom(s, s, src, targets, msg, 0);
  }

  // ---------- nodes by what matters of them ----------

  predicate Sits(n: Node, role: Role, term: nat, log: Log, commit: nat) {
    n.role == role && n.term == term && n.log == log && n.commit == commit
  }

  ghost predicate AllSit(s: Cluster, ids: seq<NodeId>, term: nat, log: Log) {
    forall k :: 0 <= k < |ids| ==> ids[k] in s.nodes && Sits(s.nodes[ids[k]], Follower, term, log, 0)
  }

  /** The leader counts every peer as having nothing, and will send it everything from `next` on. */
  ghost predicate Starting(n: Node, next: nat)
    requires Sized(n)
  {
    forall i :: 0 <= i < |n.peers| ==> n.nextIndex[i] == next && n.matchIndex[i] == 0
  }

  /** Node `x` and enough others to elect it. */
  ghost predicate Company(s: Cluster, x: NodeId, helpers: seq<NodeId>) {
    && Shaped(s) && x in s.nodes && Distinct(helpers) && 0 < |helpers| == Quorum(|s.nodes[x].peers|) - 1
    && forall k :: 0 <= k < |helpers| ==> helpers[k] in s.nodes && helpers[k] != x
  }

  lemma CompanyElects(s: Cluster, x: NodeId, helpers: seq<NodeId>, term: nat, log: Log)
    requires Company(s, x, helpers) && AllSit(s, helpers, term, log)
    requires term <= s.nodes[x].term && UpToDate(|s.nodes[x].log|, LastTerm(s.nodes[x].log), log)
    ensures CanElect(s, x, helpers)
  {
    forall k | 0 <= k < |helpers|
      ensures Helper(s, x, helpers[k])
    {
      PeersAreOthers(s, x, helpers[k]);
    }
  }

  lemma ElectedSit(s: Cluster, s': Cluster, x: NodeId, helpers: seq<NodeId>, term: nat, log: Log)
    requires CanElect(s, x, helpers) && Elected(s, s', x, helpers) && AllSit(s, helpers, term, log)
    ensures AllSit(s', helpers, s.nodes[x].term + 1, log)
  {
    forall k | 0 <= k < |helpers|
      ensures helpers[k] in s'.nodes && Sits(s'.nodes[helpers[k]], Follower, s.nodes[x].term + 1, log, 0)
    {
      assert PolledHelper(s, s', x, helpers[k], true);
    }
  }

  lemma WonStarts(n: Node, votes: nat)
    requires Sized(n)
    ensures var n' := Won(n, votes);
      Sits(n', Leader, n.term + 1, n.log, n.commit) && Starting(n', |n.log| + 1) && n'.peers == n.peers
  {
  }

  /** Node `x` takes over in its next term with the votes of the helpers. */
  lemma TakesOver(s: Cluster, x: NodeId, helpers: seq<NodeId>, term: nat, log: Log)
    returns (actions: seq<Action>, s': Cluster)
    requires Company(s, x, helpers) && AllSit(s, helpers, term, log)
    requires term <= s.nodes[x].term && UpToDate(|s.nodes[x].log|, LastTerm(s.nodes[x].log), log)
    ensures Leads(s, actions, s') && Changed(s, s', {x} + Elements(helpers)) && Company(s', x, helpers)
    ensures AllSit(s', helpers, s.nodes[x].term + 1, log)
    ensures var n, n' := s.nodes[x], s'.nodes[x];
      Sits(n', Leader, n.term + 1, n.log, n.commit) && Starting(n', |n.log| + 1)
  {
    CompanyElects(s, x, helpers, term, log);
    actions, s' := IsElected(s, x, helpers);
    ElectedSit(s, s', x, helpers, term, log);
    WonStarts(s.nodes[x], |helpers| + 1);
  }

  lemma CompanyStays(s: Cluster, s': Cluster, x: NodeId, helpers: seq<NodeId>, moved: set<NodeId>)
    requires Company(s, x, helpers) && Shaped(s') && Changed(s, s', moved) && s'.nodes[x].peers == s.nodes[x].peers
    ensures Company(s', x, helpers)
  {
  }

  lemma StillSit(s: Cluster, s': Cluster, ids: seq<NodeId>, term: nat, log: Log, moved: set<NodeId>)
    requires AllSit(s, ids, term, log) && Changed(s, s', moved) && forall k :: 0 <= k < |ids| ==> ids[k] !in moved
    ensures AllSit(s', ids, term, log)
  {
  }

  // ---------- submitting ----------

  function Appended(n: Node): Node {
    n.(log := n.log + [Entry(n.term, 1, 1)])
  }

  lemma LeaderSubmits(n: Node, i: nat)
    requires Sized(n) && n.role == Leader && |n.log| < LOG_CAPACITY && i < |n.peers|
    ensures var o := Propose(n, 1, 1).1;
      o.node == Appended(n) && Packet(n.id, n.peers[i], AppendFor(Appended(n), i).msg) in Emitted(n.id, o.sent)
  {
    var o := Propose(n, 1, 1).1;
    assert o.sent[i] == AppendFor(Appended(n), i);
    assert Packet(n.id, n.peers[i], AppendFor(Appended(n), i).msg) == Packet(n.id, o.sent[i].to, o.sent[i].msg);
  }

  const X: Entry := Entry(1, 1, 1)
  const Y: Entry := Entry(2, 1, 1)
  const Z: Entry := Entry(3, 1, 1)

  function Xs(k: nat): Log {
    seq(k, i => X)
  }

  function Ys(): Log {
    Xs(16) + [Y]
  }

  // ---------- term 1 ----------

  function Batch1(a: NodeId): Message {
    AppendEntries(1, a, 0, 0, Xs(16), 0)
  }

  lemma Batch1IsSent(n: Node, i: nat)
    requires Sized(n) && Sits(n, Leader, 1, Xs(17), 0) && Starting(n, 1) && i < |n.peers|
    ensures AppendFor(n, i) == Send(n.peers[i], Batch1(n.id))
  {
    assert NextBatch(Xs(17), 1) == Xs(16);
  }

  lemma OneMoreX(s: Cluster, a: NodeId, k: nat) returns (s': Cluster)
    requires Shaped(s) && a in s.nodes && k < 17 && Sits(s.nodes[a], Leader, 1, Xs(k), 0) && Starting(s.nodes[a], 1)
    requires |s.nodes[a].peers| > 0
    ensures Leads(s, [Submit(a, 1, 1)], s') && Changed(s, s', {a}) && s'.nodes[a].peers == s.nodes[a].peers
    ensures Sits(s'.nodes[a], Leader, 1, Xs(k + 1), 0) && Starting(s'.nodes[a], 1)
    ensures k == 16 ==> forall t :: t in s.nodes[a].peers ==> Packet(a, t, Batch1(a)) in s'.net
  {
    var n := s.nodes[a];
    s' := Submits(s, a);
    LeaderSubmits(n, 0);
    assert Xs(k) + [X] == Xs(k + 1);
    if k == 16 {
      forall t | t in n.peers
        ensures Packet(a, t, Batch1(a)) in s'.net
      {
        var i :| 0 <= i < |n.peers| && n.peers[i] == t;
        LeaderSubmits(n, i);
        Batch1IsSent(Appended(n), i);
      }
    }
  }

  lemma {:induction false} Fills(s: Cluster, a: NodeId, k: nat) returns (actions: seq<Action>, s': Cluster)
    requires Shaped(s) && a in s.nodes && k <= 16 && Sits(s.nodes[a], Leader, 1, Xs(k), 0) && Starting(s.nodes[a], 1)
    requires |s.nodes[a].peers| > 0
    ensures Leads(s, actions, s') && Changed(s, s', {a}) && Sits(s'.nodes[a], Leader, 1, Xs(17), 0)
    ensures forall t :: t in s.nodes[a].peers ==> Packet(a, t, Batch1(a)) in s'.net
    decreases 16 - k
  {
    var s1 := OneMoreX(s, a, k);
    if k == 16 {
      actions, s' := [Submit(a, 1, 1)], s1;
    } else {
      var rest;
      rest, s' := Fills(s1, a, k + 1);
      LeadsOn(s, [Submit(a, 1, 1)], s1, rest, s');
      ChangedOn(s, s1, s', {a}, {a});
      actions := [Submit(a, 1, 1)] + rest;
    }
  }

  lemma TakesBatch1(m: Node, a: NodeId)
    requires Sized(m) && m.role == Follower && m.term <= 1 && m.log == [] && m.commit == 0
    ensures Sits(Step(m, a, Batch1(a)).node, Follower, 1, Xs(16), 0)
  {
    OverlayCuts([], 0, Xs(16), 0);
  }

  /** The two leaders and the helpers of both. */
  ghost predicate Scene(s: Cluster, a: NodeId, b: NodeId, helpers: seq<NodeId>) {
    a != b && Company(s, a, helpers) && Company(s, b, helpers)
  }

  lemma SceneStays(s: Cluster, s': Cluster, a: NodeId, b: NodeId, helpers: seq<NodeId>, actions: seq<Action>)
    requires Scene(s, a, b, helpers) && Leads(s, actions, s')
    ensures Scene(s', a, b, helpers)
  {
    PeersStay(s, actions, a);
    PeersStay(s, actions, b);
  }

  lemma {:induction false} PeersStay(s: Cluster, actions: seq<Action>, x: NodeId)
    requires Shaped(s) && x in s.nodes
    ensures Run(s, actions).nodes[x].peers == s.nodes[x].peers
  {
    if |actions| > 0 {
      var before, a := Run(s, actions[..|actions| - 1]), actions[|actions| - 1];
      PeersStay(s, actions[..|actions| - 1], x);
      if Enabled(before, a) && !a.Drop? {
        EffectKeepsIdentity(before, a);
      }
    }
  }

  lemma Fresh(s: Cluster, a: NodeId, b: NodeId, helpers: seq<NodeId>)
    requires Initial(s) && Scene(s, a, b, helpers)
    ensures s.nodes[a].term == 0 && s.nodes[a].log == [] && s.nodes[a].commit == 0
    ensures Sits(s.nodes[b], Follower, 0, [], 0) && AllSit(s, helpers, 0, [])
  {
  }

  ghost predicate SentToAll(s: Cluster, a: NodeId, msg: Message) {
    forall t :: t in s.nodes && t != a ==> Packet(a, t, msg) in s.net
  }

  lemma PeersAreAll(s: Cluster, s': Cluster, a: NodeId, msg: Message)
    requires Shaped(s) && a in s.nodes && s'.nodes.Keys == s.nodes.Keys
    requires forall t :: t in s.nodes[a].peers ==> Packet(a, t, msg) in s'.net
    ensures SentToAll(s', a, msg)
  {
    forall t | t in s'.nodes && t != a
      ensures Packet(a, t, msg) in s'.net
    {
      PeersAreOthers(s, a, t);
    }
  }

  /** Node `a` wins term 1 and fills its log. */
  lemma WinsAndFills(s: Cluster, a: NodeId, helpers: seq<NodeId>) returns (actions: seq<Action>, s': Cluster)
    requires Company(s, a, helpers) && AllSit(s, helpers, 0, [])
    requires s.nodes[a].term == 0 && s.nodes[a].log == [] && s.nodes[a].commit == 0
    ensures Leads(s, actions, s') && Changed(s, s', {a} + Elements(helpers)) && SentToAll(s', a, Batch1(a))
    ensures Sits(s'.nodes[a], Leader, 1, Xs(17), 0) && AllSit(s', helpers, 1, [])
  {
    var first, s1 := TakesOver(s, a, helpers, 0, []);
    assert Xs(0) == [];
    var rest;
    rest, s' := Fills(s1, a, 0);
    StillSit(s1, s', helpers, 1, [], {a});
    PeersAreAll(s1, s', a, Batch1(a));
    LeadsOn(s, first, s1, rest, s');
    ChangedAgain(s, s1, s', {a} + Elements(helpers), a);
    actions := first + rest;
  }

  /** Node `a` leads term 1 and has sent sixteen of its seventeen entries to everybody. */
  lemma Opening(s: Cluster, a: NodeId, b: NodeId, helpers: seq<NodeId>) returns (actions: seq<Action>, s': Cluster)
    requires Initial(s) && Scene(s, a, b, helpers)
    ensures Leads(s, actions, s') && Scene(s', a, b, helpers) && SentToAll(s', a, Batch1(a))
    ensures Sits(s'.nodes[a], Leader, 1, Xs(17), 0) && Sits(s'.nodes[b], Follower, 0, [], 0)
    ensures AllSit(s', helpers, 1, [])
  {
    Fresh(s, a, b, helpers);
    actions, s' := WinsAndFills(s, a, helpers);
    SceneStays(s, s', a, b, helpers, actions);
  }

  lemma CanCopy(s: Cluster, a: NodeId, b: NodeId, helpers: seq<NodeId>)
    requires Scene(s, a, b, helpers) && SentToAll(s, a, Batch1(a))
    ensures CanSpread(s, a, [b] + helpers, Batch1(a)) && a !in Elements([b] + helpers)
  {
  }

  lemma CopySits(s: Cluster, s': Cluster, a: NodeId, t: NodeId, term: nat)
    requires Reached(s, s', a, t, Batch1(a), true) && Sits(s.nodes[t], Follower, term, [], 0) && term <= 1
    ensures Sits(s'.nodes[t], Follower, 1, Xs(16), 0)
  {
    TakesBatch1(s.nodes[t], a);
  }

  lemma CopiesSit(s: Cluster, s': Cluster, a: NodeId, b: NodeId, helpers: seq<NodeId>)
    requires b in s.nodes && Sits(s.nodes[b], Follower, 0, [], 0) && AllSit(s, helpers, 1, [])
    requires forall k :: 0 <= k < |[b] + helpers| ==> Reached(s, s', a, ([b] + helpers)[k], Batch1(a), true)
    ensures b in s'.nodes && Sits(s'.nodes[b], Follower, 1, Xs(16), 0) && AllSit(s', helpers, 1, Xs(16))
  {
    var targets := [b] + helpers;
    assert targets[0] == b && Reached(s, s', a, targets[0], Batch1(a), true);
    CopySits(s, s', a, b, 0);
    forall k | 0 <= k < |helpers|
      ensures helpers[k] in s'.nodes && Sits(s'.nodes[helpers[k]], Follower, 1, Xs(16), 0)
    {
      assert targets[k + 1] == helpers[k] && Reached(s, s', a, targets[k + 1], Batch1(a), true);
      CopySits(s, s', a, helpers[k], 1);
    }
  }

  /** Term 1: node `a` holds seventeen entries, `b` and the helpers the first sixteen. */
  lemma FirstTerm(s: Cluster, a: NodeId, b: NodeId, helpers: seq<NodeId>) returns (actions: seq<Action>, s': Cluster)
    requires Initial(s) && Scene(s, a, b, helpers)
    ensures Leads(s, actions, s') && Scene(s', a, b, helpers)
    ensures Sits(s'.nodes[a], Leader, 1, Xs(17), 0) && Sits(s'.nodes[b], Follower, 1, Xs(16), 0)
    ensures AllSit(s', helpers, 1, Xs(16))
  {
    var first, s1 := Opening(s, a, b, helpers);
    CanCopy(s1, a, b, helpers);
    var rest;
    rest, s' := Spreads(s1, a, [b] + helpers, Batch1(a));
    assert forall k :: 0 <= k < |[b] + helpers| ==>
      Reached(s1, s', a, ([b] + helpers)[k], Batch1(a), k < |[b] + helpers|);
    CopiesSit(s1, s', a, b, helpers);
    LeadsOn(s, first, s1, rest, s');
    actions := first + rest;
    SceneStays(s, s', a, b, helpers, actions);
  }

  // ---------- term 2 ----------

  function Batch2(b: NodeId): Message {
    AppendEntries(2, b, 16, 1, [Y], 0)
  }

  function Reply2(h: NodeId, b: NodeId): Packet {
    Packet(h, b, AppendEntriesReply(2, true, 17))
  }

  lemma Batch2IsSent(n: Node, i: nat)
    requires Sized(n) && Sits(n, Leader, 2, Xs(16), 0) && Starting(n, 17) && i < |n.peers|
    ensures Appended(n).log == Ys() && AppendFor(Appended(n), i) == Send(n.peers[i], Batch2(n.id))
  {
    assert NextBatch(Ys(), 17) == [Y];
  }

  lemma TakesBatch2(m: Node, b: NodeId)
    requires Sized(m) && Sits(m, Follower, 2, Xs(16), 0)
    ensures var o := Step(m, b, Batch2(b));
      Sits(o.node, Follower, 2, Ys(), 0) && Reply2(m.id, b) in Emitted(m.id, o.sent)
  {
    var o := Step(m, b, Batch2(b));
    OverlayCuts(Xs(16), 16, [Y], 0);
    assert Xs(16)[..16] + [Y][0..] == Ys();
    assert o.sent[0] == Send(b, Reply2(m.id, b).msg);
  }

  /** Node `b` submits its entry and sends it to everybody. */
  lemma SubmitsY(s: Cluster, b: NodeId) returns (s': Cluster)
    requires Shaped(s) && b in s.nodes && Sits(s.nodes[b], Leader, 2, Xs(16), 0) && Starting(s.nodes[b], 17)
    requires |s.nodes[b].peers| > 0
    ensures Leads(s, [Submit(b, 1, 1)], s') && Changed(s, s', {b}) && Sits(s'.nodes[b], Leader, 2, Ys(), 0)
    ensures SentToAll(s', b, Batch2(b))
  {
    var n := s.nodes[b];
    s' := Submits(s, b);
    LeaderSubmits(n, 0);
    Batch2IsSent(n, 0);
    forall t | t in n.peers
      ensures Packet(b, t, Batch2(b)) in s'.net
    {
      var i :| 0 <= i < |n.peers| && n.peers[i] == t;
      LeaderSubmits(n, i);
      Batch2IsSent(n, i);
    }
    PeersAreAll(s, s', b, Batch2(b));
  }

  ghost predicate AllReplied(s: Cluster, b: NodeId, helpers: seq<NodeId>) {
    forall k :: 0 <= k < |helpers| ==> Reply2(helpers[k], b) in s.net
  }

  lemma CopiesOfY(s: Cluster, s': Cluster, b: NodeId, helpers: seq<NodeId>)
    requires AllSit(s, helpers, 2, Xs(16)) && CanSpread(s, b, helpers, Batch2(b))
    requires Spread(s, s', b, helpers, Batch2(b), |helpers|)
    ensures AllSit(s', helpers, 2, Ys()) && AllReplied(s', b, helpers)
  {
    forall k | 0 <= k < |helpers|
      ensures helpers[k] in s'.nodes && Sits(s'.nodes[helpers[k]], Follower, 2, Ys(), 0)
      ensures Reply2(helpers[k], b) in s'.net
    {
      assert Reached(s, s', b, helpers[k], Batch2(b), true);
      TakesBatch2(s.nodes[helpers[k]], b);
    }
  }

  /** Node `b` wins term 2 and offers its entry. */
  lemma OffersY(s: Cluster, b: NodeId, helpers: seq<NodeId>) returns (actions: seq<Action>, s': Cluster)
    requires Company(s, b, helpers) && Sits(s.nodes[b], Follower, 1, Xs(16), 0) && AllSit(s, helpers, 1, Xs(16))
    ensures Leads(s, actions, s') && Changed(s, s', {b} + Elements(helpers)) && SentToAll(s', b, Batch2(b))
    ensures Sits(s'.nodes[b], Leader, 2, Ys(), 0) && AllSit(s', helpers, 2, Xs(16))
  {
    var first, s1 := TakesOver(s, b, helpers, 1, Xs(16));
    s' := SubmitsY(s1, b);
    StillSit(s1, s', helpers, 2, Xs(16), {b});
    LeadsOn(s, first, s1, [Submit(b, 1, 1)], s');
    ChangedAgain(s, s1, s', {b} + Elements(helpers), b);
    actions := first + [Submit(b, 1, 1)];
  }

  lemma CopiesY(s: Cluster, b: NodeId, helpers: seq<NodeId>) returns (actions: seq<Action>, s': Cluster)
    requires Shaped(s) && Distinct(helpers) && AllSit(s, helpers, 2, Xs(16)) && SentToAll(s, b, Batch2(b))
    requires b !in helpers
    ensures Leads(s, actions, s') && Changed(s, s', Elements(helpers)) && AllSit(s', helpers, 2, Ys())
    ensures AllReplied(s', b, helpers)
  {
    actions, s' := Spreads(s, b, helpers, Batch2(b));
    CopiesOfY(s, s', b, helpers);
  }

  /** From the end of term 1 to the moment when the helpers have acknowledged the entry of `b`. */
  lemma SecondTerm(s: Cluster, a: NodeId, b: NodeId, helpers: seq<NodeId>) returns (actions: seq<Action>, s': Cluster)
    requires Scene(s, a, b, helpers) && a !in {b} + Elements(helpers)
    requires Sits(s.nodes[a], Leader, 1, Xs(17), 0) && Sits(s.nodes[b], Follower, 1, Xs(16), 0)
    requires AllSit(s, helpers, 1, Xs(16))
    ensures Leads(s, actions, s') && Scene(s', a, b, helpers) && AllReplied(s', b, helpers)
    ensures Sits(s'.nodes[a], Leader, 1, Xs(17), 0) && Sits(s'.nodes[b], Leader, 2, Ys(), 0)
    ensures AllSit(s', helpers, 2, Ys())
  {
    var first, s1 := OffersY(s, b, helpers);
    var rest;
    rest, s' := CopiesY(s1, b, helpers);
    LeadsOn(s, first, s1, rest, s');
    actions := first + rest;
    SceneStays(s, s', a, b, helpers, actions);
  }

  /** The position of a peer. */
  function Place(n: Node, x: NodeId): nat
    requires x in n.peers
    ensures Place(n, x) < |n.peers| && n.peers[Place(n, x)] == x
  {
    IndexOf(n.peers, x).value
  }

  /** The leader has booked the acknowledgements of the first `k` helpers. */
  ghost predicate Booked(n: Node, helpers: seq<NodeId>, k: nat)
    requires Sized(n) && k <= |helpers|
  {
    forall j :: 0 <= j < k ==> helpers[j] in n.peers && n.matchIndex[Place(n, helpers[j])] >= 17
  }

  lemma PlacesDiffer(n: Node, x: NodeId, y: NodeId)
    requires x in n.peers && y in n.peers && x != y
    ensures Place(n, x) != Place(n, y)
  {
  }

  /** One acknowledgement: it commits the entry, or is booked. */
  lemma BooksReply(n: Node, helpers: seq<NodeId>, k: nat)
    requires Sized(n) && Sits(n, Leader, 2, Ys(), 0) && k < |helpers| && Distinct(helpers) && Booked(n, helpers, k)
    requires helpers[k] in n.peers
    ensures var o := Step(n, helpers[k], Reply2(helpers[k], n.id).msg);
      if o.committed.Some?
      then o.committed == Some(Y) && Sits(o.node, Leader, 2, Ys(), 17)
      else
        && Sits(o.node, Leader, 2, Ys(), 0) && Sized(o.node) && o.node.peers == n.peers
        && Booked(o.node, helpers, k + 1) && !Committable(o.node, 17)
  {
    var i := Place(n, helpers[k]);
    var n1 := n.(nextIndex := n.nextIndex[i := 18], matchIndex := n.matchIndex[i := 17]);
    var c := HighestCommittable(n1, 17);
    assert Ys()[16] == Y && forall j :: 0 <= j < 16 ==> Ys()[j] == X;
    assert c == 0 || c == 17;
    assert Step(n, helpers[k], Reply2(helpers[k], n.id).msg).node == n1.(commit := c);
    assert Committable(n1.(commit := c), 17) == Committable(n1, 17);
    forall j | 0 <= j < k + 1
      ensures helpers[j] in n1.peers && n1.matchIndex[Place(n1, helpers[j])] >= 17
    {
      assert Place(n1, helpers[j]) == Place(n, helpers[j]);
      if j < k {
        PlacesDiffer(n, helpers[j], helpers[k]);
      }
    }
  }

  function Places(n: Node, helpers: seq<NodeId>): set<nat>
    requires forall k :: 0 <= k < |helpers| ==> helpers[k] in n.peers
  {
    set k | 0 <= k < |helpers| :: Place(n, helpers[k])
  }

  lemma AllBookedCommits(n: Node, helpers: seq<NodeId>)
    requires Sized(n) && Sits(n, Leader, 2, Ys(), 0) && Distinct(helpers) && Booked(n, helpers, |helpers|)
    requires |helpers| == Quorum(|n.peers|) - 1
    ensures Committable(n, 17)
  {
    var places := Places(n, helpers);
    assert Elements(helpers) <= PeersAt(n.peers, places);
    ElementsCount(helpers);
    SubsetSize(Elements(helpers), PeersAt(n.peers, places));
    PeersAtMost(n.peers, places);
    assert places <= AckedPeers(n, 17);
    SubsetSize(places, AckedPeers(n, 17));
    assert TermAt(n.log, 17) == Some(2);
  }

  lemma {:induction false} PeersAtMost(peers: seq<NodeId>, positions: set<nat>)
    requires forall i :: i in positions ==> i < |peers|
    ensures |PeersAt(peers, positions)| <= |positions|
  {
    if positions != {} {
      var i :| i in positions;
      PeersAtMost(peers, positions - {i});
      assert PeersAt(peers, positions) == PeersAt(peers, positions - {i}) + {peers[i]};
    }
  }

  /** Node `b` gathers the acknowledgements until the next one commits its entry. */
  lemma {:induction false} Gathers(s: Cluster, b: NodeId, helpers: seq<NodeId>, k: nat)
    returns (actions: seq<Action>, s': Cluster, h: NodeId)
    requires Company(s, b, helpers) && k <= |helpers| && AllReplied(s, b, helpers)
    requires Sits(s.nodes[b], Leader, 2, Ys(), 0) && Booked(s.nodes[b], helpers, k)
    requires (k > 0 ==> !Committable(s.nodes[b], 17))
    ensures Leads(s, actions, s') && Changed(s, s', {b}) && Reply2(h, b) in s'.net
    ensures Sits(s'.nodes[b], Leader, 2, Ys(), 0)
    ensures var o := Step(s'.nodes[b], h, Reply2(h, b).msg); o.committed == Some(Y) && Sits(o.node, Leader, 2, Ys(), 17)
    decreases |helpers| - k
  {
    if k == |helpers| {
      AllBookedCommits(s.nodes[b], helpers);
      assert false;
    }
    PeersAreOthers(s, b, helpers[k]);
    BooksReply(s.nodes[b], helpers, k);
    if Step(s.nodes[b], helpers[k], Reply2(helpers[k], b).msg).committed.Some? {
      actions, s', h := [], s, helpers[k];
    } else {
      var s1 := Takes(s, Reply2(helpers[k], b));
      CompanyStays(s, s1, b, helpers, {b});
      var rest;
      rest, s', h := Gathers(s1, b, helpers, k + 1);
      LeadsOn(s, [Deliver(Reply2(helpers[k], b))], s1, rest, s');
      ChangedOn(s, s1, s', {b}, {b});
      actions := [Deliver(Reply2(helpers[k], b))] + rest;
    }
  }

  lemma ReplyCommits(s: Cluster, b: NodeId, h: NodeId)
    requires Shaped(s) && b in s.nodes && Reply2(h, b) in s.net
    requires var o := Step(s.nodes[b], h, Reply2(h, b).msg); o.committed == Some(Y) && Sits(o.node, Leader, 2, Ys(), 17)
    ensures Commits(s, Deliver(Reply2(h, b)), 17, Y)
  {
  }

  // ---------- term 3 ----------

  function Batch3(b: NodeId): Message {
    AppendEntries(3, b, 17, 2, [Z], 17)
  }

  function Refusal(a: NodeId, b: NodeId): Packet {
    Packet(a, b, AppendEntriesReply(3, false, 0))
  }

  function Batch4(b: NodeId): Message {
    AppendEntries(3, b, 0, 0, Xs(16), 17)
  }

  /** Node `b` leads term 3 and will send `x` everything from `next` on. */
  ghost predicate Third(n: Node, log: Log, x: NodeId, next: nat) {
    Sized(n) && Sits(n, Leader, 3, log, 17) && x in n.peers && n.nextIndex[Place(n, x)] == next
  }

  lemma Batch3IsSent(n: Node, a: NodeId)
    requires Third(n, Ys(), a, 18)
    ensures Third(Appended(n), Ys() + [Z], a, 18) && AppendFor(Appended(n), Place(n, a)) == Send(a, Batch3(n.id))
  {
    assert NextBatch(Ys() + [Z], 18) == [Z];
    assert Place(Appended(n), a) == Place(n, a);
  }

  lemma Batch4IsSent(n: Node, a: NodeId)
    requires Third(n, Ys() + [Z], a, 1)
    ensures Third(Appended(n), Ys() + [Z] + [Z], a, 1) && AppendFor(Appended(n), Place(n, a)) == Send(a, Batch4(n.id))
  {
    assert NextBatch(Ys() + [Z] + [Z], 1) == Xs(16);
    assert Place(Appended(n), a) == Place(n, a);
  }

  lemma RefusesBatch3(m: Node, b: NodeId)
    requires Sized(m) && Sits(m, Leader, 1, Xs(17), 0)
    ensures var o := Step(m, b, Batch3(b));
      Sits(o.node, Follower, 3, Xs(17), 0) && Refusal(m.id, b) in Emitted(m.id, o.sent)
  {
    assert Step(m, b, Batch3(b)).sent[0] == Send(b, Refusal(m.id, b).msg);
  }

  lemma StaleUnchanged()
    ensures Overlay(Xs(17), 0, Xs(16)) == Xs(17)
  {
    OverlayUnchanged(Xs(17), 0, Xs(16));
  }

  lemma TakesBatch4(m: Node, b: NodeId)
    requires Sized(m) && Sits(m, Follower, 3, Xs(17), 0)
    ensures Sits(Step(m, b, Batch4(b)).node, Follower, 3, Xs(17), 17)
  {
    StaleUnchanged();
  }

  lemma WalksBack(n: Node, log: Log, a: NodeId, next: nat)
    requires Third(n, log, a, next) && 1 < next
    ensures Third(Step(n, a, Refusal(a, n.id).msg).node, log, a, next - 1)
  {
    var i := Place(n, a);
    assert Step(n, a, Refusal(a, n.id).msg).node == n.(nextIndex := n.nextIndex[i := next - 1]);
  }

  lemma {:induction false} IsWalkedBack(s: Cluster, log: Log, a: NodeId, b: NodeId, next: nat)
    returns (actions: seq<Action>, s': Cluster)
    requires Shaped(s) && b in s.nodes && Third(s.nodes[b], log, a, next) && 1 <= next && Refusal(a, b) in s.net
    ensures Leads(s, actions, s') && Changed(s, s', {b}) && Third(s'.nodes[b], log, a, 1)
    decreases next
  {
    if next == 1 {
      actions, s' := [], s;
    } else {
      var s1 := Takes(s, Refusal(a, b));
      WalksBack(s.nodes[b], log, a, next);
      var rest;
      rest, s' := IsWalkedBack(s1, log, a, b, next - 1);
      LeadsOn(s, [Deliver(Refusal(a, b))], s1, rest, s');
      ChangedOn(s, s1, s', {b}, {b});
      actions := [Deliver(Refusal(a, b))] + rest;
    }
  }

  /** Node `b` submits once more and sends node `a` its next batch. */
  lemma Offers(s: Cluster, a: NodeId, b: NodeId, log: Log, next: nat, msg: Message) returns (s': Cluster)
    requires Shaped(s) && b in s.nodes && a != b && Third(s.nodes[b], log, a, next) && |log| < LOG_CAPACITY
    requires AppendFor(Appended(s.nodes[b]), Place(s.nodes[b], a)).msg == msg
    ensures Leads(s, [Submit(b, 1, 1)], s') && Changed(s, s', {b}) && Packet(b, a, msg) in s'.net
    ensures s'.nodes[b] == Appended(s.nodes[b])
  {
    s' := Submits(s, b);
    LeaderSubmits(s.nodes[b], Place(s.nodes[b], a));
  }

  /** Node `a` takes a batch of node `b`, which stays as it is. */
  lemma TakesBatch(s: Cluster, a: NodeId, b: NodeId, msg: Message, o: Outcome) returns (s': Cluster)
    requires Shaped(s) && a in s.nodes && b in s.nodes && a != b && Packet(b, a, msg) in s.net
    requires o == Step(s.nodes[a], b, msg)
    ensures Leads(s, [Deliver(Packet(b, a, msg))], s') && a in s'.nodes && b in s'.nodes
    ensures s'.nodes[b] == s.nodes[b] && s'.nodes[a] == o.node && Emitted(a, o.sent) <= s'.net
  {
    s' := Takes(s, Packet(b, a, msg));
  }

  lemma TakesThird(s: Cluster, a: NodeId, b: NodeId, log: Log, next: nat, msg: Message, o: Outcome)
    returns (actions: seq<Action>, s': Cluster)
    requires Shaped(s) && a in s.nodes && b in s.nodes && a != b && |log| < LOG_CAPACITY
    requires Third(s.nodes[b], log, a, next) && AppendFor(Appended(s.nodes[b]), Place(s.nodes[b], a)).msg == msg
    requires o == Step(s.nodes[a], b, msg)
    ensures Leads(s, actions, s') && a in s'.nodes && b in s'.nodes
    ensures s'.nodes[b] == Appended(s.nodes[b]) && s'.nodes[a] == o.node && Emitted(a, o.sent) <= s'.net
  {
    var s1 := Offers(s, a, b, log, next, msg);
    s' := TakesBatch(s1, a, b, msg, o);
    LeadsOn(s, [Submit(b, 1, 1)], s1, [Deliver(Packet(b, a, msg))], s');
    actions := [Submit(b, 1, 1)] + [Deliver(Packet(b, a, msg))];
  }

  lemma IsRefused(s: Cluster, a: NodeId, b: NodeId) returns (actions: seq<Action>, s': Cluster)
    requires Shaped(s) && a in s.nodes && b in s.nodes && a != b
    requires Sits(s.nodes[a], Leader, 1, Xs(17), 0) && Third(s.nodes[b], Ys(), a, 18)
    ensures Leads(s, actions, s') && Refusal(a, b) in s'.net && a in s'.nodes && b in s'.nodes
    ensures Sits(s'.nodes[a], Follower, 3, Xs(17), 0) && Third(s'.nodes[b], Ys() + [Z], a, 18)
  {
    Batch3IsSent(s.nodes[b], a);
    actions, s' := TakesThird(s, a, b, Ys(), 18, Batch3(b), Step(s.nodes[a], b, Batch3(b)));
    RefusesBatch3(s.nodes[a], b);
  }

  lemma CommitsStale(s: Cluster, a: NodeId, b: NodeId) returns (actions: seq<Action>, s': Cluster)
    requires Shaped(s) && a in s.nodes && b in s.nodes && a != b
    requires Sits(s.nodes[a], Follower, 3, Xs(17), 0) && Third(s.nodes[b], Ys() + [Z], a, 1)
    ensures Leads(s, actions, s') && a in s'.nodes && b in s'.nodes
    ensures Sits(s'.nodes[a], Follower, 3, Xs(17), 17) && Third(s'.nodes[b], Ys() + [Z] + [Z], a, 1)
  {
    Batch4IsSent(s.nodes[b], a);
    actions, s' := TakesThird(s, a, b, Ys() + [Z], 1, Batch4(b), Step(s.nodes[a], b, Batch4(b)));
    TakesBatch4(s.nodes[a], b);
  }

  lemma WalksAndCommits(s: Cluster, a: NodeId, b: NodeId) returns (actions: seq<Action>, s': Cluster)
    requires Shaped(s) && a in s.nodes && b in s.nodes && a != b && Refusal(a, b) in s.net
    requires Sits(s.nodes[a], Follower, 3, Xs(17), 0) && Third(s.nodes[b], Ys() + [Z], a, 18)
    ensures Leads(s, actions, s') && a in s'.nodes && b in s'.nodes
    ensures Sits(s'.nodes[a], Follower, 3, Xs(17), 17) && Third(s'.nodes[b], Ys() + [Z] + [Z], a, 1)
  {
    var back, s1 := IsWalkedBack(s, Ys() + [Z], a, b, 18);
    var rest;
    rest, s' := CommitsStale(s1, a, b);
    LeadsOn(s, back, s1, rest, s');
    actions := back + rest;
  }

  lemma BackAndAgain(s: Cluster, a: NodeId, b: NodeId) returns (actions: seq<Action>, s': Cluster)
    requires Shaped(s) && a in s.nodes && b in s.nodes && a != b
    requires Sits(s.nodes[a], Leader, 1, Xs(17), 0) && Third(s.nodes[b], Ys(), a, 18)
    ensures Leads(s, actions, s') && a in s'.nodes && b in s'.nodes
    ensures Sits(s'.nodes[a], Follower, 3, Xs(17), 17) && Third(s'.nodes[b], Ys() + [Z] + [Z], a, 1)
  {
    var first, s1 := IsRefused(s, a, b);
    var rest;
    rest, s' := WalksAndCommits(s1, a, b);
    LeadsOn(s, first, s1, rest, s');
    actions := first + rest;
  }

  lemma ThirdTerm(s: Cluster, a: NodeId, b: NodeId, helpers: seq<NodeId>) returns (actions: seq<Action>, s': Cluster)
    requires Scene(s, a, b, helpers) && a !in {b} + Elements(helpers)
    requires Sits(s.nodes[a], Leader, 1, Xs(17), 0) && Sits(s.nodes[b], Leader, 2, Ys(), 17)
    requires AllSit(s, helpers, 2, Ys())
    ensures Leads(s, actions, s') && a in s'.nodes && b in s'.nodes
    ensures Sits(s'.nodes[a], Leader, 1, Xs(17), 0) && Third(s'.nodes[b], Ys(), a, 18)
  {
    actions, s' := TakesOver(s, b, helpers, 2, Ys());
    PeersAreOthers(s', b, a);
  }

  // ---------- the whole run ----------

  lemma FirstTwoTerms(s: Cluster, a: NodeId, b: NodeId, helpers: seq<NodeId>)
    returns (actions: seq<Action>, s': Cluster)
    requires Initial(s) && Scene(s, a, b, helpers) && a !in {b} + Elements(helpers)
    ensures Leads(s, actions, s') && Scene(s', a, b, helpers) && AllReplied(s', b, helpers)
    ensures Sits(s'.nodes[a], Leader, 1, Xs(17), 0) && Sits(s'.nodes[b], Leader, 2, Ys(), 0)
    ensures AllSit(s', helpers, 2, Ys())
  {
    var first, s1 := FirstTerm(s, a, b, helpers);
    var second;
    second, s' := SecondTerm(s1, a, b, helpers);
    LeadsOn(s, first, s1, second, s');
    actions := first + second;
  }

  lemma UpToCommit(s: Cluster, a: NodeId, b: NodeId, helpers: seq<NodeId>)
    returns (actions: seq<Action>, s': Cluster, h: NodeId)
    requires Initial(s) && Scene(s, a, b, helpers) && a !in {b} + Elements(helpers)
    ensures Leads(s, actions, s') && Scene(s', a, b, helpers) && Reply2(h, b) in s'.net
    ensures Sits(s'.nodes[a], Leader, 1, Xs(17), 0) && AllSit(s', helpers, 2, Ys())
    ensures var o := Step(s'.nodes[b], h, Reply2(h, b).msg); o.committed == Some(Y) && Sits(o.node, Leader, 2, Ys(), 17)
  {
    var first, s1 := FirstTwoTerms(s, a, b, helpers);
    var rest;
    rest, s', h := Gathers(s1, b, helpers, 0);
    StillSit(s1, s', helpers, 2, Ys(), {b});
    LeadsOn(s, first, s1, rest, s');
    actions := first + rest;
    SceneStays(s, s', a, b, helpers, actions);
  }

  lemma AfterCommit(s: Cluster, a: NodeId, b: NodeId, helpers: seq<NodeId>, h: NodeId)
    returns (actions: seq<Action>, s': Cluster)
    requires Scene(s, a, b, helpers) && a !in {b} + Elements(helpers) && Reply2(h, b) in s.net
    requires Sits(s.nodes[a], Leader, 1, Xs(17), 0) && AllSit(s, helpers, 2, Ys())
    requires Sits(Step(s.nodes[b], h, Reply2(h, b).msg).node, Leader, 2, Ys(), 17)
    ensures Leads(s, [Deliver(Reply2(h, b))] + actions, s') && a in s'.nodes && b in s'.nodes
    ensures Sits(s'.nodes[a], Follower, 3, Xs(17), 17) && Third(s'.nodes[b], Ys() + [Z] + [Z], a, 1)
  {
    var s1 := Takes(s, Reply2(h, b));
    StillSit(s, s1, helpers, 2, Ys(), {b});
    SceneStays(s, s1, a, b, helpers, [Deliver(Reply2(h, b))]);
    var second, s2 := ThirdTerm(s1, a, b, helpers);
    var rest;
    rest, s' := BackAndAgain(s2, a, b);
    LeadsOn(s1, second, s2, rest, s');
    LeadsOn(s, [Deliver(Reply2(h, b))], s1, second + rest, s');
    actions := second + rest;
  }

  lemma StaleDisagrees(m: Node, n: Node, a: NodeId)
    requires Sits(m, Follower, 3, Xs(17), 17) && Third(n, Ys() + [Z] + [Z], a, 1)
    ensures m.commit == 17 <= |m.log| && m.log[16] != Y && !CommitsAgree(m, n)
  {
    assert m.log[..17][16] == X && n.log[..17][16] == Y;
  }

  /** Two nodes, and enough others for both. */
  lemma SceneExists(c: Cluster) returns (a: NodeId, b: NodeId, helpers: seq<NodeId>)
    requires Shaped(c) && |c.nodes.Keys| >= 3
    ensures Scene(c, a, b, helpers) && a !in {b} + Elements(helpers)
  {
    var keys := c.nodes.Keys;
    a := Another(keys, {});
    b := Another(keys, {a});
    assert |c.nodes| == |keys| && |keys - {a} - {b}| == |keys| - 2;
    helpers := Picks(keys - {a} - {b}, Quorum(|keys| - 1) - 1);
  }

  lemma {:induction false} Picks(from: set<NodeId>, count: nat) returns (ids: seq<NodeId>)
    requires count <= |from|
    ensures |ids| == count && Distinct(ids) && forall k :: 0 <= k < |ids| ==> ids[k] in from
    decreases count
  {
    if count == 0 {
      ids := [];
    } else {
      var x :| x in from;
      var rest := Picks(from - {x}, count - 1);
      ids := [x] + rest;
    }
  }

  /** In every cluster of three nodes or more: a leader's `step` reports `Y` committed at index 17, and node `a` later
      commits a different entry there, while another leader of a later term is in office. */
  lemma FollowerCommitsAnotherEntry(c: Cluster) returns (actions: seq<Action>, k: nat, a: NodeId, b: NodeId)
    requires Initial(c) && |c.nodes.Keys| >= 3
    ensures CommitsAt(c, actions, k, 17, Y) && a in c.nodes && b in c.nodes
    ensures var m, n := At(c, actions, |actions|, a), At(c, actions, |actions|, b);
      && m.commit == 17 <= |m.log| && m.log[16] != Y && !CommitsAgree(m, n)
      && n.role == Leader && n.term > Y.term
  {
    var helpers;
    a, b, helpers := SceneExists(c);
    var done, s, h := UpToCommit(c, a, b, helpers);
    ReplyCommits(s, b, h);
    var rest, s' := AfterCommit(s, a, b, helpers, h);
    k := |done|;
    actions := done + ([Deliver(Reply2(h, b))] + rest);
    LeadsOn(c, done, s, [Deliver(Reply2(h, b))] + rest, s');
    assert actions[..k] == done && actions[k] == Deliver(Reply2(h, b));
    AtEnd(c, actions, a);
    AtEnd(c, actions, b);
    StaleDisagrees(s'.nodes[a], s'.nodes[b], a);
  }

  /** With the code's commit rule, all nodes agree on what they have committed in all runs of a cluster, if and only if
      it has at most two nodes. */
  lemma CommitsAgreeIff(c: Cluster)
    requires Initial(c)
    ensures (forall actions :: CommitsAlwaysAgree(c, actions)) <==> |c.nodes.Keys| <= 2
  {
    if |c.nodes.Keys| <= 2 {
      assert |c.nodes| == |c.nodes.Keys|;
      forall actions
        ensures CommitsAlwaysAgree(c, actions)
      {
        SmallClusterAgrees(c, actions);
      }
    } else {
      var actions, k, a, b := FollowerCommitsAnotherEntry(c);
      assert !CommitsAlwaysAgree(c, actions);
    }
  }
}
