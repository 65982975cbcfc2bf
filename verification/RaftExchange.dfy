/** What comes of talking: a leader and one follower that exchange batches and replies, and requests that arrive
    twice. */
module RaftExchange {
  import opened Types
  import opened RaftSpec
  import opened RaftOverlay
  import opened RaftCluster
  import opened RaftHistory
  import opened RaftLogs
  import opened RaftInvariant
  import opened RaftRuns

  // ---------- one exchange ----------

  /** The leader sends the peer its next batch, the peer answers, and the leader takes the answer. */
  function Exchange(n: Node, m: Node): (Node, Node)
    requires Sized(n) && Sized(m) && m.id in n.peers
  {
    var o := Step(m, n.id, AppendFor(n, IndexOf(n.peers, m.id).value).msg);
    (Step(n, m.id, o.sent[0].msg).node, o.node)
  }

  ghost predicate Ready(n: Node, m: Node) {
    Sized(n) && Sized(m) && m.id in n.peers
  }

  ghost predicate Answered(states: seq<(Node, Node)>, k: nat)
    requires k + 1 < |states|
  {
    && Ready(states[k].0, states[k].1)
    && states[k + 1] == Exchange(states[k].0, states[k].1)
  }

  /** The two nodes before and after each of a number of exchanges. */
  ghost predicate Conversation(states: seq<(Node, Node)>) {
    && |states| > 0
    && forall k {:trigger Answered(states, k)} :: 0 <= k < |states| - 1 ==> Answered(states, k)
  }

  /** There is one of every length. */
  lemma {:induction false} Converse(n: Node, m: Node, times: nat) returns (states: seq<(Node, Node)>)
    requires Ready(n, m)
    ensures Conversation(states) && |states| == times + 1 && states[0] == (n, m)
    ensures Ready(states[times].0, states[times].1)
    decreases times
  {
    if times == 0 {
      states := [(n, m)];
    } else {
      var before := Converse(n, m, times - 1);
      states := Extended(before);
    }
  }

  lemma Extended(states: seq<(Node, Node)>) returns (longer: seq<(Node, Node)>)
    requires Conversation(states) && Ready(states[|states| - 1].0, states[|states| - 1].1)
    ensures Conversation(longer) && |longer| == |states| + 1 && longer[0] == states[0]
    ensures Ready(longer[|states|].0, longer[|states|].1)
  {
    var last := states[|states| - 1];
    ExchangeKeepsIdentity(last.0, last.1);
    longer := states + [Exchange(last.0, last.1)];
    forall k | 0 <= k < |longer| - 1
      ensures Answered(longer, k)
    {
      if k < |states| - 1 {
        assert Answered(states, k);
      }
    }
  }

  lemma ExchangeKeepsIdentity(n: Node, m: Node)
    requires Sized(n) && Sized(m) && m.id in n.peers
    ensures SameIdentity(n, Exchange(n, m).0) && SameIdentity(m, Exchange(n, m).1)
  {
    var msg := AppendFor(n, IndexOf(n.peers, m.id).value).msg;
    StepKeepsIdentity(m, n.id, msg);
    StepKeepsIdentity(n, m.id, Step(m, n.id, msg).sent[0].msg);
  }

  /** A leader of an old term learns of the new one and gives up; the other node does not move. */
  lemma StaleLeaderYields(n: Node, m: Node)
    requires Sized(n) && Sized(m) && m.id in n.peers && n.term < m.term
    ensures Exchange(n, m) == (n.(term := m.term, role := Follower, votedFor := None), m)
  {
  }

  // ---------- a leader and its follower ----------

  /** Node `n` leads, and `m` is its peer at position `i`, not ahead of it, with logs made of the same leader logs. */
  ghost predicate Linked(n: Node, m: Node, i: nat, llog: map<nat, Log>) {
    && Sized(n) && Sized(m) && n.role == Leader && IndexOf(n.peers, m.id) == Some(i) && m.term <= n.term
    && Backed(n.log, llog) && Backed(m.log, llog) && 1 <= n.nextIndex[i] <= |n.log| + 1
  }

  /** The peer holds everything before the next entry for it. */
  ghost predicate Caught(n: Node, m: Node, i: nat)
    requires Sized(n) && i < |n.peers|
  {
    1 <= n.nextIndex[i] <= |n.log| + 1 && n.log[..n.nextIndex[i] - 1] <= m.log
  }

  /** The leader knows that the peer holds the whole log. */
  ghost predicate Known(n: Node, m: Node, i: nat)
    requires Sized(n) && i < |n.peers|
  {
    n.log <= m.log && n.matchIndex[i] == |n.log| && n.nextIndex[i] == |n.log| + 1
  }

  /** The leader has committed all it can. */
  ghost predicate CommittedAll(n: Node)
    requires Sized(n)
  {
    forall k :: n.commit < k <= |n.log| ==> !Committable(n, k)
  }

  /** Nothing is left to exchange: the peer follows, holds the leader's whole log and what the leader committed is
      committed by it; the leader knows, and cannot commit more. */
  ghost predicate Settled(n: Node, m: Node, i: nat)
    requires Sized(n) && i < |n.peers|
  {
    && Known(n, m, i) && CommittedAll(n)
    && m.role == Follower && m.term == n.term && Min(n.commit, |m.log|) <= m.commit
  }

  /** Where the next batch for the peer ends: at most sixteen entries further. */
  function End(n: Node, i: nat): nat
    requires Sized(n) && i < |n.peers| && 1 <= n.nextIndex[i] <= |n.log| + 1
  {
    Min(n.nextIndex[i] - 1 + 16, |n.log|)
  }

  /** The batch is the part of the leader's log behind its predecessor, at most sixteen entries of it. */
  lemma BatchIsSlice(n: Node, i: nat)
    requires Sized(n) && i < |n.peers| && 1 <= n.nextIndex[i] <= |n.log| + 1
    ensures var ae, prev := AppendFor(n, i).msg, n.nextIndex[i] - 1;
      && ae.AppendEntries? && ae.term == n.term && ae.prevLogIndex == prev && ae.leaderCommit == n.commit
      && SliceOf(n.log, prev, ae.entries) && (prev > 0 ==> ae.prevLogTerm == n.log[prev - 1].term)
      && prev + |ae.entries| == End(n, i)
  {
  }

  /** Two logs made of the same leader logs agree up to an entry exactly when they have its term there. */
  lemma AgreeIffTerm(log: Log, lead: Log, prev: nat, llog: map<nat, Log>)
    requires Backed(log, llog) && Backed(lead, llog) && 0 < prev <= |lead|
    ensures lead[..prev] <= log <==> TermAt(log, prev) == Some(lead[prev - 1].term)
  {
    if prev <= |log| {
      if log[prev - 1].term == lead[prev - 1].term {
        BackedMatch(lead, log, prev - 1, llog);
      } else {
        assert lead[..prev][prev - 1] != log[prev - 1];
      }
    }
  }

  lemma MatchesIffAgree(log: Log, lead: Log, ae: Message, llog: map<nat, Log>)
    requires Backed(log, llog) && Backed(lead, llog) && ae.AppendEntries? && ae.prevLogIndex <= |lead|
    requires ae.prevLogIndex > 0 ==> ae.prevLogTerm == lead[ae.prevLogIndex - 1].term
    ensures PrevMatches(log, ae) <==> lead[..ae.prevLogIndex] <= log
  {
    if ae.prevLogIndex > 0 {
      AgreeIffTerm(log, lead, ae.prevLogIndex, llog);
    }
  }

  /** The peer accepts a batch exactly when it holds what precedes it. */
  lemma AcceptsIffCaught(n: Node, m: Node, i: nat, llog: map<nat, Log>)
    requires Linked(n, m, i, llog)
    ensures PrevMatches(m.log, AppendFor(n, i).msg) <==> Caught(n, m, i)
  {
    BatchIsSlice(n, i);
    MatchesIffAgree(m.log, n.log, AppendFor(n, i).msg, llog);
  }

  /** A refusal takes the next index back by one; the logs stay. */
  lemma Refused(n: Node, m: Node, i: nat, llog: map<nat, Log>)
    requires Linked(n, m, i, llog) && !Caught(n, m, i)
    ensures var (n', m') := Exchange(n, m);
      && n' == n.(nextIndex := n.nextIndex[i := n.nextIndex[i] - 1]) && n.nextIndex[i] > 1
      && m'.log == m.log && m'.id == m.id && m'.role == Follower && m'.term == n.term
  {
    BatchIsSlice(n, i);
    AcceptsIffCaught(n, m, i, llog);
  }

  lemma AcceptedOutcome(m: Node, from: NodeId, ae: Message)
    requires Sized(m) && ae.AppendEntries? && m.term <= ae.term && PrevMatches(m.log, ae)
    ensures var o := Step(m, from, ae);
      && o.sent == [Send(from, AppendEntriesReply(ae.term, true, ae.prevLogIndex + |ae.entries|))]
      && o.node.id == m.id && o.node.role == Follower && o.node.term == ae.term
      && o.node.log == Overlay(m.log, ae.prevLogIndex, ae.entries)
      && Min(ae.leaderCommit, |o.node.log|) <= o.node.commit
      && (o.node.commit < ae.leaderCommit ==> o.node.commit == |o.node.log|) && o.committed == None
  {
  }

  /** What the peer does with a batch it accepts. */
  lemma TakesBatch(n: Node, m: Node, i: nat, llog: map<nat, Log>)
    requires Linked(n, m, i, llog) && Caught(n, m, i)
    ensures var o, end := Step(m, n.id, AppendFor(n, i).msg), End(n, i);
      && o.sent == [Send(n.id, AppendEntriesReply(n.term, true, end))]
      && o.node.id == m.id && o.node.role == Follower && o.node.term == n.term
      && n.log[..end] <= o.node.log && (o.node.log == m.log || o.node.log == n.log[..end])
      && Min(n.commit, |o.node.log|) <= o.node.commit
  {
    var ae := AppendFor(n, i).msg;
    BatchIsSlice(n, i);
    AcceptsIffCaught(n, m, i, llog);
    AcceptedOutcome(m, n.id, ae);
    OverlayOfLeader(m.log, n.log, ae.prevLogIndex, ae.entries, llog);
  }

  lemma SameAcks(a: Node, b: Node, k: nat)
    requires Sized(a) && Sized(b) && a.peers == b.peers && a.matchIndex == b.matchIndex
    requires a.log == b.log && a.term == b.term
    ensures Committable(a, k) <==> Committable(b, k)
  {
    assert AckedPeers(a, k) == AckedPeers(b, k);
  }

  /** The commit index went up to a committable index, or stayed, and there is no greater one. */
  ghost predicate Raised(n: Node, n': Node)
    requires Sized(n')
  {
    && CommittedAll(n') && n.commit <= n'.commit
    && (n'.commit == n.commit || (n'.commit <= |n'.log| && Committable(n', n'.commit)))
  }

  /** What the leader does with the answer. */
  lemma TakesAnswer(n: Node, from: NodeId, i: nat, upTo: nat)
    requires Sized(n) && n.role == Leader && IndexOf(n.peers, from) == Some(i)
    ensures var n' := Step(n, from, AppendEntriesReply(n.term, true, upTo)).node;
      && n' == n.(nextIndex := n.nextIndex[i := upTo + 1], matchIndex := n.matchIndex[i := upTo], commit := n'.commit)
      && Raised(n, n')
  {
    var n1 := n.(nextIndex := n.nextIndex[i := upTo + 1], matchIndex := n.matchIndex[i := upTo]);
    var n' := n1.(commit := HighestCommittable(n1, |n1.log|));
    SameAcks(n1, n', n'.commit);
    forall k | n'.commit < k <= |n.log|
      ensures !Committable(n', k)
    {
      SameAcks(n1, n', k);
    }
  }

  lemma ExchangeOf(n: Node, m: Node, i: nat, reply: Message)
    requires Sized(n) && Sized(m) && IndexOf(n.peers, m.id) == Some(i)
    requires Step(m, n.id, AppendFor(n, i).msg).sent == [Send(n.id, reply)]
    ensures Exchange(n, m) == (Step(n, m.id, reply).node, Step(m, n.id, AppendFor(n, i).msg).node)
  {
  }

  /** An accepted batch takes the next index past it. */
  lemma Accepted(n: Node, m: Node, i: nat, llog: map<nat, Log>)
    requires Linked(n, m, i, llog) && Caught(n, m, i)
    ensures var (n', m') := Exchange(n, m);
            var end := End(n, i);
      && n' == n.(nextIndex := n.nextIndex[i := end + 1], matchIndex := n.matchIndex[i := end], commit := n'.commit)
      && Raised(n, n')
      && m'.id == m.id && m'.role == Follower && m'.term == n.term
      && n.log[..end] <= m'.log && (m'.log == m.log || m'.log == n.log[..end])
      && Min(n.commit, |m'.log|) <= m'.commit
  {
    TakesBatch(n, m, i, llog);
    ExchangeOf(n, m, i, AppendEntriesReply(n.term, true, End(n, i)));
    TakesAnswer(n, m.id, i, End(n, i));
  }

  // ---------- progress ----------

  lemma StillLinked(n: Node, m: Node, i: nat, llog: map<nat, Log>)
    requires Linked(n, m, i, llog)
    ensures var (n', m') := Exchange(n, m); Linked(n', m', i, llog) && n'.log == n.log && n'.term == n.term
  {
    ExchangeKeepsIdentity(n, m);
    if Caught(n, m, i) {
      Accepted(n, m, i, llog);
      BackedPrefix(n.log, End(n, i), llog);
    } else {
      Refused(n, m, i, llog);
    }
  }

  /** How many exchanges are enough. */
  ghost function Left(n: Node, m: Node, i: nat): nat
    requires Sized(n) && i < |n.peers| && 1 <= n.nextIndex[i] <= |n.log| + 1
  {
    var prev := n.nextIndex[i] - 1;
    if Settled(n, m, i) then 0
    else if Known(n, m, i) && CommittedAll(n) then 1
    else if Caught(n, m, i) then 2 + (|n.log| - prev + 15) / 16
    else prev + 2 + (|n.log| + 15) / 16
  }

  /** A leader that has committed all it can stays as it is when it is told again what it knows. */
  lemma Unmoved(n: Node, n': Node, i: nat)
    requires Sized(n) && Sized(n') && i < |n.peers| && CommittedAll(n) && Raised(n, n')
    requires n' == n.(nextIndex := n.nextIndex[i := n.nextIndex[i]], matchIndex := n.matchIndex[i := n.matchIndex[i]],
                      commit := n'.commit)
    ensures n' == n
  {
    assert n.nextIndex[i := n.nextIndex[i]] == n.nextIndex && n.matchIndex[i := n.matchIndex[i]] == n.matchIndex;
    SameAcks(n, n', n'.commit);
  }

  lemma KnownSettles(n: Node, m: Node, i: nat, llog: map<nat, Log>)
    requires Linked(n, m, i, llog) && Known(n, m, i) && CommittedAll(n)
    ensures var (n', m') := Exchange(n, m); Settled(n', m', i)
  {
    assert n.log[..|n.log|] == n.log;
    Accepted(n, m, i, llog);
    Unmoved(n, Exchange(n, m).0, i);
  }

  lemma CaughtAdvances(n: Node, m: Node, i: nat, llog: map<nat, Log>)
    requires Linked(n, m, i, llog) && Caught(n, m, i)
    ensures var (n', m') := Exchange(n, m);
            var end := End(n, i);
      && Sized(n') && n'.peers == n.peers && n'.log == n.log && n'.nextIndex[i] == end + 1
      && CommittedAll(n') && Caught(n', m', i) && (end == |n.log| ==> Known(n', m', i))
  {
    assert n.log[..|n.log|] == n.log;
    Accepted(n, m, i, llog);
    ExchangeKeepsIdentity(n, m);
  }

  /** That many exchanges are enough for the two nodes. */
  ghost predicate Within(n: Node, m: Node, i: nat, llog: map<nat, Log>, times: nat) {
    Linked(n, m, i, llog) && Left(n, m, i) <= times
  }

  lemma OneFewer(n: Node, m: Node, i: nat, llog: map<nat, Log>, times: nat)
    requires Within(n, m, i, llog, times)
    ensures var r := Exchange(n, m);
      r.0.log == n.log && Within(r.0, r.1, i, llog, if times == 0 then 0 else times - 1)
  {
    StillLinked(n, m, i, llog);
    if Known(n, m, i) && CommittedAll(n) {
      KnownSettles(n, m, i, llog);
    } else if Caught(n, m, i) {
      CaughtAdvances(n, m, i, llog);
    } else {
      Refused(n, m, i, llog);
    }
  }

  /** The exchange number `k` brings the two nodes one exchange nearer. */
  lemma NextWithin(states: seq<(Node, Node)>, k: nat, i: nat, llog: map<nat, Log>, times: nat)
    requires Conversation(states) && k + 1 < |states| && Within(states[k].0, states[k].1, i, llog, times)
    ensures Within(states[k + 1].0, states[k + 1].1, i, llog, if times == 0 then 0 else times - 1)
    ensures states[k + 1].0.log == states[k].0.log
  {
    assert Answered(states, k);
    OneFewer(states[k].0, states[k].1, i, llog, times);
  }

  lemma {:induction false} Exhausted(states: seq<(Node, Node)>, k: nat, i: nat, llog: map<nat, Log>, times: nat)
    requires Conversation(states) && k < |states| && Within(states[0].0, states[0].1, i, llog, times)
    ensures Within(states[k].0, states[k].1, i, llog, if times <= k then 0 else times - k)
    ensures states[k].0.log == states[0].0.log
  {
    if k > 0 {
      Exhausted(states, k - 1, i, llog, times);
      NextWithin(states, k - 1, i, llog, if times <= k - 1 then 0 else times - (k - 1));
    }
  }

  lemma LeftAtMost(n: Node, m: Node, i: nat)
    requires Sized(n) && i < |n.peers| && 1 <= n.nextIndex[i] <= |n.log| + 1
    ensures Left(n, m, i) <= n.nextIndex[i] + 1 + (|n.log| + 15) / 16
  {
  }

  lemma LinkedInRun(c: Cluster, h: History, x: NodeId, y: NodeId, i: nat)
    requires Inv(c, h) && x in c.nodes && y in c.nodes && c.nodes[x].role == Leader
    requires c.nodes[y].term <= c.nodes[x].term && IndexOf(c.nodes[x].peers, y) == Some(i) && Sized(c.nodes[x])
    ensures Within(c.nodes[x], c.nodes[y], i, h.llog, c.nodes[x].nextIndex[i] + 1 + (|c.nodes[x].log| + 15) / 16)
  {
    var n, m := c.nodes[x], c.nodes[y];
    assert NodeOk(n, h) && NodeOk(m, h);
    LeftAtMost(n, m, i);
  }

  lemma WithinNone(n: Node, m: Node, i: nat, llog: map<nat, Log>)
    requires Within(n, m, i, llog, 0)
    ensures Sized(n) && i < |n.peers| && Settled(n, m, i)
  {
  }

  /** In every state of every run: a leader and any other node that is not ahead of its term start to exchange batches
      and answers. After as many exchanges as the next index can go back and the log has batches, and two, the other
      node holds the whole log, the leader knows it, and every index that the acknowledgements allow is committed.
      Further exchanges keep it so. */
  lemma ReplicationCompletes(c: Cluster, actions: seq<Action>, x: NodeId, y: NodeId, i: nat,
                             states: seq<(Node, Node)>, k: nat)
    requires Initial(c) && x in c.nodes && y in c.nodes && Conversation(states) && k < |states|
    requires states[0] == (Run(c, actions).nodes[x], Run(c, actions).nodes[y])
    requires var (n, m) := states[0];
      && n.role == Leader && m.term <= n.term && IndexOf(n.peers, y) == Some(i) && i < |n.nextIndex|
      && n.nextIndex[i] + 1 + (|n.log| + 15) / 16 <= k
    ensures states[k].0.log == states[0].0.log
    ensures Sized(states[k].0) && i < |states[k].0.peers| && Settled(states[k].0, states[k].1, i)
  {
    var s, h := Run(c, actions), Past(c, actions);
    RunKeeps(c, actions);
    assert Sized(s.nodes[x]);
    LinkedInRun(s, h, x, y, i);
    Exhausted(states, k, i, h.llog, states[0].0.nextIndex[i] + 1 + (|states[0].0.log| + 15) / 16);
    WithinNone(states[k].0, states[k].1, i, h.llog);
  }

  // ---------- answers ----------

  /** Every request is answered once, to the node it came from, in the term the node is then in. */
  lemma RequestsAreAnswered(n: Node, from: NodeId, msg: Message)
    requires Sized(n) && (msg.RequestVote? || msg.AppendEntries?)
    ensures var o := Step(n, from, msg);
      && |o.sent| == 1 && o.sent[0].to == from && o.sent[0].msg.term == o.node.term >= msg.term
      && (msg.RequestVote? ==> o.sent[0].msg.RequestVoteReply?)
      && (msg.AppendEntries? ==> o.sent[0].msg.AppendEntriesReply?)
      && (msg.AppendEntries? && !o.sent[0].msg.success ==> o.sent[0].msg.matchIndex == 0 && o.node.log == n.log)
      && o.node.term == if n.term < msg.term then msg.term else n.term
  {
  }

  lemma OverlayKeepsBefore(log: Log, prev: nat, entries: seq<Entry>)
    requires prev <= |log| <= LOG_CAPACITY
    ensures prev <= |Overlay(log, prev, entries)| && Overlay(log, prev, entries)[..prev] == log[..prev]
  {
  }

  lemma StillMatches(log: Log, ae: Message)
    requires ae.AppendEntries? && |log| <= LOG_CAPACITY && PrevMatches(log, ae)
    ensures ae.prevLogIndex <= |log| && PrevMatches(Overlay(log, ae.prevLogIndex, ae.entries), ae)
  {
    var prev := ae.prevLogIndex;
    OverlayKeepsBefore(log, prev, ae.entries);
    if prev > 0 {
      assert Overlay(log, prev, ae.entries)[..prev][prev - 1] == log[..prev][prev - 1];
    }
  }

  /** A follower in the batch's term that takes a batch it has taken. */
  lemma RetakesBatch(n: Node, from: NodeId, ae: Message)
    requires Sized(n) && ae.AppendEntries? && n.role == Follower && n.term == ae.term && PrevMatches(n.log, ae)
    requires ae.prevLogIndex <= |n.log| && Overlay(n.log, ae.prevLogIndex, ae.entries) == n.log
    requires Min(ae.leaderCommit, |n.log|) <= n.commit
    requires n.commit < ae.leaderCommit ==> n.commit == |n.log|
    ensures Step(n, from, ae)
      == Outcome(n, [Send(from, AppendEntriesReply(ae.term, true, ae.prevLogIndex + |ae.entries|))], None)
  {
  }

  lemma RepeatedBatch(n: Node, from: NodeId, ae: Message)
    requires Sized(n) && ae.AppendEntries? && n.term <= ae.term && PrevMatches(n.log, ae)
    ensures var o := Step(n, from, ae); Sized(o.node) && Step(o.node, from, ae) == o
  {
    var o := Step(n, from, ae);
    StepKeepsIdentity(n, from, ae);
    AcceptedOutcome(n, from, ae);
    StillMatches(n.log, ae);
    OverlayTwice(n.log, ae.prevLogIndex, ae.entries);
    RetakesBatch(o.node, from, ae);
  }

  lemma RepeatedRefusal(n: Node, from: NodeId, ae: Message)
    requires Sized(n) && ae.AppendEntries? && (n.term > ae.term || !PrevMatches(n.log, ae))
    ensures var o := Step(n, from, ae); Sized(o.node) && Step(o.node, from, ae) == o
  {
  }

  /** Node `m` gives its vote to node `n`, which asks for it, exactly when `n` does not stand in an older term, the last
      entry of `n` is of a later term than that of `m`, or of the same term in a log that is not shorter, and `m` has
      not voted for another in that term. An empty log counts as term 0. */
  lemma VoteGivenIff(n: Node, m: Node, i: nat)
    requires Sized(n) && Sized(m) && i < |n.peers|
    ensures |StartElection(n).sent| == |n.peers| && StartElection(n).sent[i].to == n.peers[i]
    ensures var o := Step(m, n.id, StartElection(n).sent[i].msg);
            var mine := if |n.log| == 0 then 0 else n.log[|n.log| - 1].term;
            var other := if |m.log| == 0 then 0 else m.log[|m.log| - 1].term;
            var granted :=
              && m.term <= n.term + 1 && (other < mine || (other == mine && |m.log| <= |n.log|))
              && (m.term <= n.term || m.votedFor.None? || m.votedFor == Some(n.id));
      && o.sent == [Send(n.id, RequestVoteReply(if m.term <= n.term then n.term + 1 else m.term, granted))]
      && o.node.votedFor == (if granted then Some(n.id) else if m.term <= n.term then None else m.votedFor)
  {
  }

  /** A request that arrives twice gets the same answer and changes nothing the second time. */
  lemma RepeatedRequest(n: Node, from: NodeId, msg: Message)
    requires Sized(n) && (msg.RequestVote? || msg.AppendEntries?)
    ensures var o := Step(n, from, msg); Sized(o.node) && Step(o.node, from, msg) == o
  {
    if msg.AppendEntries? && n.term <= msg.term && PrevMatches(n.log, msg) {
      RepeatedBatch(n, from, msg);
    } else if msg.AppendEntries? {
      RepeatedRefusal(n, from, msg);
    }
  }

  /** After an answer that counts, the next batch for the peer starts behind what the answer acknowledged. */
  lemma ContinuesAfterAnswer(n: Node, from: NodeId, i: nat, upTo: nat)
    requires Sized(n) && n.role == Leader && IndexOf(n.peers, from) == Some(i) && upTo <= |n.log|
    ensures var n' := Step(n, from, AppendEntriesReply(n.term, true, upTo)).node;
      && Sized(n') && n'.peers == n.peers && n'.matchIndex[i] == upTo
      && AppendFor(n', i).to == from && AppendFor(n', i).msg.prevLogIndex == upTo
      && AppendFor(n', i).msg.entries == n.log[upTo..Min(upTo + 16, |n.log|)]
  {
    var n' := Step(n, from, AppendEntriesReply(n.term, true, upTo)).node;
    TakesAnswer(n, from, i, upTo);
    BatchIsSlice(n', i);
    assert n'.log == n.log && n'.nextIndex[i] == upTo + 1 && End(n', i) == Min(upTo + 16, |n.log|);
  }

  /** A message of a higher term makes any node a follower of that term, whatever the message is; no message takes a
      node back to an earlier term. */
  lemma HigherTermDeposes(n: Node, from: NodeId, msg: Message)
    requires Sized(n)
    ensures var n' := Step(n, from, msg).node;
      && n'.term == (if n.term < msg.term then msg.term else n.term)
      && (n.term < msg.term ==> n'.role == Follower)
  {
  }

  /** A quorum is the least number of nodes that is more than half of all. */
  lemma QuorumIsLeastMajority(peers: nat)
    ensures 2 * Quorum(peers) > peers + 1 && 2 * (Quorum(peers) - 1) <= peers + 1
  {
  }

  /** A proposal is taken exactly by a leader whose log holds fewer than 256 entries; then the entry is the last one
      and every peer is sent its next batch. A refusal changes nothing, sends nothing and says why. */
  lemma ProposalAnswered(n: Node, src: NodeId, dst: NodeId)
    requires Sized(n)
    ensures var r := Propose(n, src, dst).0;
      && (r.Ok? <==> n.role == Leader && |n.log| < 256)
      && (r.Err? ==> if n.role == Leader then r.error.QuotaExceeded? else r.error.UndefinedState?)
    ensures var (r, o) := Propose(n, src, dst); r.Err? ==> o == Outcome(n, [], None)
    ensures var (r, o) := Propose(n, src, dst); r.Ok? ==>
      && o.node.log == n.log + [Entry(n.term, src, dst)] && o.node.term == n.term
      && o.node.commit == if |n.peers| == 0 then |n.log| + 1 else n.commit
    ensures Sized(Propose(n, src, dst).1.node)
    ensures var (r, o) := Propose(n, src, dst); r.Ok? ==> |o.sent| == |n.peers|
    ensures var o := Propose(n, src, dst).1; forall i :: 0 <= i < |o.sent| ==> o.sent[i] == AppendFor(o.node, i)
  {
    ProposeKeepsIdentity(n, src, dst);
    var o := Propose(n, src, dst).1;
    forall i | 0 <= i < |o.sent|
      ensures o.sent[i] == AppendFor(o.node, i)
    {
    }
  }
}
