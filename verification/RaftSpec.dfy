/** What one Raft node does to its state and which messages it sends, as functions on values.
    The imperative node in `RaftNode` is proved against these; the cluster is built from them. */
module RaftSpec {
  import opened Types

  const MAX_PEERS: nat := 16
  const LOG_CAPACITY: nat := 256
  const BATCH: nat := 16

  datatype Entry = Entry(term: nat, src: NodeId, dst: NodeId)

  /** The log; index `k` of the protocol is element `k - 1`. */
  type Log = seq<Entry>

  type Batch = s: seq<Entry> | |s| <= BATCH

  datatype Message =
    | RequestVote(term: nat, candidateId: NodeId, lastLogIndex: nat, lastLogTerm: nat)
    | RequestVoteReply(term: nat, voteGranted: bool)
    | AppendEntries(term: nat, leaderId: NodeId, prevLogIndex: nat, prevLogTerm: nat,
                    entries: Batch, leaderCommit: nat)
    | AppendEntriesReply(term: nat, success: bool, matchIndex: nat)

  datatype Role = Follower | Candidate | Leader

  datatype Node = Node(
    id: NodeId,
    role: Role,
    term: nat,
    votedFor: Option<NodeId>,
    log: Log,
    commit: nat,
    votes: nat,
    peers: seq<NodeId>,
    nextIndex: seq<nat>,
    matchIndex: seq<nat>)

  datatype Send = Send(to: NodeId, msg: Message)

  /** Result of one call: the new node, what it handed to the transport, and the entry `step` returned. */
  datatype Outcome = Outcome(node: Node, sent: seq<Send>, committed: Option<Entry>)

  /** The bounds that the fixed-capacity containers of the node impose. */
  ghost predicate Sized(n: Node) {
    && |n.peers| <= MAX_PEERS
    && |n.nextIndex| == MAX_PEERS
    && |n.matchIndex| == MAX_PEERS
    && |n.log| <= LOG_CAPACITY
  }

  // ---------- the log ----------

  function TermAt(log: Log, index: nat): Option<nat> {
    if 1 <= index <= |log| then Some(log[index - 1].term) else None
  }

  function LastTerm(log: Log): nat {
    if |log| == 0 then 0 else log[|log| - 1].term
  }

  /** `truncate_from`: keep the entries before 1-based `index`; index 0 changes nothing. */
  function TruncateFrom(log: Log, index: nat): Log {
    if index == 0 || index - 1 >= |log| then log else log[..index - 1]
  }

  function Capped(log: Log): Log {
    if |log| <= LOG_CAPACITY then log else log[..LOG_CAPACITY]
  }

  /** Number of leading batch entries that `log` already holds, by term, right after position `prev`. */
  function Matching(log: Log, prev: nat, entries: seq<Entry>): (k: nat)
    ensures k <= |entries|
    ensures prev <= |log| ==> prev + k <= |log|
    ensures forall j :: 0 <= j < k ==> prev + j < |log| && log[prev + j].term == entries[j].term
    ensures k < |entries| ==> prev + k >= |log| || log[prev + k].term != entries[k].term
    decreases |entries|
  {
    if |entries| == 0 || prev >= |log| || log[prev].term != entries[0].term then 0
    else 1 + Matching(log, prev + 1, entries[1..])
  }

  /** The log after a batch was laid over it behind `prev`: unchanged when it already holds every entry,
      otherwise cut at the first entry that is missing or conflicts and continued with the batch. */
  function Overlay(log: Log, prev: nat, entries: seq<Entry>): Log
    requires prev <= |log|
  {
    var k := Matching(log, prev, entries);
    if k == |entries| then log else Capped(log[..prev + k] + entries[k..])
  }

  // ---------- quorums ----------

  /** `peers.len().div_ceil(2) + 1`. */
  function Quorum(peerCount: nat): nat {
    (peerCount + 1) / 2 + 1
  }

  function IndexOf(peers: seq<NodeId>, peer: NodeId): (i: Option<nat>)
    ensures i.Some? ==> i.value < |peers| && peers[i.value] == peer && peer !in peers[..i.value]
    ensures i.None? <==> peer !in peers
  {
    if |peers| == 0 then None
    else if peers[0] == peer then Some(0)
    else
      var r := IndexOf(peers[1..], peer);
      if r.None? then None else Some(r.value + 1)
  }

  /** Positions of the peers that acknowledged everything up to index `n`. */
  function AckedPeers(n: Node, index: nat): set<nat>
    requires Sized(n)
  {
    set i: nat | i < |n.peers| && n.matchIndex[i] >= index
  }

  predicate Committable(n: Node, index: nat)
    requires Sized(n)
  {
    && TermAt(n.log, index) == Some(n.term)
    && 1 + |AckedPeers(n, index)| >= Quorum(|n.peers|)
  }

  /** The greatest committable index in `(commit, upTo]`, or `commit` when there is none. */
  function HighestCommittable(n: Node, upTo: nat): (r: nat)
    requires Sized(n)
    ensures r == n.commit || (n.commit < r <= upTo && Committable(n, r))
    ensures forall j :: r < j <= upTo && n.commit < j ==> !Committable(n, j)
  {
    if upTo <= n.commit then n.commit
    else if Committable(n, upTo) then upTo
    else HighestCommittable(n, upTo - 1)
  }

  // ---------- transitions ----------

  function NewNode(id: NodeId, peers: seq<NodeId>): (n: Node) {
    Node(id, Follower, 0, None, [], 0, 0, peers,
         seq(MAX_PEERS, i => 1), seq(MAX_PEERS, i => 0))
  }

  function BecomeLeader(n: Node): Node
    requires Sized(n)
  {
    var next := |n.log| + 1;
    n.(role := Leader,
       nextIndex := seq(MAX_PEERS, i requires 0 <= i < MAX_PEERS => if i < |n.peers| then next else n.nextIndex[i]),
       matchIndex := seq(MAX_PEERS, i requires 0 <= i < MAX_PEERS => if i < |n.peers| then 0 else n.matchIndex[i]))
  }

  function StepDown(n: Node, term: nat): Node {
    n.(term := term, role := Follower, votedFor := None)
  }

  /** The node stands in the next term with its own vote. */
  function Standing(n: Node): Node {
    n.(term := n.term + 1, role := Candidate, votedFor := Some(n.id), votes := 1)
  }

  function StartElection(n: Node): Outcome
    requires Sized(n)
  {
    var standing := Standing(n);
    if |n.peers| == 0 then Outcome(BecomeLeader(standing), [], None)
    else
      var msg := RequestVote(standing.term, n.id, |n.log|, LastTerm(n.log));
      Outcome(standing, seq(|n.peers|, i requires 0 <= i < |n.peers| => Send(n.peers[i], msg)), None)
  }

  /** The AppendEntries message for the peer at position `i`. */
  function AppendFor(n: Node, i: nat): Send
    requires Sized(n) && i < |n.peers|
  {
    var next := n.nextIndex[i];
    var prev := if next == 0 then 0 else next - 1;
    var prevTerm := match TermAt(n.log, prev) case Some(t) => t case None => 0;
    Send(n.peers[i], AppendEntries(n.term, n.id, prev, prevTerm, NextBatch(n.log, next), n.commit))
  }

  /** At most sixteen entries from 1-based index `next` on. */
  function NextBatch(log: Log, next: nat): Batch {
    if next == 0 || next > |log| then []
    else if next - 1 + BATCH <= |log| then log[next - 1..next - 1 + BATCH]
    else log[next - 1..]
  }

  function Propose(n: Node, src: NodeId, dst: NodeId): (Result<()>, Outcome)
    requires Sized(n)
  {
    if n.role != Leader then
      (Err(UndefinedState("raft: cannot propose \U{2014} not leader")), Outcome(n, [], None))
    else if |n.log| >= LOG_CAPACITY then
      (Err(QuotaExceeded("raft log at capacity")), Outcome(n, [], None))
    else
      var appended := n.(log := n.log + [Entry(n.term, src, dst)]);
      if |n.peers| == 0 then (Ok(()), Outcome(appended.(commit := |appended.log|), [], None))
      else
        (Ok(()), Outcome(appended,
                         seq(|n.peers|, i requires 0 <= i < |n.peers| => AppendFor(appended, i)),
                         None))
  }

  predicate UpToDate(lastIndex: nat, lastTerm: nat, log: Log) {
    lastTerm > LastTerm(log) || (lastTerm == LastTerm(log) && lastIndex >= |log|)
  }

  function OnRequestVote(n: Node, from: NodeId, rv: Message): Outcome
    requires rv.RequestVote?
  {
    var n1 := if rv.term > n.term then StepDown(n, rv.term) else n;
    var granted :=
      && rv.term >= n1.term
      && UpToDate(rv.lastLogIndex, rv.lastLogTerm, n1.log)
      && (n1.votedFor.None? || n1.votedFor.value == rv.candidateId);
    var n2 := if granted then n1.(votedFor := Some(rv.candidateId)) else n1;
    Outcome(n2, [Send(from, RequestVoteReply(n2.term, granted))], None)
  }

  function OnVoteReply(n: Node, reply: Message): Outcome
    requires Sized(n) && reply.RequestVoteReply?
  {
    if reply.term > n.term then Outcome(StepDown(n, reply.term), [], None)
    else if n.role != Candidate || reply.term != n.term then Outcome(n, [], None)
    else
      var n1 := if reply.voteGranted then n.(votes := n.votes + 1) else n;
      Outcome(if n1.votes >= Quorum(|n1.peers|) then BecomeLeader(n1) else n1, [], None)
  }

  predicate PrevMatches(log: Log, ae: Message)
    requires ae.AppendEntries?
  {
    ae.prevLogIndex == 0 || TermAt(log, ae.prevLogIndex) == Some(ae.prevLogTerm)
  }

  function Min(a: nat, b: nat): nat { if a <= b then a else b }

  function OnAppendEntries(n: Node, from: NodeId, ae: Message): Outcome
    requires ae.AppendEntries?
  {
    if ae.term < n.term then
      Outcome(n, [Send(from, AppendEntriesReply(n.term, false, 0))], None)
    else
      var n1 := if ae.term > n.term then StepDown(n, ae.term) else n.(role := Follower);
      if !PrevMatches(n1.log, ae) then
        Outcome(n1, [Send(from, AppendEntriesReply(n1.term, false, 0))], None)
      else
        var log' := Overlay(n1.log, ae.prevLogIndex, ae.entries);
        var commit' := if ae.leaderCommit > n1.commit then Min(ae.leaderCommit, |log'|) else n1.commit;
        Outcome(n1.(log := log', commit := commit'),
                [Send(from, AppendEntriesReply(n1.term, true, ae.prevLogIndex + |ae.entries|))], None)
  }

  function OnAppendReply(n: Node, from: NodeId, reply: Message): Outcome
    requires Sized(n) && reply.AppendEntriesReply?
  {
    if reply.term > n.term then Outcome(StepDown(n, reply.term), [], None)
    else if n.role != Leader || reply.term != n.term then Outcome(n, [], None)
    else match IndexOf(n.peers, from)
      case None => Outcome(n, [], None)
      case Some(i) =>
        if !reply.success then
          Outcome(if n.nextIndex[i] > 1 then n.(nextIndex := n.nextIndex[i := n.nextIndex[i] - 1]) else n, [], None)
        else
          var n1 := n.(nextIndex := n.nextIndex[i := reply.matchIndex + 1],
                       matchIndex := n.matchIndex[i := reply.matchIndex]);
          var c := HighestCommittable(n1, |n1.log|);
          Outcome(n1.(commit := c), [], if c > n1.commit then Some(n1.log[c - 1]) else None)
  }

  function Step(n: Node, from: NodeId, msg: Message): Outcome
    requires Sized(n)
  {
    match msg
    case RequestVote(_, _, _, _) => OnRequestVote(n, from, msg)
    case RequestVoteReply(_, _) => OnVoteReply(n, msg)
    case AppendEntries(_, _, _, _, _, _) => OnAppendEntries(n, from, msg)
    case AppendEntriesReply(_, _, _) => OnAppendReply(n, from, msg)
  }

  /** No call changes who the node or its peers are, or outgrows a container. */
  ghost predicate SameIdentity(n: Node, n': Node) {
    Sized(n') && n'.id == n.id && n'.peers == n.peers
  }

  lemma StepKeepsIdentity(n: Node, from: NodeId, msg: Message)
    requires Sized(n)
    ensures SameIdentity(n, Step(n, from, msg).node)
  {
  }

  lemma ElectionKeepsIdentity(n: Node)
    requires Sized(n)
    ensures SameIdentity(n, StartElection(n).node)
  {
  }

  lemma ProposeKeepsIdentity(n: Node, src: NodeId, dst: NodeId)
    requires Sized(n)
    ensures SameIdentity(n, Propose(n, src, dst).1.node)
  {
  }
}
