/** The Raft node as the kernel runs it: an object updated in place, proved against `RaftSpec`. */
module RaftNode {
  import opened Types
  import opened RaftSpec
  import opened RaftOverlay

  /** A transport: what was sent through it and what it will still deliver. */
  class Transport {
    var sent: seq<RaftSpec.Send>
    var inbox: seq<(NodeId, Message)>

    constructor (inbox: seq<(NodeId, Message)>)
      ensures this.inbox == inbox && sent == []
    {
      this.inbox := inbox;
      sent := [];
    }

    method Post(to: NodeId, msg: Message)
      modifies this`sent
      ensures sent == old(sent) + [RaftSpec.Send(to, msg)]
    {
      sent := sent + [RaftSpec.Send(to, msg)];
    }

    method Recv() returns (r: Option<(NodeId, Message)>)
      modifies this`inbox
      ensures old(inbox) == [] ==> r.None? && inbox == []
      ensures old(inbox) != [] ==> r == Some(old(inbox)[0]) && inbox == old(inbox)[1..]
    {
      if |inbox| == 0 {
        r := None;
      } else {
        r := Some(inbox[0]);
        inbox := inbox[1..];
      }
    }
  }

  /** The bounded, 1-based log. */
  class RaftLog {
    var entries: seq<Entry>

    constructor ()
      ensures entries == []
    {
      entries := [];
    }

    ghost predicate Valid()
      reads this
    {
      |entries| <= LOG_CAPACITY
    }

    method Append(entry: Entry) returns (ok: bool)
      requires Valid()
      modifies this
      ensures Valid()
      ensures ok <==> |old(entries)| < LOG_CAPACITY
      ensures entries == if ok then old(entries) + [entry] else old(entries)
    {
      ok := |entries| < LOG_CAPACITY;
      if ok {
        entries := entries + [entry];
      }
    }

    /** Entry at 1-based `index`, if there is one. */
    function Get(index: nat): (e: Option<Entry>)
      reads this
      ensures e.Some? <==> 1 <= index <= |entries|
    {
      if index == 0 || index - 1 >= |entries| then None else Some(entries[index - 1])
    }

    method TruncateFrom(index: nat)
      requires Valid()
      modifies this
      ensures Valid()
      ensures entries == RaftSpec.TruncateFrom(old(entries), index)
    {
      if index != 0 && index - 1 < |entries| {
        entries := entries[..index - 1];
      }
    }
  }

  class RaftNode {
    const id: NodeId
    const peers: seq<NodeId>
    var role: Role
    var term: nat
    var votedFor: Option<NodeId>
    const log: RaftLog
    var commitIndex: nat
    var votesGranted: nat
    const nextIndex: array<nat>
    const matchIndex: array<nat>

    ghost predicate Valid()
      reads this, log
    {
      && |peers| <= MAX_PEERS
      && nextIndex.Length == MAX_PEERS && matchIndex.Length == MAX_PEERS && nextIndex != matchIndex
      && log.Valid()
    }

    /** The value of the node that `RaftSpec` speaks about. */
    ghost function State(): (n: Node)
      requires Valid()
      reads this, log, nextIndex, matchIndex
      ensures Sized(n)
    {
      Node(id, role, term, votedFor, log.entries, commitIndex, votesGranted, peers, nextIndex[..], matchIndex[..])
    }

    /** A follower in term 0 with an empty log. */
    constructor (id: NodeId, peers: seq<NodeId>)
      requires |peers| <= 16
      ensures Valid() && State() == NewNode(id, peers)
      ensures fresh(log) && fresh(nextIndex) && fresh(matchIndex)
    {
      this.id := id;
      this.peers := peers;
      role := Follower;
      term := 0;
      votedFor := None;
      log := new RaftLog();
      commitIndex := 0;
      votesGranted := 0;
      nextIndex := new nat[MAX_PEERS](i => 1);
      matchIndex := new nat[MAX_PEERS](i => 0);
      new;
      assert nextIndex[..] == seq(MAX_PEERS, i => 1);
      assert matchIndex[..] == seq(MAX_PEERS, i => 0);
    }

    method BecomeLeader()
      requires Valid()
      modifies this, nextIndex, matchIndex
      ensures Valid() && State() == RaftSpec.BecomeLeader(old(State()))
    {
      role := Leader;
      var next := |log.entries| + 1;
      var i := 0;
      while i < |peers|
        invariant 0 <= i <= |peers| && Valid() && role == Leader
        invariant unchanged(log) && term == old(term) && votedFor == old(votedFor)
        invariant commitIndex == old(commitIndex) && votesGranted == old(votesGranted)
        invariant forall k :: 0 <= k < i ==> nextIndex[k] == next && matchIndex[k] == 0
        invariant forall k :: i <= k < MAX_PEERS ==>
          nextIndex[k] == old(nextIndex[k]) && matchIndex[k] == old(matchIndex[k])
      {
        nextIndex[i] := next;
        matchIndex[i] := 0;
        i := i + 1;
      }
      ghost var n := RaftSpec.BecomeLeader(old(State()));
      assert nextIndex[..] == n.nextIndex;
      assert matchIndex[..] == n.matchIndex;
    }

    method StepDown(newTerm: nat)
      requires Valid()
      modifies this
      ensures Valid() && State() == RaftSpec.StepDown(old(State()), newTerm)
    {
      term := newTerm;
      role := Follower;
      votedFor := None;
    }

    method StartElection(transport: Transport)
      requires Valid()
      modifies this, nextIndex, matchIndex, transport`sent
      ensures Valid()
      ensures State() == RaftSpec.StartElection(old(State())).node
      ensures transport.sent == old(transport.sent) + RaftSpec.StartElection(old(State())).sent
    {
      ghost var o := RaftSpec.StartElection(State());
      term := term + 1;
      role := Candidate;
      votedFor := Some(id);
      votesGranted := 1;
      if |peers| == 0 {
        BecomeLeader();
        return;
      }
      var msg := RequestVote(term, id, |log.entries|, LastTerm(log.entries));
      var i := 0;
      while i < |peers|
        invariant 0 <= i <= |peers| && Valid() && State() == o.node
        invariant transport.sent == old(transport.sent) + o.sent[..i]
      {
        transport.Post(peers[i], msg);
        i := i + 1;
      }
    }

    /** Sends the peer at position `i` its next batch; there is nothing to send past the last peer. */
    method SendAppendTo(i: nat, transport: Transport)
      requires Valid()
      modifies transport`sent
      ensures transport.sent == old(transport.sent) + if i < |peers| then [AppendFor(State(), i)] else []
    {
      if i >= |peers| {
        return;
      }
      var next := nextIndex[i];
      var prev := if next == 0 then 0 else next - 1;
      var prevTerm := match log.Get(prev) case Some(e) => e.term case None => 0;
      var batch: seq<Entry> := [];
      var index := next;
      while log.Get(index).Some? && |batch| < BATCH
        invariant next <= index && |batch| == index - next && |batch| <= BATCH
        invariant batch != [] ==> 1 <= next && index - 1 <= |log.entries| && batch == log.entries[next - 1..index - 1]
        decreases |log.entries| + 1 - index
      {
        batch := batch + [log.entries[index - 1]];
        index := index + 1;
      }
      assert batch == NextBatch(log.entries, next);
      transport.Post(peers[i], AppendEntries(term, id, prev, prevTerm, batch, commitIndex));
    }

    method Propose(src: NodeId, dst: NodeId, transport: Transport) returns (r: Result<()>)
      requires Valid()
      modifies this, log, transport`sent
      ensures Valid()
      ensures r == RaftSpec.Propose(old(State()), src, dst).0
      ensures State() == RaftSpec.Propose(old(State()), src, dst).1.node
      ensures transport.sent == old(transport.sent) + RaftSpec.Propose(old(State()), src, dst).1.sent
    {
      ghost var o := RaftSpec.Propose(State(), src, dst).1;
      if role != Leader {
        return Err(UndefinedState("raft: cannot propose \U{2014} not leader"));
      }
      var ok := log.Append(Entry(term, src, dst));
      if !ok {
        return Err(QuotaExceeded("raft log at capacity"));
      }
      if |peers| == 0 {
        commitIndex := |log.entries|;
        return Ok(());
      }
      var i := 0;
      while i < |peers|
        invariant 0 <= i <= |peers| && Valid() && State() == o.node
        invariant transport.sent == old(transport.sent) + o.sent[..i]
      {
        SendAppendTo(i, transport);
        i := i + 1;
      }
      return Ok(());
    }

    method OnRequestVote(from: NodeId, rv: Message, transport: Transport)
      requires Valid() && rv.RequestVote?
      modifies this, transport`sent
      ensures Valid() && State() == RaftSpec.OnRequestVote(old(State()), from, rv).node
      ensures transport.sent == old(transport.sent) + RaftSpec.OnRequestVote(old(State()), from, rv).sent
    {
      if rv.term > term {
        StepDown(rv.term);
      }
      var logOk := UpToDate(rv.lastLogIndex, rv.lastLogTerm, log.entries);
      var canVote := votedFor.None? || votedFor.value == rv.candidateId;
      var granted := rv.term >= term && logOk && canVote;
      if granted {
        votedFor := Some(rv.candidateId);
      }
      transport.Post(from, RequestVoteReply(term, granted));
    }

    method OnVoteReply(reply: Message)
      requires Valid() && reply.RequestVoteReply?
      modifies this, nextIndex, matchIndex
      ensures Valid() && State() == RaftSpec.OnVoteReply(old(State()), reply).node
    {
      if reply.term > term {
        StepDown(reply.term);
        return;
      }
      if role != Candidate || reply.term != term {
        return;
      }
      if reply.voteGranted {
        votesGranted := votesGranted + 1;
      }
      if votesGranted >= Quorum(|peers|) {
        BecomeLeader();
      }
    }

    /** One turn of the loop below; a full log silently ignores the entry. */
    method LayEntry(index: nat, entry: Entry)
      requires Valid()
      modifies log
      ensures Valid() && log.entries == Lay(old(log.entries), index, entry)
    {
      var existing := log.Get(index);
      if existing.Some? && existing.value.term != entry.term {
        log.TruncateFrom(index);
      }
      if log.Get(index).None? {
        var _ := log.Append(entry);
      }
    }

    /** Lays the batch over the log and reports how far the log should now match the leader's. */
    method AppendLogEntries(prev: nat, batch: seq<Entry>) returns (matched: nat)
      requires Valid()
      modifies log
      ensures Valid() && log.entries == Laid(old(log.entries), prev, batch)
      ensures matched == prev + |batch|
    {
      ghost var before := log.entries;
      var i := 0;
      while i < |batch|
        invariant 0 <= i <= |batch| && Valid()
        invariant log.entries == Laid(before, prev, batch[..i])
      {
        LayExtendsLaid(before, prev, batch, i);
        LayEntry(prev + i + 1, batch[i]);
        i := i + 1;
      }
      assert batch[..i] == batch;
      matched := prev + |batch|;
    }

    method OnAppendEntries(from: NodeId, ae: Message, transport: Transport)
      requires Valid() && ae.AppendEntries?
      modifies this, log, transport`sent
      ensures Valid() && State() == RaftSpec.OnAppendEntries(old(State()), from, ae).node
      ensures transport.sent == old(transport.sent) + RaftSpec.OnAppendEntries(old(State()), from, ae).sent
    {
      if ae.term < term {
        transport.Post(from, AppendEntriesReply(term, false, 0));
        return;
      }
      if ae.term > term {
        StepDown(ae.term);
      } else {
        role := Follower;
      }
      var held := log.Get(ae.prevLogIndex);
      var prevOk := ae.prevLogIndex == 0 || (held.Some? && held.value.term == ae.prevLogTerm);
      if !prevOk {
        transport.Post(from, AppendEntriesReply(term, false, 0));
        return;
      }
      var matched := AppendLogEntries(ae.prevLogIndex, ae.entries);
      if ae.leaderCommit > commitIndex {
        commitIndex := Min(ae.leaderCommit, |log.entries|);
      }
      transport.Post(from, AppendEntriesReply(term, true, matched));
    }

    /** How many peers acknowledged everything up to `index`. */
    method CountAcked(index: nat) returns (count: nat)
      requires Valid()
      ensures count == |AckedPeers(State(), index)|
    {
      count := 0;
      var i := 0;
      while i < |peers|
        invariant 0 <= i <= |peers|
        invariant count == |set k: nat | k < i && matchIndex[k] >= index|
      {
        ghost var seen := set k: nat | k < i && matchIndex[k] >= index;
        ghost var seen' := set k: nat | k < i + 1 && matchIndex[k] >= index;
        if matchIndex[i] >= index {
          assert seen' == seen + {i};
          count := count + 1;
        } else {
          assert seen' == seen;
        }
        i := i + 1;
      }
      assert AckedPeers(State(), index) == set k: nat | k < |peers| && matchIndex[k] >= index;
    }

    /** Moves the commit index to the greatest index of the current term that a quorum acknowledged. */
    method AdvanceCommitIndex() returns (advanced: bool)
      requires Valid()
      modifies this`commitIndex
      ensures Valid() && State() == old(State()).(commit := HighestCommittable(old(State()), |log.entries|))
      ensures advanced <==> commitIndex > old(commitIndex)
    {
      var start := commitIndex;
      ghost var n := State();
      var index: nat := |log.entries|;
      while index > start
        invariant Valid() && index <= |log.entries| && commitIndex == start && State() == n
        invariant HighestCommittable(n, |log.entries|) == HighestCommittable(n, index)
      {
        if log.entries[index - 1].term == term {
          var acked := CountAcked(index);
          if 1 + acked >= Quorum(|peers|) {
            commitIndex := index;
            break;
          }
        }
        index := index - 1;
      }
      advanced := commitIndex > start;
    }

    method OnAppendReply(from: NodeId, reply: Message) returns (committed: Option<Entry>)
      requires Valid() && reply.AppendEntriesReply?
      modifies this, nextIndex, matchIndex
      ensures Valid() && State() == RaftSpec.OnAppendReply(old(State()), from, reply).node
      ensures committed == RaftSpec.OnAppendReply(old(State()), from, reply).committed
    {
      if reply.term > term {
        StepDown(reply.term);
        return None;
      }
      if role != Leader || reply.term != term {
        return None;
      }
      var position := IndexOf(peers, from);
      if position.None? {
        return None;
      }
      var i := position.value;
      if reply.success {
        nextIndex[i] := reply.matchIndex + 1;
        matchIndex[i] := reply.matchIndex;
        var advanced := AdvanceCommitIndex();
        return if advanced then log.Get(commitIndex) else None;
      }
      if nextIndex[i] > 1 {
        nextIndex[i] := nextIndex[i] - 1;
      }
      return None;
    }

    method Step(from: NodeId, msg: Message, transport: Transport) returns (committed: Option<Entry>)
      requires Valid()
      modifies this, log, nextIndex, matchIndex, transport`sent
      ensures Valid()
      ensures State() == RaftSpec.Step(old(State()), from, msg).node
      ensures transport.sent == old(transport.sent) + RaftSpec.Step(old(State()), from, msg).sent
      ensures committed == RaftSpec.Step(old(State()), from, msg).committed
    {
      match msg {
        case RequestVote(_, _, _, _) =>
          OnRequestVote(from, msg, transport);
          committed := None;
        case RequestVoteReply(_, _) =>
          OnVoteReply(msg);
          committed := None;
        case AppendEntries(_, _, _, _, _, _) =>
          OnAppendEntries(from, msg, transport);
          committed := None;
        case AppendEntriesReply(_, _, _) =>
          committed := OnAppendReply(from, msg);
      }
    }
  }
}
