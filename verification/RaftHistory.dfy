/** History of a cluster run: who voted for whom, who won which term, what each leader's log was and
    who acknowledged how much of it. It never influences a run; it is what the safety proof talks about. */
module RaftHistory {
  import opened Types
  import opened RaftSpec
  import opened RaftCluster

  datatype Ballot = Ballot(term: nat, node: NodeId)

  datatype Win = Win(leader: NodeId, voters: set<NodeId>, start: Log)

  datatype Ack = Ack(term: nat, node: NodeId, upTo: nat)

  datatype History = History(
    voted: map<Ballot, NodeId>,       // candidate each node voted for in each term
    voteLog: map<Ballot, Log>,        // the voter's log when it voted
    candLog: map<Ballot, Log>,        // the candidate's log when it stood
    tally: map<NodeId, set<NodeId>>,  // voters a candidate has counted in its latest candidacy
    won: map<nat, Win>,               // winner of each term
    llog: map<nat, Log>,              // the log of that winner, as far as it grew in its term
    acks: set<Ack>)                   // accepted AppendEntries, and the leader's own log

  const EMPTY: History := History(map[], map[], map[], map[], map[], map[], {})

  // ---------- elementary updates ----------

  function Cast(h: History, term: nat, voter: NodeId, candidate: NodeId, log: Log): History {
    h.(voted := h.voted[Ballot(term, voter) := candidate],
       voteLog := h.voteLog[Ballot(term, voter) := log])
  }

  function Stand(h: History, term: nat, id: NodeId, log: Log): History {
    Cast(h.(candLog := h.candLog[Ballot(term, id) := log], tally := h.tally[id := {id}]), term, id, id, log)
  }

  function TallyOf(h: History, id: NodeId): set<NodeId> {
    if id in h.tally then h.tally[id] else {}
  }

  function Count(h: History, id: NodeId, voter: NodeId): History {
    h.(tally := h.tally[id := TallyOf(h, id) + {voter}])
  }

  /** The log of the leader of `term` is now `log`, and the leader itself holds all of it. */
  function Lead(h: History, term: nat, id: NodeId, log: Log): History {
    h.(llog := h.llog[term := log], acks := h.acks + {Ack(term, id, |log|)})
  }

  function Elected(h: History, term: nat, id: NodeId, log: Log): History {
    Lead(h.(won := h.won[term := Win(id, TallyOf(h, id), log)]), term, id, log)
  }

  // ---------- per action ----------

  function RecordElect(h: History, n: Node): History {
    var stood := Stand(h, n.term + 1, n.id, n.log);
    if |n.peers| == 0 then Elected(stood, n.term + 1, n.id, n.log) else stood
  }

  function RecordSubmit(h: History, n: Node, n': Node): History {
    if n.role == Leader && n'.log != n.log then Lead(h, n.term, n.id, n'.log) else h
  }

  function RecordStep(h: History, n: Node, n': Node, p: Packet): History {
    match p.msg
    case RequestVote(_, _, _, _) =>
      if n'.votedFor.Some? && !(n'.term == n.term && n.votedFor.Some?)
      then Cast(h, n'.term, n.id, n'.votedFor.value, n.log) else h
    case RequestVoteReply(term, granted) =>
      if n.role == Candidate && term == n.term && granted then
        var counted := Count(h, n.id, p.src);
        if n'.role == Leader then Elected(counted, n.term, n.id, n.log) else counted
      else h
    case AppendEntries(term, _, prev, _, entries, _) =>
      if term >= n.term && PrevMatches(n.log, p.msg)
      then h.(acks := h.acks + {Ack(term, n.id, prev + |entries|)}) else h
    case AppendEntriesReply(_, _, _) => h
  }

  function Record(h: History, c: Cluster, a: Action): History
    requires Shaped(c)
  {
    if !Enabled(c, a) || a.Drop? then h
    else
      var n := c.nodes[Actor(a)];
      var n' := Effect(c, a).node;
      match a
      case Elect(_) => RecordElect(h, n)
      case Submit(_, _, _) => RecordSubmit(h, n, n')
      case Deliver(p) => RecordStep(h, n, n', p)
  }

  /** History of the run that performs `actions` from `c`. */
  function Past(c: Cluster, actions: seq<Action>): History
    requires Shaped(c)
  {
    if |actions| == 0 then EMPTY
    else
      var earlier := actions[..|actions| - 1];
      Record(Past(c, earlier), Run(c, earlier), actions[|actions| - 1])
  }
}
