/** The commit index that a follower takes from one batch.

    A follower moves its commit index to `min(leader_commit, last index of its own log)`, not to the end of the
    batch. Whether that is right depends on what else the leader's log may hold. */
module RaftCommitRule {
  import opened Types
  import opened RaftSpec
  import opened RaftOverlay
  import opened RaftLogs

  /** The follower accepts the batch and takes its commit index from it. */
  ghost predicate TakesCommit(n: Node, ae: Message) {
    Sized(n) && ae.AppendEntries? && ae.term >= n.term && PrevMatches(n.log, ae) && ae.leaderCommit > n.commit
  }

  function BatchEnd(ae: Message): nat
    requires ae.AppendEntries?
  {
    ae.prevLogIndex + |ae.entries|
  }

  /** What a follower can see before it handles the batch: the leader's commit index or its own log does not reach
      past the batch, or the batch will cut its log, or its log ends in an entry of this very leader, or it has
      committed its whole log already. */
  ghost predicate CommitSafe(n: Node, ae: Message)
    requires ae.AppendEntries?
  {
    || ae.leaderCommit <= BatchEnd(ae)
    || |n.log| <= BatchEnd(ae)
    || !Holds(n.log, ae.prevLogIndex, ae.entries, |ae.entries|)
    || LastTerm(n.log) == ae.term
    || |n.log| <= n.commit
  }

  ghost predicate Agrees(lead: Log, log: Log, commit: nat) {
    commit <= |lead| && commit <= |log| && lead[..commit] == log[..commit]
  }

  /** Leader logs, by term, that can lie behind the follower's log and the batch: every log is made of them, none
      goes beyond its term or its capacity, and the sender's contains the batch, reaches its commit index and agrees
      with what the follower has committed. */
  ghost predicate Behind(llog: map<nat, Log>, n: Node, ae: Message) {
    && ae.AppendEntries? && ae.term in llog
    && (forall t :: t in llog ==> Backed(llog[t], llog) && TermsUpTo(llog[t], t) && |llog[t]| <= LOG_CAPACITY)
    && Backed(n.log, llog) && TermsUpTo(n.log, n.term)
    && SliceOf(llog[ae.term], ae.prevLogIndex, ae.entries) && ae.leaderCommit <= |llog[ae.term]|
    && (ae.prevLogIndex > 0 ==> llog[ae.term][ae.prevLogIndex - 1].term == ae.prevLogTerm)
    && Agrees(llog[ae.term], n.log, n.commit)
  }

  // ---------- safe batches ----------

  /** An accepted batch moves the log to the overlay and the commit index by the follower's rule. */
  lemma StepCommitRule(n: Node, from: NodeId, ae: Message)
    requires TakesCommit(n, ae)
    ensures var n' := Step(n, from, ae).node;
      n'.log == Overlay(n.log, ae.prevLogIndex, ae.entries) && n'.commit == Min(ae.leaderCommit, |n'.log|)
  {
  }

  /** A leader's batch that can be laid over the log. */
  ghost predicate Fits(log: Log, lead: Log, prev: nat, entries: seq<Entry>, llog: map<nat, Log>) {
    && Backed(log, llog) && Backed(lead, llog) && |lead| <= LOG_CAPACITY && SliceOf(lead, prev, entries)
    && (prev == 0 || (prev <= |log| && log[prev - 1].term == lead[prev - 1].term))
  }

  lemma MatchingHolds(log: Log, prev: nat, entries: seq<Entry>)
    ensures Matching(log, prev, entries) == |entries| <==> Holds(log, prev, entries, |entries|)
  {
    if Holds(log, prev, entries, |entries|) {
      MatchingIs(log, prev, entries, |entries|);
    }
  }

  lemma Uncapped(log: Log)
    requires |log| <= LOG_CAPACITY
    ensures Capped(log) == log
  {
  }

  /** A log that is cut where it stops agreeing with `lead` and continued with the slice is a prefix of `lead`. */
  lemma CutAndContinued(log: Log, lead: Log, prev: nat, entries: seq<Entry>, k: nat)
    requires |lead| <= LOG_CAPACITY && SliceOf(lead, prev, entries) && k <= |entries|
    requires prev + k <= |log| && log[..prev + k] == lead[..prev + k]
    ensures Capped(log[..prev + k] + entries[k..]) == lead[..prev + |entries|]
  {
    SpliceOfSlice(lead, prev, entries, k);
    Uncapped(lead[..prev + |entries|]);
  }

  lemma OverlayResult(log: Log, lead: Log, prev: nat, entries: seq<Entry>, llog: map<nat, Log>)
    requires Fits(log, lead, prev, entries, llog)
    ensures prev <= |log| && lead[..prev + |entries|] <= Overlay(log, prev, entries)
    ensures Overlay(log, prev, entries)
      == if Holds(log, prev, entries, |entries|) then log else lead[..prev + |entries|]
  {
    OverlayOfLeader(log, lead, prev, entries, llog);
    MatchingHolds(log, prev, entries);
    if Matching(log, prev, entries) == |entries| {
      OverlayUnchanged(log, prev, entries);
    } else {
      AgreesUpToConflict(log, lead, prev, entries, llog);
      CutAndContinued(log, lead, prev, entries, Matching(log, prev, entries));
    }
  }

  lemma BehindFits(n: Node, ae: Message, llog: map<nat, Log>)
    requires TakesCommit(n, ae) && Behind(llog, n, ae)
    ensures Fits(n.log, llog[ae.term], ae.prevLogIndex, ae.entries, llog)
  {
  }

  /** The batch leaves the log as it is when the log holds all of it, and otherwise leaves just what the leader's
      log has up to the end of the batch. */
  lemma LogAfterBatch(n: Node, from: NodeId, ae: Message, llog: map<nat, Log>)
    requires TakesCommit(n, ae) && ae.term in llog && Fits(n.log, llog[ae.term], ae.prevLogIndex, ae.entries, llog)
    ensures var n' := Step(n, from, ae).node;
      && n'.commit == Min(ae.leaderCommit, |n'.log|)
      && llog[ae.term][..BatchEnd(ae)] <= n'.log
      && n'.log == if Holds(n.log, ae.prevLogIndex, ae.entries, |ae.entries|)
                 then n.log else llog[ae.term][..BatchEnd(ae)]
  {
    StepCommitRule(n, from, ae);
    OverlayResult(n.log, llog[ae.term], ae.prevLogIndex, ae.entries, llog);
  }

  lemma PrefixesAgree(lead: Log, log: Log, end: nat, commit: nat)
    requires commit <= end <= |lead| && lead[..end] <= log
    ensures Agrees(lead, log, commit)
  {
    assert lead[..commit] == lead[..end][..commit] == log[..commit];
  }

  lemma SafeIsRight(n: Node, from: NodeId, ae: Message, llog: map<nat, Log>)
    requires TakesCommit(n, ae) && Behind(llog, n, ae) && CommitSafe(n, ae)
    ensures var n' := Step(n, from, ae).node; Agrees(llog[ae.term], n'.log, n'.commit)
  {
    var n' := Step(n, from, ae).node;
    BehindFits(n, ae, llog);
    LogAfterBatch(n, from, ae, llog);
    if n'.commit <= BatchEnd(ae) {
      PrefixesAgree(llog[ae.term], n'.log, BatchEnd(ae), n'.commit);
    } else if LastTerm(n.log) == ae.term {
      BackedByLast(n.log, llog);
      PrefixesAgree(llog[ae.term], n'.log, |n.log|, n'.commit);
    }
  }

  // ---------- unsafe batches ----------

  /** One more than the position of the last entry of the term. */
  function EndOf(log: Log, term: nat): (k: nat)
    ensures k <= |log| && (k > 0 ==> log[k - 1].term == term)
    ensures forall j :: k <= j < |log| ==> log[j].term != term
  {
    if |log| == 0 then 0
    else if log[|log| - 1].term == term then |log|
    else EndOf(log[..|log| - 1], term)
  }

  function TermsOf(log: Log): set<nat> {
    set k | 0 <= k < |log| :: log[k].term
  }

  /** Where a rival log parts from the follower's: behind the batch and behind what the follower has committed. */
  function Fork(n: Node, ae: Message): nat
    requires ae.AppendEntries?
  {
    if BatchEnd(ae) <= n.commit then n.commit else BatchEnd(ae)
  }

  /** The sender's log with entries of its own from the fork on, up to its commit index. */
  function Rival(log: Log, ae: Message, fork: nat): Log
    requires ae.AppendEntries? && fork <= |log| && fork <= ae.leaderCommit
  {
    log[..fork] + seq(ae.leaderCommit - fork, i => Entry(ae.term, 1, 1))
  }

  /** Leader logs in which the sender has the rival log and all others have only what the follower's log shows. */
  function RivalLogs(log: Log, ae: Message, fork: nat): map<nat, Log>
    requires ae.AppendEntries? && fork <= |log| && fork <= ae.leaderCommit
  {
    map t | t in TermsOf(log) + {ae.term} :: if t == ae.term then Rival(log, ae, fork) else log[..EndOf(log, t)]
  }

  ghost predicate Sorted(log: Log) {
    forall i, j :: 0 <= i <= j < |log| ==> log[i].term <= log[j].term
  }

  lemma BackedIsSorted(log: Log, llog: map<nat, Log>)
    requires Backed(log, llog) && forall t :: t in llog ==> TermsUpTo(llog[t], t)
    ensures Sorted(log)
  {
    forall i, j | 0 <= i <= j < |log|
      ensures log[i].term <= log[j].term
    {
      BackedSorted(log, i, j, llog);
    }
  }

  /** The follower's log and all its prefixes are made of the rival leader logs. */
  lemma PrefixBacked(log: Log, m: nat, ae: Message, fork: nat)
    requires ae.AppendEntries? && fork <= |log| && fork <= ae.leaderCommit && m <= |log|
    requires forall k :: 0 <= k < |log| ==> log[k].term < ae.term
    ensures Backed(log[..m], RivalLogs(log, ae, fork))
  {
    var llog := RivalLogs(log, ae, fork);
    var short := log[..m];
    forall k: nat | k < |short|
      ensures BackedAt(short, k, llog)
    {
      assert short[k] == log[k] && log[k].term in TermsOf(log);
      assert short[..k + 1] == log[..k + 1];
      assert k + 1 <= EndOf(log, log[k].term);
    }
  }

  lemma RivalBacked(log: Log, ae: Message, fork: nat)
    requires ae.AppendEntries? && fork <= |log| && fork <= ae.leaderCommit
    requires forall k :: 0 <= k < |log| ==> log[k].term < ae.term
    ensures Backed(Rival(log, ae, fork), RivalLogs(log, ae, fork)) && TermsUpTo(Rival(log, ae, fork), ae.term)
  {
    var lead, llog := Rival(log, ae, fork), RivalLogs(log, ae, fork);
    PrefixBacked(log, fork, ae, fork);
    forall k: nat | k < |lead|
      ensures BackedAt(lead, k, llog) && lead[k].term <= ae.term
    {
      if k < fork {
        assert BackedAt(log[..fork], k, llog);
        assert lead[k] == log[..fork][k] && lead[..k + 1] == log[..fork][..k + 1];
      }
    }
  }

  lemma OthersBacked(log: Log, ae: Message, fork: nat, t: nat)
    requires ae.AppendEntries? && fork <= |log| && fork <= ae.leaderCommit
    requires (forall k :: 0 <= k < |log| ==> log[k].term < ae.term) && Sorted(log) && t in TermsOf(log)
    ensures Backed(log[..EndOf(log, t)], RivalLogs(log, ae, fork)) && TermsUpTo(log[..EndOf(log, t)], t)
  {
    PrefixBacked(log, EndOf(log, t), ae, fork);
  }

  /** The log holds the very entries of the batch, and what precedes them. */
  lemma HeldBatch(n: Node, ae: Message, llog: map<nat, Log>)
    requires TakesCommit(n, ae) && Behind(llog, n, ae) && Holds(n.log, ae.prevLogIndex, ae.entries, |ae.entries|)
    ensures BatchEnd(ae) <= |n.log| && n.log[..BatchEnd(ae)] == llog[ae.term][..BatchEnd(ae)]
  {
    MatchingIs(n.log, ae.prevLogIndex, ae.entries, |ae.entries|);
    AgreesUpToConflict(n.log, llog[ae.term], ae.prevLogIndex, ae.entries, llog);
  }

  lemma EarlierTerms(n: Node, ae: Message, llog: map<nat, Log>)
    requires TakesCommit(n, ae) && Behind(llog, n, ae) && LastTerm(n.log) != ae.term
    ensures Sorted(n.log) && forall k :: 0 <= k < |n.log| ==> n.log[k].term < ae.term
  {
    BackedIsSorted(n.log, llog);
  }

  lemma RivalSlice(log: Log, ae: Message, fork: nat, lead: Log)
    requires ae.AppendEntries? && BatchEnd(ae) <= fork <= |log| && fork < ae.leaderCommit
    requires SliceOf(lead, ae.prevLogIndex, ae.entries) && log[..BatchEnd(ae)] == lead[..BatchEnd(ae)]
    ensures SliceOf(Rival(log, ae, fork), ae.prevLogIndex, ae.entries) && |Rival(log, ae, fork)| == ae.leaderCommit
    ensures Rival(log, ae, fork)[..BatchEnd(ae)] == lead[..BatchEnd(ae)]
  {
    var rival, end, prev := Rival(log, ae, fork), BatchEnd(ae), ae.prevLogIndex;
    assert rival[..end] == log[..end];
    assert rival[prev..end] == rival[..end][prev..] == lead[..end][prev..] == lead[prev..end];
  }

  /** Where no sign shows, log and commit index of the leader both go past the fork. */
  lemma ForkWithin(n: Node, ae: Message)
    requires TakesCommit(n, ae) && !CommitSafe(n, ae)
    ensures BatchEnd(ae) <= Fork(n, ae) < |n.log| && n.commit <= Fork(n, ae) < ae.leaderCommit
  {
  }

  lemma RivalsSound(log: Log, ae: Message, fork: nat, t: nat)
    requires ae.AppendEntries? && fork <= |log| <= LOG_CAPACITY && fork <= ae.leaderCommit <= LOG_CAPACITY
    requires (forall k :: 0 <= k < |log| ==> log[k].term < ae.term) && Sorted(log) && t in RivalLogs(log, ae, fork)
    ensures var rivals := RivalLogs(log, ae, fork);
      Backed(rivals[t], rivals) && TermsUpTo(rivals[t], t) && |rivals[t]| <= LOG_CAPACITY
  {
    if t == ae.term {
      RivalBacked(log, ae, fork);
    } else {
      OthersBacked(log, ae, fork, t);
    }
  }

  lemma AllRivalsSound(log: Log, ae: Message, fork: nat)
    requires ae.AppendEntries? && fork <= |log| <= LOG_CAPACITY && fork <= ae.leaderCommit <= LOG_CAPACITY
    requires (forall k :: 0 <= k < |log| ==> log[k].term < ae.term) && Sorted(log)
    ensures var rivals := RivalLogs(log, ae, fork);
      && (forall t :: t in rivals ==>
            Backed(rivals[t], rivals) && TermsUpTo(rivals[t], t) && |rivals[t]| <= LOG_CAPACITY)
      && Backed(log, rivals)
  {
    var rivals := RivalLogs(log, ae, fork);
    forall t | t in rivals
      ensures Backed(rivals[t], rivals) && TermsUpTo(rivals[t], t) && |rivals[t]| <= LOG_CAPACITY
    {
      RivalsSound(log, ae, fork, t);
    }
    PrefixBacked(log, |log|, ae, fork);
    assert log[..|log|] == log;
  }

  /** The rival log agrees with the sender's on the predecessor of the batch and with the follower's up to the fork. */
  lemma RivalAgrees(log: Log, ae: Message, fork: nat, lead: Log, commit: nat)
    requires ae.AppendEntries? && ae.prevLogIndex <= |lead| && BatchEnd(ae) <= |lead| && commit <= fork <= |log|
    requires fork <= ae.leaderCommit && BatchEnd(ae) <= fork
    requires Rival(log, ae, fork)[..BatchEnd(ae)] == lead[..BatchEnd(ae)]
    ensures Agrees(Rival(log, ae, fork), log, commit)
    ensures ae.prevLogIndex > 0 ==> Rival(log, ae, fork)[ae.prevLogIndex - 1] == lead[ae.prevLogIndex - 1]
  {
    var rival, end, prev := Rival(log, ae, fork), BatchEnd(ae), ae.prevLogIndex;
    if prev > 0 {
      assert rival[..end][prev - 1] == lead[..end][prev - 1];
    }
    assert rival[..commit] == log[..commit];
  }

  lemma RivalBehind(n: Node, ae: Message, llog: map<nat, Log>)
    requires TakesCommit(n, ae) && Behind(llog, n, ae) && !CommitSafe(n, ae)
    ensures Fork(n, ae) <= |n.log| && Fork(n, ae) <= ae.leaderCommit && Behind(RivalLogs(n.log, ae, Fork(n, ae)), n, ae)
  {
    var log, lead, fork := n.log, llog[ae.term], Fork(n, ae);
    ForkWithin(n, ae);
    EarlierTerms(n, ae, llog);
    HeldBatch(n, ae, llog);
    RivalSlice(log, ae, fork, lead);
    AllRivalsSound(log, ae, fork);
    RivalAgrees(log, ae, fork, lead, n.commit);
  }

  lemma UnsafeIsWrong(n: Node, from: NodeId, ae: Message, llog: map<nat, Log>)
    requires TakesCommit(n, ae) && Behind(llog, n, ae) && !CommitSafe(n, ae)
    ensures var n', fork := Step(n, from, ae).node, Fork(n, ae);
      && fork <= |n.log| && fork <= ae.leaderCommit && Behind(RivalLogs(n.log, ae, fork), n, ae)
      && !Agrees(RivalLogs(n.log, ae, fork)[ae.term], n'.log, n'.commit)
  {
    var n', fork := Step(n, from, ae).node, Fork(n, ae);
    ForkWithin(n, ae);
    RivalBehind(n, ae, llog);
    BehindFits(n, ae, llog);
    LogAfterBatch(n, from, ae, llog);
    EarlierTerms(n, ae, llog);
    var rival := Rival(n.log, ae, fork);
    assert fork < n'.commit && rival[fork].term == ae.term;
    assert n'.commit <= |rival| ==> rival[..n'.commit][fork] != n'.log[..n'.commit][fork];
  }

  /** For a batch that some leader logs account for: the commit index it makes the follower take is right for all
      leader logs that account for it, if and only if the follower sees one of the five signs beforehand. */
  lemma CommitRightIff(n: Node, from: NodeId, ae: Message, llog: map<nat, Log>)
    requires TakesCommit(n, ae) && Behind(llog, n, ae)
    ensures var n' := Step(n, from, ae).node;
      (forall other :: Behind(other, n, ae) ==> Agrees(other[ae.term], n'.log, n'.commit)) <==> CommitSafe(n, ae)
  {
    var n' := Step(n, from, ae).node;
    if CommitSafe(n, ae) {
      forall other | Behind(other, n, ae)
        ensures Agrees(other[ae.term], n'.log, n'.commit)
      {
        SafeIsRight(n, from, ae, other);
      }
    } else {
      UnsafeIsWrong(n, from, ae, llog);
    }
  }
}
