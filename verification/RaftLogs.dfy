/** Logs as prefixes of leader logs, and the overlay of a leader's batch. */
module RaftLogs {
  import opened Types
  import opened RaftSpec

  /** Up to entry `k`, `log` is a prefix of the log of the leader that made the entry. */
  ghost predicate BackedAt(log: Log, k: nat, llog: map<nat, Log>)
    requires k < |log|
  {
    log[k].term in llog && log[..k + 1] <= llog[log[k].term]
  }

  /** The same up to each of its entries. */
  ghost predicate Backed(log: Log, llog: map<nat, Log>) {
    forall k: nat {:trigger BackedAt(log, k, llog)} :: k < |log| ==> BackedAt(log, k, llog)
  }

  ghost predicate TermsUpTo(log: Log, term: nat) {
    forall k :: 0 <= k < |log| ==> log[k].term <= term
  }

  /** Leader logs only grow, at their end. */
  ghost predicate Grows(llog: map<nat, Log>, llog': map<nat, Log>) {
    forall t :: t in llog ==> t in llog' && llog[t] <= llog'[t]
  }

  lemma BackedGrows(log: Log, llog: map<nat, Log>, llog': map<nat, Log>)
    requires Backed(log, llog) && Grows(llog, llog')
    ensures Backed(log, llog')
  {
    forall k: nat | k < |log|
      ensures BackedAt(log, k, llog')
    {
      assert BackedAt(log, k, llog);
      assert llog[log[k].term] <= llog'[log[k].term];
    }
  }

  lemma BackedPrefix(log: Log, m: nat, llog: map<nat, Log>)
    requires Backed(log, llog) && m <= |log|
    ensures Backed(log[..m], llog)
  {
    forall k: nat | k < |log[..m]|
      ensures BackedAt(log[..m], k, llog)
    {
      assert BackedAt(log, k, llog);
      assert log[..m][..k + 1] == log[..k + 1];
    }
  }

  /** A leader's log stays backed when the leader appends an entry of its own term. */
  lemma BackedAppend(log: Log, e: Entry, llog: map<nat, Log>)
    requires Backed(log, llog) && e.term in llog && log + [e] == llog[e.term]
    ensures Backed(log + [e], llog)
  {
    var longer := log + [e];
    forall k: nat | k < |longer|
      ensures BackedAt(longer, k, llog)
    {
      if k < |log| {
        assert BackedAt(log, k, llog);
        assert longer[..k + 1] == log[..k + 1];
      }
    }
  }

  /** A whole log is a prefix of the log of the leader that made its last entry. */
  lemma BackedByLast(log: Log, llog: map<nat, Log>)
    requires Backed(log, llog) && |log| > 0
    ensures LastTerm(log) in llog && log <= llog[LastTerm(log)]
  {
    assert BackedAt(log, |log| - 1, llog);
    assert log[..|log| - 1 + 1] == log;
  }

  /** The Log Matching property for backed logs: one common (index, term) makes everything before it equal. */
  lemma BackedMatch(a: Log, b: Log, k: nat, llog: map<nat, Log>)
    requires Backed(a, llog) && Backed(b, llog)
    requires k < |a| && k < |b| && a[k].term == b[k].term
    ensures a[..k + 1] == b[..k + 1]
  {
    assert BackedAt(a, k, llog) && BackedAt(b, k, llog);
  }

  /** When every leader's log stays within its term, the terms along a backed log never decrease. */
  lemma BackedSorted(log: Log, i: nat, j: nat, llog: map<nat, Log>)
    requires Backed(log, llog) && i <= j < |log|
    requires forall t :: t in llog ==> TermsUpTo(llog[t], t)
    ensures log[i].term <= log[j].term
  {
    assert BackedAt(log, j, llog);
    assert log[..j + 1][i] == llog[log[j].term][i];
  }

  /** What `log` holds of `lead` ends no later than the first batch entry it misses. */
  lemma HeldStopsAtConflict(log: Log, lead: Log, prev: nat, entries: seq<Entry>, m: nat)
    requires prev <= |log| && m <= |lead| && lead[..m] <= log
    requires prev + |entries| <= |lead| && entries == lead[prev..prev + |entries|]
    ensures Matching(log, prev, entries) < |entries| ==> m <= prev + Matching(log, prev, entries)
  {
  }

  ghost predicate SliceOf(lead: Log, prev: nat, entries: seq<Entry>) {
    prev + |entries| <= |lead| && entries == lead[prev..prev + |entries|]
  }

  /** A log whose term just before the slice is the leader's agrees with the leader's log
      up to the first batch entry it misses. */
  lemma AgreesUpToConflict(log: Log, lead: Log, prev: nat, entries: seq<Entry>, llog: map<nat, Log>)
    requires Backed(log, llog) && Backed(lead, llog)
    requires SliceOf(lead, prev, entries)
    requires prev == 0 || (prev <= |log| && log[prev - 1].term == lead[prev - 1].term)
    ensures prev <= |log|
    ensures var cut := prev + Matching(log, prev, entries); cut <= |log| && log[..cut] == lead[..cut]
  {
    var k := Matching(log, prev, entries);
    if k > 0 {
      assert log[prev + (k - 1)].term == entries[k - 1].term;
      BackedMatch(log, lead, prev + k - 1, llog);
    } else if prev > 0 {
      BackedMatch(log, lead, prev - 1, llog);
    }
  }

  lemma SpliceOfSlice(lead: Log, prev: nat, entries: seq<Entry>, k: nat)
    requires SliceOf(lead, prev, entries) && k <= |entries|
    ensures lead[..prev + k] + entries[k..] == lead[..prev + |entries|]
  {
  }

  /** Laying a slice of `lead` over a log that agrees with it just before the slice yields the old log or
      the slice's whole prefix of `lead`; either way the result starts with that prefix. */
  lemma OverlayOfLeader(log: Log, lead: Log, prev: nat, entries: seq<Entry>, llog: map<nat, Log>)
    requires Backed(log, llog) && Backed(lead, llog) && |lead| <= LOG_CAPACITY
    requires SliceOf(lead, prev, entries)
    requires prev == 0 || (prev <= |log| && log[prev - 1].term == lead[prev - 1].term)
    ensures prev <= |log|
    ensures lead[..prev + |entries|] <= Overlay(log, prev, entries)
    ensures Overlay(log, prev, entries) == log || Overlay(log, prev, entries) == lead[..prev + |entries|]
  {
    AgreesUpToConflict(log, lead, prev, entries, llog);
    var k := Matching(log, prev, entries);
    SpliceOfSlice(lead, prev, entries, k);
    if k == |entries| {
      assert lead[..prev + k] <= log;
    }
  }

  /** Nothing of `lead` that the log already held is lost by the overlay. */
  lemma OverlayKeeps(log: Log, lead: Log, prev: nat, entries: seq<Entry>, m: nat, llog: map<nat, Log>)
    requires Backed(log, llog) && Backed(lead, llog) && |lead| <= LOG_CAPACITY
    requires SliceOf(lead, prev, entries)
    requires prev == 0 || (prev <= |log| && log[prev - 1].term == lead[prev - 1].term)
    requires m <= |lead| && lead[..m] <= log
    ensures prev <= |log| && lead[..m] <= Overlay(log, prev, entries)
  {
    OverlayOfLeader(log, lead, prev, entries, llog);
    HeldStopsAtConflict(log, lead, prev, entries, m);
    if Overlay(log, prev, entries) != log {
      assert lead[..m] <= lead[..prev + |entries|];
    }
  }

  // ---------- sets of nodes ----------

  lemma SubsetSize<T>(a: set<T>, b: set<T>)
    requires a <= b
    ensures |a| <= |b|
  {
    assert b == a + (b - a);
  }

  lemma Another(all: set<NodeId>, used: set<NodeId>) returns (x: NodeId)
    requires |used| < |all|
    ensures x in all && x !in used
  {
    if all <= used {
      SubsetSize(all, used);
    }
    x :| x in all && x !in used;
  }

  /** Two strict majorities share a member. */
  lemma MajoritiesMeet(a: set<NodeId>, b: set<NodeId>, all: set<NodeId>) returns (x: NodeId)
    requires a <= all && b <= all
    requires 2 * |a| > |all| && 2 * |b| > |all|
    ensures x in a && x in b
  {
    SubsetSize(a + b, all);
    assert |a + b| + |a * b| == |a| + |b|;
    x :| x in a * b;
  }

  /** The peers at some positions of a peer list. */
  function PeersAt(peers: seq<NodeId>, positions: set<nat>): set<NodeId>
    requires forall i :: i in positions ==> i < |peers|
  {
    set i | i in positions :: peers[i]
  }

  lemma {:induction false} PeersAtSize(peers: seq<NodeId>, positions: set<nat>)
    requires forall i :: i in positions ==> i < |peers|
    requires forall i, j :: i in positions && j in positions && i < j ==> peers[i] != peers[j]
    ensures |PeersAt(peers, positions)| == |positions|
  {
    if positions != {} {
      var i :| i in positions;
      var rest := positions - {i};
      PeersAtSize(peers, rest);
      assert PeersAt(peers, positions) == PeersAt(peers, rest) + {peers[i]};
      assert peers[i] !in PeersAt(peers, rest);
    }
  }
}
