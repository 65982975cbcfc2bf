/** What laying a batch over a log does, for any log and any batch. */
module RaftOverlay {
  import opened RaftSpec

  /** The first `k` batch entries are in the log, by term. */
  ghost predicate Holds(log: Log, prev: nat, entries: seq<Entry>, k: nat) {
    k <= |entries| && forall j :: 0 <= j < k ==> prev + j < |log| && log[prev + j].term == entries[j].term
  }

  /** Batch entry `k` is missing from the log or conflicts with it. */
  ghost predicate Breaks(log: Log, prev: nat, entries: seq<Entry>, k: nat) {
    k < |entries| && (prev + k >= |log| || log[prev + k].term != entries[k].term)
  }

  /** The number of matching entries is determined by where the first mismatch is. */
  lemma MatchingIs(log: Log, prev: nat, entries: seq<Entry>, k: nat)
    requires Holds(log, prev, entries, k) && (k == |entries| || Breaks(log, prev, entries, k))
    ensures Matching(log, prev, entries) == k
  {
  }

  /** One turn of the follower's loop: drop the log from a conflicting entry on, then append if there is a gap. */
  function Lay(log: Log, index: nat, entry: Entry): Log {
    var kept := if TermAt(log, index).Some? && TermAt(log, index).value != entry.term
                then TruncateFrom(log, index) else log;
    if TermAt(kept, index).None? && |kept| < LOG_CAPACITY then kept + [entry] else kept
  }

  /** An entry right behind everything laid so far. */
  lemma LayBehind(long: Log, entry: Entry)
    ensures Lay(Capped(long), |long| + 1, entry) == Capped(long + [entry])
  {
    if |long| > LOG_CAPACITY {
      assert (long + [entry])[..LOG_CAPACITY] == long[..LOG_CAPACITY];
    }
  }

  lemma LayAfterCut(log: Log, prev: nat, entries: seq<Entry>, i: nat)
    requires prev <= |log| <= LOG_CAPACITY && i < |entries| && Matching(log, prev, entries[..i]) < i
    ensures Lay(Overlay(log, prev, entries[..i]), prev + i + 1, entries[i]) == Overlay(log, prev, entries[..i + 1])
  {
    var k := Matching(log, prev, entries[..i]);
    MatchingIs(log, prev, entries[..i + 1], k);
    var long := log[..prev + k] + entries[..i][k..];
    assert log[..prev + k] + entries[..i + 1][k..] == long + [entries[i]];
    LayBehind(long, entries[i]);
  }

  /** An entry that is missing or conflicts right behind `end` entries that stay. */
  lemma LayFirstNew(log: Log, end: nat, entry: Entry)
    requires end <= |log| <= LOG_CAPACITY && (end < |log| ==> log[end].term != entry.term)
    ensures Lay(log, end + 1, entry) == Capped(log[..end] + [entry])
  {
    if end == |log| {
      assert log[..end] == log;
    }
  }

  lemma LayOnMatch(log: Log, prev: nat, entries: seq<Entry>, i: nat)
    requires prev <= |log| <= LOG_CAPACITY && i < |entries| && Matching(log, prev, entries[..i]) == i
    ensures Lay(Overlay(log, prev, entries[..i]), prev + i + 1, entries[i]) == Overlay(log, prev, entries[..i + 1])
  {
    assert Overlay(log, prev, entries[..i]) == log;
    if prev + i < |log| && log[prev + i].term == entries[i].term {
      MatchingIs(log, prev, entries[..i + 1], i + 1);
    } else {
      MatchingIs(log, prev, entries[..i + 1], i);
      assert entries[..i + 1][i..] == [entries[i]];
      LayFirstNew(log, prev + i, entries[i]);
    }
  }

  /** The loop, turn by turn, computes the overlay. */
  lemma LayExtendsOverlay(log: Log, prev: nat, entries: seq<Entry>, i: nat)
    requires prev <= |log| <= LOG_CAPACITY && i < |entries|
    ensures Lay(Overlay(log, prev, entries[..i]), prev + i + 1, entries[i]) == Overlay(log, prev, entries[..i + 1])
  {
    if Matching(log, prev, entries[..i]) < i {
      LayAfterCut(log, prev, entries, i);
    } else {
      LayOnMatch(log, prev, entries, i);
    }
  }

  /** The log after a batch was laid at any position; past the end of the log the batch just continues it. */
  function Laid(log: Log, prev: nat, entries: seq<Entry>): Log {
    if prev <= |log| then Overlay(log, prev, entries) else Capped(log + entries)
  }

  lemma LayBeyond(log: Log, prev: nat, entries: seq<Entry>, i: nat)
    requires |log| < prev && |log| <= LOG_CAPACITY && i < |entries|
    ensures Lay(Capped(log + entries[..i]), prev + i + 1, entries[i]) == Capped(log + entries[..i + 1])
  {
    assert log + entries[..i + 1] == (log + entries[..i]) + [entries[i]];
  }

  lemma LayExtendsLaid(log: Log, prev: nat, entries: seq<Entry>, i: nat)
    requires |log| <= LOG_CAPACITY && i < |entries|
    ensures Lay(Laid(log, prev, entries[..i]), prev + i + 1, entries[i]) == Laid(log, prev, entries[..i + 1])
  {
    if prev <= |log| {
      LayExtendsOverlay(log, prev, entries, i);
    } else {
      LayBeyond(log, prev, entries, i);
    }
  }

  /** When the log holds every entry of the batch, by term, the overlay changes nothing. */
  lemma OverlayUnchanged(log: Log, prev: nat, entries: seq<Entry>)
    requires prev <= |log| && Holds(log, prev, entries, |entries|)
    ensures Overlay(log, prev, entries) == log
  {
    MatchingIs(log, prev, entries, |entries|);
  }

  /** Otherwise the log is cut at the first entry that is missing or conflicts, and the rest of the batch
      follows, as far as it fits. */
  lemma OverlayCuts(log: Log, prev: nat, entries: seq<Entry>, k: nat)
    requires prev <= |log| && Holds(log, prev, entries, k) && Breaks(log, prev, entries, k)
    ensures prev + k <= |log| && Overlay(log, prev, entries) == Capped(log[..prev + k] + entries[k..])
  {
    MatchingIs(log, prev, entries, k);
  }

  /** Delivering the same batch again changes nothing. */
  lemma OverlayTwice(log: Log, prev: nat, entries: seq<Entry>)
    requires prev <= |log| <= LOG_CAPACITY
    ensures prev <= |Overlay(log, prev, entries)|
    ensures Overlay(Overlay(log, prev, entries), prev, entries) == Overlay(log, prev, entries)
  {
    var k := Matching(log, prev, entries);
    if k < |entries| {
      var once := Overlay(log, prev, entries);
      var end := if prev + |entries| <= LOG_CAPACITY then |entries| else LOG_CAPACITY - prev;
      var long := log[..prev + k] + entries[k..];
      forall j | 0 <= j < end
        ensures once[prev + j].term == entries[j].term
      {
        assert once[prev + j] == long[prev + j];
      }
      MatchingIs(once, prev, entries, end);
      if end < |entries| {
        assert once[..prev + end] == once;
        assert Capped(once + entries[end..]) == once;
      }
    }
  }
}
