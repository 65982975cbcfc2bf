/** What the head hash and `verify_chain` guarantee about a whole log, for an arbitrary hash function:
    two logs that should be told apart and are not give two byte strings, among those the logs themselves
    hashed, with the same hash. */
module AuditBinding {
  import opened Wire
  import opened Audit

  // ---------- the hashed bytes determine the event ----------

  /** Equal in everything that is hashed. An absent reason and an empty one hash alike. */
  predicate SameRecord(e: Event, f: Event) {
    && e.kind == f.kind && e.actor == f.actor && e.seqNo == f.seqNo && e.timestamp == f.timestamp
    && e.verdict == f.verdict && e.denialClass == f.denialClass
    && ReasonBytes(e.denialReason) == ReasonBytes(f.denialReason)
  }

  lemma LittleEndianInjective(m: nat, n: nat, width: nat)
    requires m < Pow256(width) && n < Pow256(width) && LittleEndian(m, width) == LittleEndian(n, width)
    ensures m == n
  {
    LittleEndianRoundTrip(m, width);
    LittleEndianRoundTrip(n, width);
  }

  lemma MiddleSplits(e: Event)
    ensures var s := Middle(e);
      && |s| == 23 && s[0] == e.kind.Code()
      && s[1..5] == LittleEndian(e.actor, 4) && s[5..13] == LittleEndian(e.seqNo, 8)
      && s[13..21] == LittleEndian(e.timestamp, 8)
      && s[21] == (if e.verdict.Permitted? then 0 else 1) && s[22] == ClassCode(e.denialClass)
  {
  }

  lemma MiddleInjective(e: Event, f: Event)
    requires Middle(e) == Middle(f)
    ensures e.kind == f.kind && e.actor == f.actor && e.seqNo == f.seqNo && e.timestamp == f.timestamp
    ensures e.verdict == f.verdict && e.denialClass == f.denialClass
  {
    MiddleSplits(e);
    MiddleSplits(f);
    Widths();
    LittleEndianInjective(e.actor, f.actor, 4);
    LittleEndianInjective(e.seqNo, f.seqNo, 8);
    LittleEndianInjective(e.timestamp, f.timestamp, 8);
  }

  lemma PreimageSplits(prev: Digest, e: Event)
    ensures var s := Preimage(prev, e);
      |s| >= 55 && s[..32] == prev && s[32..55] == Middle(e) && s[55..] == ReasonBytes(e.denialReason)
  {
    MiddleSplits(e);
  }

  /** Where each field stands in the hashed bytes, and how: numbers with the lowest byte first. */
  lemma PreimageLayout(prev: Digest, e: Event)
    ensures var s := Preimage(prev, e);
      && |s| >= 55 && s[..32] == prev && s[55..] == ReasonBytes(e.denialReason)
      && s[32] == (match e.kind
                   case CapabilityCheck => 0 case CapabilityRevoked => 1 case ResourceDeduction => 2
                   case TopologyTraverse => 3 case TopologyChange => 4 case HiringDecision => 5
                   case PolicyGateCheck => 6)
      && s[33..37] == [e.actor % 256, e.actor / 0x100 % 256, e.actor / 0x1_0000 % 256, e.actor / 0x100_0000 % 256]
      && s[37..45] == LittleEndian(e.seqNo, 8) && s[45..53] == LittleEndian(e.timestamp, 8)
      && s[53] == (if e.verdict.Permitted? then 0 else 1)
      && s[54] == (match e.denialClass case None => 0 case Some(Halt) => 1 case Some(Failure) => 2)
  {
    var s, m := Preimage(prev, e), Middle(e);
    PreimageSplits(prev, e);
    MiddleSplits(e);
    FourBytes(e.actor);
    assert s[32..55][1..5] == s[33..37] && s[32..55][5..13] == s[37..45] && s[32..55][13..21] == s[45..53];
    assert s[32] == m[0] && s[53] == m[21] && s[54] == m[22];
  }

  /** The hashed bytes coincide exactly when the previous hashes do and the events record the same. */
  lemma PreimageInjective(p: Digest, e: Event, q: Digest, f: Event)
    ensures Preimage(p, e) == Preimage(q, f) <==> p == q && SameRecord(e, f)
  {
    PreimageSplits(p, e);
    PreimageSplits(q, f);
    if Preimage(p, e) == Preimage(q, f) {
      MiddleInjective(e, f);
    }
  }

  /** For events as `append` makes them, recording the same means being equal up to the stored hash. */
  lemma WellFormedRecord(e: Event, f: Event, i: nat, j: nat)
    requires WellFormed(e, i) && WellFormed(f, j) && SameRecord(e, f)
    ensures e.(hash := f.hash) == f
  {
    if e.denialReason.Some? && f.denialReason.Some? {
      Utf8Injective(e.denialReason.value, f.denialReason.value);
    }
  }

  // ---------- the head binds the log ----------

  /** The outcome of comparing two verified logs with the same head. */
  datatype Finding =
    | Same
    | Collision(i: nat, j: nat)
    | ZeroLeft(i: nat)
    | ZeroRight(j: nat)

  predicate SameRecords(xs: seq<Event>, ys: seq<Event>) {
    |xs| == |ys| && forall i :: 0 <= i < |xs| ==> SameRecord(xs[i], ys[i]) && xs[i].hash == ys[i].hash
  }

  /** The finding is true of the two logs: the two colliding strings, or the one that hashes to zero, are
      bytes that these logs hash. */
  ghost predicate Holds(h: Hash, xs: seq<Event>, ys: seq<Event>, f: Finding) {
    match f
    case Same => SameRecords(xs, ys)
    case Collision(i, j) =>
      i < |xs| && j < |ys| && PreimageAt(xs, i) != PreimageAt(ys, j) && h(PreimageAt(xs, i)) == h(PreimageAt(ys, j))
    case ZeroLeft(i) => i < |xs| && h(PreimageAt(xs, i)) == ZERO
    case ZeroRight(j) => j < |ys| && h(PreimageAt(ys, j)) == ZERO
  }

  lemma PreimagePrefix(xs: seq<Event>, k: nat, i: nat)
    requires i < k <= |xs|
    ensures PreimageAt(xs[..k], i) == PreimageAt(xs, i)
  {
    assert PrevHash(xs[..k], i) == PrevHash(xs, i);
  }

  lemma ChainPrefix(h: Hash, xs: seq<Event>, k: nat)
    requires Chain(h, xs) && k <= |xs|
    ensures Chain(h, xs[..k]) && Head(xs[..k]) == PrevHash(xs, k)
  {
    forall i | 0 <= i < k
      ensures h(PreimageAt(xs[..k], i)) == xs[..k][i].hash
    {
      PreimagePrefix(xs, k, i);
    }
  }

  lemma PreimageAtInjective(xs: seq<Event>, m: nat, ys: seq<Event>, n: nat)
    requires m < |xs| && n < |ys| && PreimageAt(xs, m) == PreimageAt(ys, n)
    ensures PrevHash(xs, m) == PrevHash(ys, n) && SameRecord(xs[m], ys[n])
  {
    PreimageInjective(PrevHash(xs, m), xs[m], PrevHash(ys, n), ys[n]);
  }

  /** Two logs that verify and have the same head record the same events, or exhibit a collision of the hash
      or a preimage of the zero hash among the byte strings they hashed. */
  lemma {:induction false} HeadBindsLog(h: Hash, xs: seq<Event>, ys: seq<Event>) returns (f: Finding)
    requires Chain(h, xs) && Chain(h, ys) && Head(xs) == Head(ys)
    ensures Holds(h, xs, ys, f)
    decreases |xs|
  {
    var m, n := |xs| - 1, |ys| - 1;
    if |xs| == 0 && |ys| == 0 {
      f := Same;
    } else if |xs| == 0 {
      f := ZeroRight(n);
    } else if |ys| == 0 {
      f := ZeroLeft(m);
    } else if PreimageAt(xs, m) != PreimageAt(ys, n) {
      f := Collision(m, n);
    } else {
      PreimageAtInjective(xs, m, ys, n);
      ChainPrefix(h, xs, m);
      ChainPrefix(h, ys, n);
      f := HeadBindsLog(h, xs[..m], ys[..n]);
      Extends(h, xs, ys, f);
    }
  }

  lemma Extends(h: Hash, xs: seq<Event>, ys: seq<Event>, f: Finding)
    requires |xs| > 0 && |ys| > 0 && Holds(h, xs[..|xs| - 1], ys[..|ys| - 1], f)
    requires SameRecord(xs[|xs| - 1], ys[|ys| - 1]) && xs[|xs| - 1].hash == ys[|ys| - 1].hash
    ensures Holds(h, xs, ys, f)
  {
    if f.Same? {
      SameExtends(xs, ys);
    } else {
      FindingExtends(h, xs, ys, |xs| - 1, |ys| - 1, f);
    }
  }

  lemma SameExtends(xs: seq<Event>, ys: seq<Event>)
    requires |xs| > 0 && |ys| > 0 && SameRecords(xs[..|xs| - 1], ys[..|ys| - 1])
    requires SameRecord(xs[|xs| - 1], ys[|ys| - 1]) && xs[|xs| - 1].hash == ys[|ys| - 1].hash
    ensures SameRecords(xs, ys)
  {
    forall i | 0 <= i < |xs|
      ensures SameRecord(xs[i], ys[i]) && xs[i].hash == ys[i].hash
    {
      assert i < |xs| - 1 ==> xs[i] == xs[..|xs| - 1][i] && ys[i] == ys[..|ys| - 1][i];
    }
  }

  /** A finding about two prefixes is one about the logs, when it is not that they are the same. */
  lemma FindingExtends(h: Hash, xs: seq<Event>, ys: seq<Event>, m: nat, n: nat, f: Finding)
    requires m <= |xs| && n <= |ys| && !f.Same? && Holds(h, xs[..m], ys[..n], f)
    ensures Holds(h, xs, ys, f)
  {
    match f
    case Collision(i, j) =>
      PreimagePrefix(xs, m, i);
      PreimagePrefix(ys, n, j);
    case ZeroLeft(i) => PreimagePrefix(xs, m, i);
    case ZeroRight(j) => PreimagePrefix(ys, n, j);
  }

  lemma SameIntactLogs(h: Hash, xs: seq<Event>, ys: seq<Event>)
    requires Intact(h, xs) && Intact(h, ys) && SameRecords(xs, ys)
    ensures xs == ys
  {
    forall i | 0 <= i < |xs|
      ensures xs[i] == ys[i]
    {
      WellFormedRecord(xs[i], ys[i], i, i);
    }
  }

  /** For logs built by `append` the conclusion is equality, event for event. */
  lemma HeadBindsAppends(h: Hash, rs: seq<Request>, qs: seq<Request>) returns (f: Finding)
    requires Head(Recorded(h, rs)) == Head(Recorded(h, qs))
    ensures Holds(h, Recorded(h, rs), Recorded(h, qs), f)
    ensures f.Same? ==> Recorded(h, rs) == Recorded(h, qs)
  {
    var xs, ys := Recorded(h, rs), Recorded(h, qs);
    RecordedIsIntact(h, rs);
    RecordedIsIntact(h, qs);
    f := HeadBindsLog(h, xs, ys);
    if f.Same? {
      SameIntactLogs(h, xs, ys);
    }
  }

  // ---------- what verify_chain alone detects ----------

  /** One event of a verified log is replaced and the log still verifies. Unless the replacement records the
      same with the same hash, or the last event was replaced together with its hash, the hash collides on
      the bytes of the replaced event or of its successor. */
  lemma OneChangeIsDetected(h: Hash, xs: seq<Event>, k: nat, e: Event) returns (i: nat)
    requires Chain(h, xs) && k < |xs| && Chain(h, xs[k := e])
    requires !(SameRecord(e, xs[k]) && e.hash == xs[k].hash)
    requires k < |xs| - 1 || e.hash == xs[k].hash || SameRecord(e, xs[k])
    ensures i < |xs| && Holds(h, xs, xs[k := e], Collision(i, i))
  {
    var ys := xs[k := e];
    assert PrevHash(ys, k) == PrevHash(xs, k);
    assert PreimageAt(ys, k) == Preimage(PrevHash(xs, k), e);
    PreimageInjective(PrevHash(xs, k), xs[k], PrevHash(xs, k), e);
    assert h(PreimageAt(xs, k)) == xs[k].hash && h(PreimageAt(ys, k)) == e.hash;
    if e.hash == xs[k].hash {
      i := k;
    } else {
      i := k + 1;
      PreimageInjective(xs[k].hash, xs[k + 1], e.hash, xs[k + 1]);
      assert PreimageAt(ys, k + 1) == Preimage(e.hash, xs[k + 1]);
    }
  }

  /** The exception is real for every log and every hash: the last event can be replaced by any other record,
      with its hash recomputed, and the log verifies. Only a copy of the head hash kept elsewhere tells. */
  lemma LastEventIsReplaceable(h: Hash, xs: seq<Event>, e: Event)
    requires Chain(h, xs) && |xs| > 0
    ensures var k := |xs| - 1; Chain(h, xs[k := e.(hash := h(Preimage(PrevHash(xs, k), e)))])
  {
    var k := |xs| - 1;
    var e' := e.(hash := h(Preimage(PrevHash(xs, k), e)));
    var ys := xs[k := e'];
    forall i | 0 <= i < |ys|
      ensures h(PreimageAt(ys, i)) == ys[i].hash
    {
      assert PrevHash(ys, i) == PrevHash(xs, i);
      if i == k {
        PreimageInjective(PrevHash(xs, k), e, PrevHash(xs, k), e');
      } else {
        assert PreimageAt(ys, i) == PreimageAt(xs, i);
      }
    }
  }
}
