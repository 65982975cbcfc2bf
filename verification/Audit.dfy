/** The append-only, hash-chained audit log. The hash is a parameter: nothing is assumed about it. */
module Audit {
  import opened Types
  import opened Wire

  type Digest = s: seq<byte> | |s| == 32 witness Zeros(32)

  type Hash = seq<byte> -> Digest

  const ZERO: Digest := Zeros(32)
  const UNTIMED: u64 := 0

  datatype Kind = CapabilityCheck | CapabilityRevoked | ResourceDeduction | TopologyTraverse
                | TopologyChange | HiringDecision | PolicyGateCheck
  {
    function Code(): byte {
      match this
      case CapabilityCheck => 0
      case CapabilityRevoked => 1
      case ResourceDeduction => 2
      case TopologyTraverse => 3
      case TopologyChange => 4
      case HiringDecision => 5
      case PolicyGateCheck => 6
    }
  }

  datatype Verdict = Permitted | Denied

  datatype Event = Event(
    kind: Kind,
    actor: u32,
    seqNo: u64,
    timestamp: u64,
    verdict: Verdict,
    denialClass: Option<DenialClass>,
    denialReason: Option<string>,
    hash: Digest)

  type Denial = Option<(DenialClass, string)>

  /** What a caller asks the log to record. */
  datatype Request = Request(kind: Kind, actor: u32, timestamp: u64, denial: Denial)

  /** How a gate's decision is recorded. */
  function DenialOf<T>(r: Result<T>): Denial {
    match r
    case Ok(_) => None
    case Err(e) => Some((e.Class(), e.Reason()))
  }

  // ---------- the hashed bytes ----------

  function ClassCode(c: Option<DenialClass>): byte {
    match c
    case None => 0
    case Some(Halt) => 1
    case Some(Failure) => 2
  }

  function ReasonBytes(reason: Option<string>): seq<byte> {
    match reason
    case None => []
    case Some(text) => Utf8(text)
  }

  /** The part of the hashed bytes between the previous hash and the reason: 23 bytes. */
  function Middle(e: Event): seq<byte> {
    [e.kind.Code()] + LittleEndian(e.actor, 4) + LittleEndian(e.seqNo, 8) + LittleEndian(e.timestamp, 8)
    + [if e.verdict.Permitted? then 0 else 1] + [ClassCode(e.denialClass)]
  }

  /** The bytes that are hashed for event `e` after an event with hash `prev`. */
  function Preimage(prev: Digest, e: Event): seq<byte> {
    prev + Middle(e) + ReasonBytes(e.denialReason)
  }

  // ---------- the chain ----------

  function PrevHash(events: seq<Event>, i: nat): Digest
    requires i <= |events|
  {
    if i == 0 then ZERO else events[i - 1].hash
  }

  function Head(events: seq<Event>): Digest {
    PrevHash(events, |events|)
  }

  function PreimageAt(events: seq<Event>, i: nat): seq<byte>
    requires i < |events|
  {
    Preimage(PrevHash(events, i), events[i])
  }

  /** Every stored hash is the hash of the bytes it should cover. */
  ghost predicate Chain(h: Hash, events: seq<Event>) {
    forall i {:trigger PreimageAt(events, i)} :: 0 <= i < |events| ==> h(PreimageAt(events, i)) == events[i].hash
  }

  // ---------- appending, on values ----------

  function NewEvent(h: Hash, prev: Digest, seqNo: u64, r: Request): Event {
    var blank := Event(r.kind, r.actor, seqNo, r.timestamp,
                       if r.denial.Some? then Denied else Permitted,
                       if r.denial.Some? then Some(r.denial.value.0) else None,
                       if r.denial.Some? then Some(r.denial.value.1) else None,
                       ZERO);
    blank.(hash := h(Preimage(prev, blank)))
  }

  function Appended(h: Hash, events: seq<Event>, r: Request): seq<Event> {
    if |events| >= MAX_AUDIT_EVENTS then events
    else events + [NewEvent(h, Head(events), |events|, r)]
  }

  /** The log after the given requests, starting from the empty log. */
  function Recorded(h: Hash, requests: seq<Request>): seq<Event> {
    if |requests| == 0 then []
    else Appended(h, Recorded(h, requests[..|requests| - 1]), requests[|requests| - 1])
  }

  /** Event `e` is numbered `i` and its denial fields are all present or all absent. */
  predicate WellFormed(e: Event, i: nat) {
    && e.seqNo == i
    && (e.verdict.Denied? <==> e.denialClass.Some?)
    && (e.denialClass.Some? <==> e.denialReason.Some?)
  }

  /** What `append` maintains. */
  ghost predicate Intact(h: Hash, events: seq<Event>) {
    && |events| <= MAX_AUDIT_EVENTS
    && Chain(h, events)
    && forall i :: 0 <= i < |events| ==> WellFormed(events[i], i)
  }

  lemma AppendKeepsIntact(h: Hash, events: seq<Event>, r: Request)
    requires Intact(h, events)
    ensures Intact(h, Appended(h, events, r))
  {
    var after := Appended(h, events, r);
    if |events| < MAX_AUDIT_EVENTS {
      forall i | 0 <= i < |after|
        ensures h(PreimageAt(after, i)) == after[i].hash && WellFormed(after[i], i)
      {
        if i < |events| {
          assert PreimageAt(after, i) == PreimageAt(events, i);
        } else {
          assert Middle(after[i]) == Middle(after[i].(hash := ZERO));
        }
      }
    }
  }

  /** `verify_chain` accepts every log that appends alone produced. */
  lemma {:induction false} RecordedIsIntact(h: Hash, requests: seq<Request>)
    ensures Intact(h, Recorded(h, requests))
  {
    if |requests| > 0 {
      RecordedIsIntact(h, requests[..|requests| - 1]);
      AppendKeepsIntact(h, Recorded(h, requests[..|requests| - 1]), requests[|requests| - 1]);
    }
  }

  function StoredDenial(e: Event): Denial {
    if e.denialClass.Some? && e.denialReason.Some? then Some((e.denialClass.value, e.denialReason.value)) else None
  }

  function AsRequest(e: Event): Request {
    Request(e.kind, e.actor, e.timestamp, StoredDenial(e))
  }

  /** What a reader of the event sees: who did what, at no particular time, and whether and why it was denied. */
  predicate Says(e: Event, kind: Kind, actor: u32, denial: Denial) {
    && e.kind == kind && e.actor == actor && e.timestamp == 0
    && e.verdict == (if denial.None? then Permitted else Denied)
    && e.denialClass == (if denial.None? then None else Some(denial.value.0))
    && e.denialReason == (if denial.None? then None else Some(denial.value.1))
  }

  /** An append to a log of fewer than 512 events adds one event, which says what was asked, and keeps the others. */
  lemma AppendSays(h: Hash, log: seq<Event>, kind: Kind, actor: u32, denial: Denial)
    ensures var after := Appended(h, log, Request(kind, actor, UNTIMED, denial));
      if |log| < 512
      then |after| == |log| + 1 && log <= after && Says(after[|log|], kind, actor, denial)
      else after == log
  {
  }

  /** The log holds exactly the first 512 requests, in order; nothing is overwritten. */
  lemma {:induction false} RecordedInOrder(h: Hash, requests: seq<Request>)
    ensures var log := Recorded(h, requests);
      && |log| == (if |requests| <= MAX_AUDIT_EVENTS then |requests| else MAX_AUDIT_EVENTS)
      && forall i :: 0 <= i < |log| ==> AsRequest(log[i]) == requests[i]
  {
    if |requests| > 0 {
      RecordedInOrder(h, requests[..|requests| - 1]);
    }
  }

  // ---------- the log object ----------

  class AuditLog {
    const h: Hash
    var events: seq<Event>
    var lastHash: Digest
    var nextSeq: u64

    ghost predicate Valid()
      reads this
    {
      && Intact(h, events)
      && lastHash == Head(events)
      && nextSeq == |events|
    }

    constructor (h: Hash)
      ensures Valid() && events == [] && this.h == h
    {
      this.h := h;
      events := [];
      lastHash := ZERO;
      nextSeq := 0;
    }

    method Append(kind: Kind, actor: u32, timestamp: u64, denial: Denial) returns (ok: bool)
      requires Valid()
      modifies this
      ensures Valid()
      ensures ok <==> old(|events|) < MAX_AUDIT_EVENTS
      ensures events == Appended(h, old(events), Request(kind, actor, timestamp, denial))
    {
      var verdict := if denial.Some? then Denied else Permitted;
      var denialClass, denialReason := None, None;
      if denial.Some? {
        denialClass, denialReason := Some(denial.value.0), Some(denial.value.1);
      }
      var event := Event(kind, actor, nextSeq, timestamp, verdict, denialClass, denialReason, ZERO);
      var hash := h(Preimage(lastHash, event));
      ghost var r := Request(kind, actor, timestamp, denial);
      AppendKeepsIntact(h, events, r);
      if |events| < MAX_AUDIT_EVENTS {
        assert event.(hash := hash) == NewEvent(h, Head(events), |events|, r);
        events := events + [event.(hash := hash)];
        lastHash := hash;
        nextSeq := SaturatingAdd(nextSeq, 1);
        ok := true;
      } else {
        ok := false;
      }
    }

    /** True if and only if every stored hash is right, whatever the stored events are. */
    method VerifyChain() returns (ok: bool)
      ensures ok <==> Chain(h, events)
    {
      var prev := ZERO;
      for i := 0 to |events|
        invariant prev == PrevHash(events, i)
        invariant forall k {:trigger PreimageAt(events, k)} :: 0 <= k < i ==> h(PreimageAt(events, k)) == events[k].hash
      {
        var event := events[i];
        var expected := h(Preimage(prev, event));
        if expected != event.hash {
          assert PreimageAt(events, i) == Preimage(prev, event);
          return false;
        }
        prev := event.hash;
      }
      return true;
    }

    method IsFull() returns (full: bool)
      ensures full <==> |events| >= MAX_AUDIT_EVENTS
    {
      full := |events| >= MAX_AUDIT_EVENTS;
    }

    method HeadHash() returns (head: Digest)
      requires Valid()
      ensures head == Head(events)
    {
      head := lastHash;
    }
  }
}
