/** The ledger seen from one reservation: its life as an automaton of its own, and every answer about it. */
module ReservationLife {
  import opened Types
  import opened Capability
  import opened ReservationSpec

  // ---------- one reservation ----------

  /** The last moment at which the reservation counts, saturated at the largest time. */
  function Deadline(r: Reservation): nat {
    if r.createdAt + r.ttl <= 0xFFFF_FFFF_FFFF_FFFF then r.createdAt + r.ttl else 0xFFFF_FFFF_FFFF_FFFF
  }

  /** What a call does to one reservation, whatever else the ledger holds; `None` once the ledger was cleared. */
  function Lives(r: Option<Reservation>, call: Call): Option<Reservation> {
    if r.None? || call.DoClear? then None
    else if !r.value.status.Active? then r
    else
      match call
      case DoRevoke(id) => if id == r.value.id then Some(r.value.(status := Revoked)) else r
      case DoCascade(nonce) => if nonce == r.value.originNonce then Some(r.value.(status := Revoked)) else r
      case DoConsume(id, now) =>
        if id == r.value.id && now < Deadline(r.value) then Some(r.value.(status := Consumed)) else r
      case _ => r
  }

  /** The reservation that a call asks for. */
  function Asked(id: u64, call: Call): Reservation
    requires call.DoReserve?
  {
    Reservation(id, call.node, call.action, call.generation, call.nonce, call.now, call.ttl, Active)
  }

  /** The life of the reservation that call `k` opens, up to moment `j`. */
  function Life(calls: seq<Call>, k: nat, j: nat, id: u64): Option<Reservation>
    requires k < j <= |calls| && calls[k].DoReserve?
    decreases j
  {
    if j == k + 1 then Some(Asked(id, calls[k])) else Lives(Life(calls, k, j - 1, id), calls[j - 1])
  }

  // ---------- the ledger does the same ----------

  lemma StatusLookup(s: Store, at: u64, status: Status, id: u64)
    requires Find(s.records, at).Some?
    ensures Lookup(WithStatus(s, Find(s.records, at).value, status), id)
      == if id == at then Some(s.records[Find(s.records, at).value].(status := status)) else Lookup(s, id)
  {
    var i := Find(s.records, at).value;
    var s' := WithStatus(s, i, status);
    SameIdsSameFind(s.records, s'.records, id);
  }

  lemma SameIdsSameFind(a: seq<Reservation>, b: seq<Reservation>, id: u64)
    requires |a| == |b| && forall i :: 0 <= i < |a| ==> a[i].id == b[i].id
    ensures Find(a, id) == Find(b, id)
  {
    var i, j := Find(a, id), Find(b, id);
    if i.Some? && j.Some? {
      assert !(i.value < j.value) && !(j.value < i.value);
    }
  }

  lemma NewLookup(s: Store, r: Reservation, nextId: u64)
    requires Lookup(s, r.id).None?
    ensures Lookup(Store(s.records + [r], nextId), r.id) == Some(r)
  {
    var longer := s.records + [r];
    var i := Find(longer, r.id);
    assert longer[|s.records|] == r;
  }

  lemma CascadeLives(s: Store, nonce: u64, id: u64)
    ensures Lookup(Cascade(s, nonce), id) == Lives(Lookup(s, id), DoCascade(nonce))
  {
    SameIdsSameFind(s.records, Cascade(s, nonce).records, id);
  }

  lemma RevokeLives(s: Store, at: u64, id: u64)
    ensures Lookup(Revoke(s, at).0, id) == Lives(Lookup(s, id), DoRevoke(at))
  {
    if Find(s.records, at).Some? {
      StatusLookup(s, at, Revoked, id);
    }
  }

  lemma ConsumeLives(s: Store, at: u64, now: u64, id: u64)
    ensures Lookup(Consume(s, at, now).0, id) == Lives(Lookup(s, id), DoConsume(at, now))
  {
    if Find(s.records, at).Some? {
      StatusLookup(s, at, Consumed, id);
    }
  }

  lemma NextLives(s: Store, call: Call, id: u64)
    requires !(call.DoReserve? && |s.records| < MAX_RESERVATIONS && s.nextId == id)
    ensures Lookup(Next(s, call), id) == Lives(Lookup(s, id), call)
  {
    match call
    case DoReserve(node, action, generation, nonce, ttl, now) =>
      var s' := Next(s, call);
      if |s'.records| > |s.records| {
        AppendFate(s, s'.records[|s.records|], s'.nextId, id);
      }
    case DoClear =>
    case DoRevoke(at) => RevokeLives(s, at, id);
    case DoCascade(nonce) => CascadeLives(s, nonce, id);
    case DoConsume(at, now) => ConsumeLives(s, at, now, id);
  }

  /** Call `k` opens reservation `id`, and no other call does. */
  ghost predicate OpensOnly(calls: seq<Call>, k: nat, id: u64) {
    k < |calls| && OpensAs(calls, k, id) && forall m :: 0 <= m < |calls| && m != k ==> !OpensAs(calls, m, id)
  }

  lemma UnknownBefore(calls: seq<Call>, k: nat, id: u64)
    requires OpensOnly(calls, k, id)
    ensures Lookup(After(calls[..k]), id).None?
  {
    var before := calls[..k];
    forall m | 0 <= m < |before|
      ensures !OpensAs(before, m, id)
    {
      assert before[..m] == calls[..m];
      assert !OpensAs(calls, m, id);
    }
    NeverOpened(before, id);
  }

  /** An id that no call gave out is not in the ledger. */
  lemma NeverOpened(calls: seq<Call>, id: u64)
    requires forall m :: 0 <= m < |calls| ==> !OpensAs(calls, m, id)
    ensures Lookup(After(calls), id).None?
  {
    LifeOf(calls, 0, |calls|, id);
    assert calls[..0] == [] && calls[..|calls|] == calls;
  }

  /** Whatever the calls are, the ledger's record of a reservation is what its own life makes of it. */
  lemma {:induction false} LedgerFollowsLife(calls: seq<Call>, k: nat, j: nat, id: u64)
    requires OpensOnly(calls, k, id) && k < j <= |calls|
    ensures Lookup(After(calls[..j]), id) == Life(calls, k, j, id)
    decreases j
  {
    AfterNext(calls, j - 1);
    if j == k + 1 {
      UnknownBefore(calls, k, id);
      NewLookup(After(calls[..k]), Asked(id, calls[k]), After(calls[..j]).nextId);
    } else {
      LedgerFollowsLife(calls, k, j - 1, id);
      assert !OpensAs(calls, j - 1, id);
      NextLives(After(calls[..j - 1]), calls[j - 1], id);
    }
  }

  // ---------- the answers ----------

  /** The call ends the reservation. */
  predicate Ends(call: Call, r: Reservation) {
    || call.DoClear?
    || call == DoRevoke(r.id)
    || call == DoCascade(r.originNonce)
    || (call.DoConsume? && call.id == r.id && call.now < Deadline(r))
  }

  /** No call between the opening and moment `j` ends the reservation. */
  ghost predicate Lasts(calls: seq<Call>, k: nat, j: nat, id: u64)
    requires k < j <= |calls| && calls[k].DoReserve?
  {
    forall m :: k < m < j ==> !Ends(calls[m], Asked(id, calls[k]))
  }

  lemma {:induction false} ActiveIffLasts(calls: seq<Call>, k: nat, j: nat, id: u64)
    requires k < j <= |calls| && calls[k].DoReserve?
    ensures Lasts(calls, k, j, id) ==> Life(calls, k, j, id) == Some(Asked(id, calls[k]))
    ensures !Lasts(calls, k, j, id) ==> var r := Life(calls, k, j, id); r.None? || !r.value.status.Active?
    decreases j
  {
    if j > k + 1 {
      ActiveIffLasts(calls, k, j - 1, id);
    }
  }

  /** Everything the ledger answers about a reservation, from the calls alone. It can be granted, consumed and revoked
      exactly while no call since its opening has ended it, the first two only before its deadline; a grant carries the
      id, the generation and the action it was opened with. */
  lemma AnswersAbout(calls: seq<Call>, k: nat, j: nat, id: u64, now: u64)
    requires OpensOnly(calls, k, id) && k < j <= |calls|
    ensures var s, r, lasts := After(calls[..j]), Asked(id, calls[k]), Lasts(calls, k, j, id);
      && Grant(s, id, now)
         == (if lasts && now < Deadline(r) then Ok(ExecutionGrant(id, r.generation, r.action, Deadline(r)))
             else Err(ReservationDenied("reservation not active")))
      && Consume(s, id, now).1
         == (if lasts && now < Deadline(r) then Ok(()) else Err(ReservationDenied("reservation not active")))
      && (Revoke(s, id).1 <==> lasts)
      && EffectiveStatus(s, id, now)
         == (match Life(calls, k, j, id)
             case None => None
             case Some(x) => Some(if lasts && now >= Deadline(r) then Expired else x.status))
  {
    LedgerFollowsLife(calls, k, j, id);
    ActiveIffLasts(calls, k, j, id);
  }

  /** About an id that no call gave out, every answer is a refusal. */
  lemma AnswersUnknown(calls: seq<Call>, id: u64, now: u64)
    requires forall m :: 0 <= m < |calls| ==> !OpensAs(calls, m, id)
    ensures Grant(After(calls), id, now) == Err(ReservationDenied("reservation not active"))
    ensures Consume(After(calls), id, now) == (After(calls), Err(ReservationDenied("reservation not active")))
    ensures Revoke(After(calls), id) == (After(calls), false) && EffectiveStatus(After(calls), id, now).None?
  {
    NeverOpened(calls, id);
  }

  // ---------- revoking and consuming one of many ----------

  /** A revocation is answered `true` exactly for a record stored as active, which it marks; no other id is touched. */
  lemma RevokeExact(s: Store, id: u64, other: u64)
    ensures var (s', ok) := Revoke(s, id);
      && (ok <==> Lookup(s, id).Some? && Lookup(s, id).value.status.Active?)
      && (ok ==> Lookup(s', id) == Some(Lookup(s, id).value.(status := Revoked)))
      && (!ok ==> s' == s) && s'.nextId == s.nextId && (other != id ==> Lookup(s', other) == Lookup(s, other))
  {
    RevokeLives(s, id, id);
    RevokeLives(s, id, other);
  }

  /** The same for a consumption, which also has to come before the deadline. */
  lemma ConsumeExact(s: Store, id: u64, now: u64, other: u64)
    ensures var (s', r) := Consume(s, id, now);
      && (r.Ok? <==> Lookup(s, id).Some? && Lookup(s, id).value.status.Active? && now < Deadline(Lookup(s, id).value))
      && (r.Ok? ==> Lookup(s', id) == Some(Lookup(s, id).value.(status := Consumed)))
      && (r.Err? ==> s' == s) && s'.nextId == s.nextId && (other != id ==> Lookup(s', other) == Lookup(s, other))
  {
    ConsumeLives(s, id, now, id);
    ConsumeLives(s, id, now, other);
  }

  /** After a revocation answered `true`, or a consumption answered `Ok`, no call grants, consumes or revokes that id
      while it is not given out again. */
  lemma EndedForGood(calls: seq<Call>, i: nat, j: nat, id: u64, now: u64)
    requires i < j <= |calls| && NotOpenedFrom(calls, i, id)
    requires || (calls[i] == DoRevoke(id) && Revoke(After(calls[..i]), id).1) || Consumes(calls, i, id)
    ensures Grant(After(calls[..j]), id, now).Err? && Consume(After(calls[..j]), id, now).1.Err?
    ensures !Revoke(After(calls[..j]), id).1
  {
    var s := After(calls[..i]);
    AfterNext(calls, i);
    if calls[i].DoRevoke? {
      RevokeExact(s, id, id);
    } else {
      ConsumeExact(s, id, calls[i].now, id);
    }
    TerminalForGood(calls, i + 1, j, id);
  }

  /** A cascade marks the active records with the nonce and no others; those it counts are those it changes, and
      afterwards there are none left to count. */
  lemma CascadeExact(s: Store, nonce: u64, id: u64)
    ensures var s' := Cascade(s, nonce);
      && |s'.records| == |s.records| && s'.nextId == s.nextId
      && Hits(s.records, nonce) == (set i: nat | i < |s.records| && s'.records[i] != s.records[i])
      && Hits(s'.records, nonce) == {} && Lookup(s', id) == Lives(Lookup(s, id), DoCascade(nonce))
  {
    CascadeLives(s, nonce, id);
  }

  // ---------- opening ----------

  /** No call from moment `i` on clears the ledger. */
  ghost predicate Uncleared(calls: seq<Call>, i: nat) {
    forall m :: i <= m < |calls| ==> !calls[m].DoClear?
  }

  /** The calls since the last clear that opened a reservation. */
  ghost function OpenCalls(calls: seq<Call>): set<nat> {
    set i: nat | i < |calls| && Opens(calls, i) && Uncleared(calls, i)
  }

  lemma LastOpen(calls: seq<Call>)
    requires |calls| > 0
    ensures var before, n := calls[..|calls| - 1], |calls| - 1;
      OpenCalls(calls)
      == (if calls[n].DoClear? then {} else OpenCalls(before) + (if Opens(calls, n) then {n} else {}))
  {
    var before := calls[..|calls| - 1];
    forall i: nat | i < |before|
      ensures Opens(before, i) <==> Opens(calls, i)
      ensures !calls[|before|].DoClear? ==> (Uncleared(before, i) <==> Uncleared(calls, i))
    {
      assert before[..i] == calls[..i];
    }
  }

  /** The ledger stores what was opened since the last clear. */
  lemma {:induction false} StoredCount(calls: seq<Call>)
    ensures |After(calls).records| == |OpenCalls(calls)|
  {
    if |calls| > 0 {
      StoredCount(calls[..|calls| - 1]);
      LastOpen(calls);
    }
  }

  /** The answer to a request: the number of reservations opened so far, clears included, as long as it is a 64-bit
      number, unless 256 were opened since the last clear. */
  lemma ReserveAnswer(calls: seq<Call>, node: NodeId, action: Rights, generation: u64, nonce: u64, ttl: Ttl, now: u64)
    ensures Reserve(After(calls), node, action, generation, nonce, ttl, now).1
      == if |OpenCalls(calls)| >= 256 then Err(ReservationDenied("reservation capacity exhausted"))
         else Ok(if Opened(calls) <= 0xFFFF_FFFF_FFFF_FFFF then Opened(calls) else 0xFFFF_FFFF_FFFF_FFFF)
  {
    StoredCount(calls);
    NextIdCounts(calls);
  }
}
