/** The reservation ledger as an object that updates its records in place. */
module Reservations {
  import opened Types
  import opened Capability
  import opened S = ReservationSpec

  lemma HitsOneMore(records: seq<Reservation>, i: nat, nonce: u64)
    requires i < |records|
    ensures |Hits(records[..i + 1], nonce)| == |Hits(records[..i], nonce)| + if Hit(records[i], nonce) then 1 else 0
  {
    assert records[..i + 1] == records[..i] + [records[i]];
    assert Hits(records[..i + 1], nonce) == Hits(records[..i], nonce) + if Hit(records[i], nonce) then {i} else {};
  }

  class ReservationLedger {
    var records: seq<Reservation>
    var nextId: u64

    ghost predicate Valid()
      reads this
    {
      Sound(Value())
    }

    function Value(): Store
      reads this
    {
      Store(records, nextId)
    }

    constructor ()
      ensures Valid() && Value() == EMPTY
    {
      records, nextId := [], 0;
    }

    method FindIndex(id: u64) returns (i: Option<nat>)
      ensures i == Find(records, id)
    {
      for k := 0 to |records|
        invariant forall j :: 0 <= j < k ==> records[j].id != id
      {
        if records[k].id == id {
          return Some(k);
        }
      }
      return None;
    }

    method Reserve(node: NodeId, action: Rights, generation: u64, nonce: u64, ttl: Ttl, now: u64)
      returns (r: Result<u64>)
      requires Valid()
      modifies this
      ensures Valid()
      ensures (Value(), r) == S.Reserve(old(Value()), node, action, generation, nonce, ttl, now)
    {
      NextSound(Value(), DoReserve(node, action, generation, nonce, ttl, now));
      var id := nextId;
      var reservation := Reservation(id, node, action, generation, nonce, now, ttl, Active);
      if |records| >= MAX_RESERVATIONS {
        return Err(ReservationDenied("reservation capacity exhausted"));
      }
      records := records + [reservation];
      nextId := SaturatingAdd(nextId, 1);
      return Ok(id);
    }

    method EffectiveStatus(id: u64, now: u64) returns (status: Option<Status>)
      ensures status == S.EffectiveStatus(Value(), id, now)
    {
      var i := FindIndex(id);
      if i.None? {
        return None;
      }
      var r := records[i.value];
      return Some(if r.status.Active? && now >= r.ExpiresAt() then Expired else r.status);
    }

    method Revoke(id: u64) returns (ok: bool)
      requires Valid()
      modifies this
      ensures Valid()
      ensures (Value(), ok) == S.Revoke(old(Value()), id)
    {
      NextSound(Value(), DoRevoke(id));
      var i := FindIndex(id);
      if i.Some? && records[i.value].status.Active? {
        records := records[i.value := records[i.value].(status := Revoked)];
        return true;
      }
      return false;
    }

    /** Revoke everything active that came from the nonce, and say how many that were. */
    method RevokeByOriginNonce(nonce: u64) returns (count: nat)
      requires Valid()
      modifies this
      ensures Valid()
      ensures Value() == Cascade(old(Value()), nonce)
      ensures count == |Hits(old(records), nonce)|
    {
      ghost var before := Value();
      count := 0;
      for i := 0 to |records|
        invariant |records| == |before.records| && nextId == before.nextId
        invariant forall k :: 0 <= k < i ==> records[k] == Cascaded(before.records[k], nonce)
        invariant forall k :: i <= k < |records| ==> records[k] == before.records[k]
        invariant count == |Hits(before.records[..i], nonce)|
      {
        HitsOneMore(before.records, i, nonce);
        if records[i].originNonce == nonce && records[i].status.Active? {
          records := records[i := records[i].(status := Revoked)];
          count := count + 1;
        }
      }
      assert before.records[..|records|] == before.records;
      assert records == Cascade(before, nonce).records;
      NextSound(before, DoCascade(nonce));
    }

    method Grant(id: u64, now: u64) returns (r: Result<ExecutionGrant>)
      ensures r == S.Grant(Value(), id, now)
    {
      var i := FindIndex(id);
      if i.None? {
        return Err(ReservationDenied("reservation not active"));
      }
      var found := records[i.value];
      var active := found.status.Active? && now < found.ExpiresAt();
      if !active {
        return Err(ReservationDenied("reservation not active"));
      }
      return Ok(ExecutionGrant(found.id, found.generation, found.action, found.ExpiresAt()));
    }

    method Consume(id: u64, now: u64) returns (r: Result<()>)
      requires Valid()
      modifies this
      ensures Valid()
      ensures (Value(), r) == S.Consume(old(Value()), id, now)
    {
      NextSound(Value(), DoConsume(id, now));
      var i := FindIndex(id);
      if i.None? || !records[i.value].status.Active? {
        return Err(ReservationDenied("reservation not active"));
      }
      if now >= records[i.value].ExpiresAt() {
        return Err(ReservationDenied("reservation not active"));
      }
      records := records[i.value := records[i.value].(status := Consumed)];
      return Ok(());
    }

    method Clear()
      requires Valid()
      modifies this
      ensures Valid()
      ensures Value() == S.Clear(old(Value()))
    {
      records := [];
    }
  }
}
