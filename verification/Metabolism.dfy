/** The resource ledger as an object, and the enforcer that charges it under the audit log. */
module Metabolism {
  import opened Types
  import opened Audit
  import L = LedgerSpec

  class Ledger {
    var balances: L.Balances

    ghost predicate Valid()
      reads this
    {
      |balances| <= MAX_NODES
    }

    constructor ()
      ensures Valid() && balances == map[]
    {
      balances := map[];
    }

    method Seed(node: NodeId, ceiling: u64) returns (r: Result<()>)
      requires Valid()
      modifies this
      ensures Valid()
      ensures (balances, r) == L.Seed(old(balances), node, ceiling)
    {
      if node in balances {
        return Err(ManifestInvalid(DuplicateQuota));
      }
      if |balances| >= MAX_NODES {
        return Err(ManifestInvalid(LedgerFull));
      }
      balances := balances[node := ceiling];
      return Ok(());
    }

    method Deduct(node: NodeId, amount: u64) returns (left: Option<u64>)
      requires Valid()
      modifies this
      ensures Valid()
      ensures (balances, left) == L.Deduct(old(balances), node, amount)
    {
      if node !in balances {
        return None;
      }
      if balances[node] < amount {
        return None;
      }
      var balance := balances[node] - amount;
      assert balances[node := balance].Keys == balances.Keys;
      balances := balances[node := balance];
      return Some(balance);
    }
  }

  class QuotaEnforcer {
    /** Charge `node`, with one record of the decision; when the log has no room nothing happens at all. */
    static method Deduct(ledger: Ledger, node: NodeId, amount: u64, resource: string, audit: AuditLog)
      returns (r: Result<u64>)
      requires ledger.Valid() && audit.Valid()
      modifies ledger, audit
      ensures ledger.Valid() && audit.Valid()
      ensures (ledger.balances, r)
        == L.Charge(old(ledger.balances), node, amount, resource, |old(audit.events)| < MAX_AUDIT_EVENTS)
      ensures audit.events
        == if r == Err(AuditFull) then old(audit.events)
           else Appended(audit.h, old(audit.events), Request(ResourceDeduction, node, UNTIMED, DenialOf(r)))
    {
      var full := audit.IsFull();
      if full {
        return Err(AuditFull);
      }
      var left := ledger.Deduct(node, amount);
      r := if left.Some? then Ok(left.value) else Err(QuotaExceeded(resource));
      var _ := audit.Append(ResourceDeduction, node, UNTIMED, DenialOf(r));
    }
  }
}
