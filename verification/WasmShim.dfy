/** The kernel behind the guest interface, as the object that owns the gates and their log. */
module WasmShim {
  import opened Types
  import opened Audit
  import opened Capability
  import opened Graph
  import opened Metabolism
  import opened PolicyGate
  import opened Boot
  import K = KernelSpec

  class WasmShim {
    const policy: Policy
    const ledger: Ledger
    const graph: OperationalGraph
    const audit: AuditLog
    var capTable: seq<Option<Capability>>

    ghost function Repr(): set<object> {
      {this, policy, policy.revocation, ledger, audit}
    }

    ghost predicate Valid()
      reads Repr()
    {
      && policy.Valid() && ledger.Valid() && graph.Valid() && audit.Valid()
      && |capTable| <= K.MAX_WASM_CAPS
    }

    /** The kernel that the objects stand for. */
    ghost function Value(): K.Kernel
      reads Repr()
    {
      K.Kernel(policy.Value(), ledger.balances, graph, audit.events, capTable)
    }

    constructor (policy: Policy, ledger: Ledger, graph: OperationalGraph, h: Hash)
      requires policy.Valid() && ledger.Valid() && graph.Valid()
      ensures Valid() && Value() == K.Kernel(policy.Value(), ledger.balances, graph, [], [])
      ensures this.policy == policy && this.ledger == ledger && fresh(audit) && audit.h == h
    {
      this.policy, this.ledger, this.graph := policy, ledger, graph;
      audit := new AuditLog(h);
      capTable := [];
    }

    constructor FromBootState(boot: BootState, h: Hash)
      requires boot.Valid()
      ensures Valid() && Value() == K.Kernel(boot.policy.Value(), boot.ledger.balances, boot.graph, [], [])
      ensures policy == boot.policy && ledger == boot.ledger && fresh(audit) && audit.h == h
    {
      policy, ledger, graph := boot.policy, boot.ledger, boot.graph;
      audit := new AuditLog(h);
      capTable := [];
    }

    method RegisterCap(cap: Capability) returns (handle: Option<u32>)
      requires Valid()
      modifies this
      ensures Valid()
      ensures (Value(), handle) == K.Register(old(Value()), cap)
    {
      var idx := |capTable|;
      if idx >= K.MAX_WASM_CAPS {
        return None;
      }
      capTable := capTable + [Some(cap)];
      return Some(idx);
    }

    method PolicyCheck(handle: u32, rightBits: bv32) returns (code: int)
      requires Valid()
      modifies policy, audit
      ensures Valid()
      ensures (Value(), K.Code(code)) == K.Step(audit.h, old(Value()), K.PolicyCheck(handle, rightBits))
    {
      if handle >= |capTable| || capTable[handle].None? {
        return K.RC_INVALID_HANDLE;
      }
      K.PolicyCheckStep(audit.h, Value(), handle, rightBits);
      var required := FromBitsTruncate(rightBits);
      var r := policy.Check(capTable[handle].value, required, audit);
      return if r.Ok? then K.RC_PERMITTED else K.RC_CAP_DENIED;
    }

    method LedgerDeduct(nodeId: u32, amount: u64) returns (code: int)
      requires Valid()
      modifies ledger, audit
      ensures Valid()
      ensures (Value(), K.Code(code)) == K.Step(audit.h, old(Value()), K.LedgerDeduct(nodeId, amount))
    {
      if nodeId == 0 {
        return K.RC_INVALID_HANDLE;
      }
      var r := QuotaEnforcer.Deduct(ledger, nodeId, amount, "wasm", audit);
      return if r.Ok? then K.RC_PERMITTED else K.RC_QUOTA_EXCEEDED;
    }

    method TopologyTraverse(srcId: u32, dstId: u32) returns (code: int)
      requires Valid()
      modifies audit
      ensures Valid()
      ensures (Value(), K.Code(code)) == K.Step(audit.h, old(Value()), K.TopologyTraverse(srcId, dstId))
    {
      if srcId == 0 || dstId == 0 {
        return K.RC_INVALID_HANDLE;
      }
      var r := graph.Traverse(srcId, dstId, audit);
      return if r.Ok? then K.RC_PERMITTED else K.RC_TOPO_VIOLATION;
    }
  }
}
