/** The capability gate as the objects it is made of, sharing an audit log with the other gates. */
module PolicyGate {
  import opened Types
  import opened Audit
  import opened Capability
  import P = PolicySpec

  class RevocationLedger {
    var revoked: set<u64>
    var epoch: u64

    ghost predicate Valid()
      reads this
    {
      |revoked| <= MAX_REVOCATIONS
    }

    constructor ()
      ensures Valid() && revoked == {} && epoch == 0
    {
      revoked, epoch := {}, 0;
    }

    method Revoke(id: u64) returns (ok: bool)
      requires Valid()
      modifies this
      ensures Valid()
      ensures ok <==> id in old(revoked) || |old(revoked)| < MAX_REVOCATIONS
      ensures revoked == if ok then old(revoked) + {id} else old(revoked)
      ensures epoch == if ok then SaturatingAdd(old(epoch), 1) else old(epoch)
    {
      if id in revoked || |revoked| < MAX_REVOCATIONS {
        if id in revoked {
          assert revoked + {id} == revoked;
        }
        revoked := revoked + {id};
        epoch := SaturatingAdd(epoch, 1);
        ok := true;
      } else {
        ok := false;
      }
    }

    method Clear()
      modifies this
      ensures Valid() && revoked == {} && epoch == 0
    {
      revoked, epoch := {}, 0;
    }
  }

  class Policy {
    var generation: u64
    var usedNonces: seq<u64>
    const revocation: RevocationLedger

    ghost predicate Valid()
      reads this, revocation
    {
      |usedNonces| <= NONCE_WINDOW && revocation.Valid()
    }

    function Value(): P.State
      reads this, revocation
    {
      P.State(generation, usedNonces, revocation.revoked, revocation.epoch)
    }

    constructor (generation: u64)
      ensures Valid() && Value() == P.New(generation) && fresh(revocation)
    {
      this.generation := generation;
      usedNonces := [];
      revocation := new RevocationLedger();
    }

    method CheckInner(cap: Capability, right: Rights) returns (r: Result<()>)
      requires Valid()
      modifies this
      ensures Valid()
      ensures (Value(), r) == P.CheckInner(old(Value()), cap, right)
    {
      if !Authorises(cap, right, generation) {
        return Err(CapabilityDenied("token expired, insufficient rights, or wrong generation"));
      }
      if cap.nonce in revocation.revoked {
        return Err(CapabilityDenied("capability revoked"));
      }
      if cap.nonce in usedNonces {
        return Err(CapabilityDenied("nonce replayed"));
      }
      if |usedNonces| >= NONCE_WINDOW {
        return Err(CapabilityDenied("nonce window exhausted; rotate generation"));
      }
      usedNonces := usedNonces + [cap.nonce];
      return Ok(());
    }

    /** The gate and the log it shares: one record of the decision, and no permission without it. */
    method Check(cap: Capability, right: Rights, audit: AuditLog) returns (r: Result<()>)
      requires Valid() && audit.Valid()
      modifies this, audit
      ensures Valid() && audit.Valid()
      ensures (Value(), r) == P.Check(old(Value()), cap, right, |old(audit.events)| < MAX_AUDIT_EVENTS)
      ensures var decision := P.CheckInner(old(Value()), cap, right).1;
        audit.events
          == Appended(audit.h, old(audit.events), Request(CapabilityCheck, cap.target, UNTIMED, DenialOf(decision)))
    {
      var result := CheckInner(cap, right);
      var appended := audit.Append(CapabilityCheck, cap.target, UNTIMED, DenialOf(result));
      if !appended && result.Ok? {
        return Err(AuditFull);
      }
      return result;
    }

    method RevokeCapability(id: u64) returns (ok: bool)
      requires Valid()
      modifies revocation
      ensures Valid()
      ensures (Value(), ok) == P.Revoke(old(Value()), id)
    {
      ok := revocation.Revoke(id);
    }

    method RotateGeneration()
      requires Valid()
      modifies this, revocation
      ensures Valid()
      ensures Value() == P.Rotate(old(Value()))
    {
      generation := SaturatingAdd(generation, 1);
      usedNonces := [];
      revocation.Clear();
    }
  }
}
