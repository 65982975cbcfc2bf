/** The capability gate on values: generation, rights, revocation and one-shot nonces. */
module PolicySpec {
  import opened Types
  import opened Capability

  datatype State = State(generation: u64, used: seq<u64>, revoked: set<u64>, epoch: u64)

  function New(generation: u64): State {
    State(generation, [], {}, 0)
  }

  /** The four steps of the gate, before the audit log is asked. */
  function CheckInner(p: State, cap: Capability, right: Rights): (State, Result<()>) {
    if !Authorises(cap, right, p.generation) then
      (p, Err(CapabilityDenied("token expired, insufficient rights, or wrong generation")))
    else if cap.nonce in p.revoked then
      (p, Err(CapabilityDenied("capability revoked")))
    else if cap.nonce in p.used then
      (p, Err(CapabilityDenied("nonce replayed")))
    else if |p.used| >= NONCE_WINDOW then
      (p, Err(CapabilityDenied("nonce window exhausted; rotate generation")))
    else
      (p.(used := p.used + [cap.nonce]), Ok(()))
  }

  /** The answer to the caller when `r` was decided and the log did or did not take the record. */
  function Answer(r: Result<()>, recorded: bool): Result<()> {
    if !recorded && r.Ok? then Err(AuditFull) else r
  }

  function Check(p: State, cap: Capability, right: Rights, room: bool): (State, Result<()>) {
    var (p', r) := CheckInner(p, cap, right);
    (p', Answer(r, room))
  }

  function Revoke(p: State, id: u64): (State, bool) {
    if id in p.revoked || |p.revoked| < MAX_REVOCATIONS then
      (p.(revoked := p.revoked + {id}, epoch := SaturatingAdd(p.epoch, 1)), true)
    else (p, false)
  }

  function Rotate(p: State): State {
    State(SaturatingAdd(p.generation, 1), [], {}, 0)
  }
}
