/** The three gates behind one audit log, as a guest sees them: host calls over values, and whole runs of them. */
module KernelSpec {
  import opened Types
  import opened Audit
  import opened Capability
  import opened Graph
  import P = PolicySpec
  import L = LedgerSpec

  const MAX_WASM_CAPS: nat := 64

  const RC_PERMITTED: int := 0
  const RC_CAP_DENIED: int := 1
  const RC_QUOTA_EXCEEDED: int := 2
  const RC_TOPO_VIOLATION: int := 3
  const RC_INVALID_HANDLE: int := -1

  datatype Kernel = Kernel(
    policy: P.State,
    balances: L.Balances,
    graph: OperationalGraph,
    log: seq<Event>,
    caps: seq<Option<Capability>>)

  datatype Call =
    | RegisterCap(cap: Capability)
    | PolicyCheck(handle: u32, rightBits: bv32)
    | LedgerDeduct(nodeId: u32, amount: u64)
    | TopologyTraverse(srcId: u32, dstId: u32)

  /** What a call returns: a code to the guest, or a handle to the embedder that registers a token. */
  datatype Reply = Code(code: int) | Handle(handle: Option<u32>)

  const PERMITTED: Reply := Code(RC_PERMITTED)

  predicate HasRoom(log: seq<Event>) {
    |log| < MAX_AUDIT_EVENTS
  }

  /** A host call whose arguments name a registered token, or non-zero nodes; otherwise no gate is asked. */
  predicate ValidCall(k: Kernel, call: Call) {
    match call
    case RegisterCap(_) => false
    case PolicyCheck(handle, _) => handle < |k.caps| && k.caps[handle].Some?
    case LedgerDeduct(nodeId, _) => nodeId != 0
    case TopologyTraverse(srcId, dstId) => srcId != 0 && dstId != 0
  }

  /** The gate's own decision, before the log is asked. */
  function Decision(k: Kernel, call: Call): Result<()>
    requires k.graph.Valid() && ValidCall(k, call)
  {
    match call
    case PolicyCheck(handle, bits) => P.CheckInner(k.policy, k.caps[handle].value, FromBitsTruncate(bits)).1
    case LedgerDeduct(nodeId, amount) =>
      if L.Deduct(k.balances, nodeId, amount).1.Some? then Ok(()) else Err(QuotaExceeded("wasm"))
    case TopologyTraverse(srcId, dstId) => k.graph.TraverseInner(srcId, dstId)
  }

  /** The record of the call. */
  function RequestFor(k: Kernel, call: Call): Request
    requires k.graph.Valid() && ValidCall(k, call)
  {
    match call
    case PolicyCheck(handle, _) =>
      Request(CapabilityCheck, k.caps[handle].value.target, UNTIMED, DenialOf(Decision(k, call)))
    case LedgerDeduct(nodeId, _) => Request(ResourceDeduction, nodeId, UNTIMED, DenialOf(Decision(k, call)))
    case TopologyTraverse(srcId, _) => Request(Kind.TopologyTraverse, srcId, UNTIMED, DenialOf(Decision(k, call)))
  }

  function Refusal(call: Call): int
    requires !call.RegisterCap?
  {
    match call
    case PolicyCheck(_, _) => RC_CAP_DENIED
    case LedgerDeduct(_, _) => RC_QUOTA_EXCEEDED
    case TopologyTraverse(_, _) => RC_TOPO_VIOLATION
  }

  /** Registering a token: the next free handle, or `None` when the table is full. */
  function Register(k: Kernel, cap: Capability): (Kernel, Option<u32>) {
    if |k.caps| < MAX_WASM_CAPS then (k.(caps := k.caps + [Some(cap)]), Some(|k.caps|)) else (k, None)
  }

  /** One call: the kernel afterwards and what is returned. */
  function Step(h: Hash, k: Kernel, call: Call): (Kernel, Reply)
    requires k.graph.Valid()
  {
    if call.RegisterCap? then
      var (k', handle) := Register(k, call.cap);
      (k', Handle(handle))
    else if !ValidCall(k, call) then (k, Code(RC_INVALID_HANDLE))
    else
      var reply := Code(if Decision(k, call).Ok? && HasRoom(k.log) then RC_PERMITTED else Refusal(call));
      var logged := k.(log := Appended(h, k.log, RequestFor(k, call)));
      match call
      case PolicyCheck(handle, bits) =>
        (logged.(policy := P.CheckInner(k.policy, k.caps[handle].value, FromBitsTruncate(bits)).0), reply)
      case LedgerDeduct(nodeId, amount) =>
        (if HasRoom(k.log) then logged.(balances := L.Deduct(k.balances, nodeId, amount).0) else k, reply)
      case TopologyTraverse(_, _) => (logged, reply)
  }

  lemma PolicyCheckStep(h: Hash, k: Kernel, handle: u32, bits: bv32)
    requires k.graph.Valid() && ValidCall(k, PolicyCheck(handle, bits))
    ensures var cap := k.caps[handle].value;
            var (p, r) := P.CheckInner(k.policy, cap, FromBitsTruncate(bits));
      Step(h, k, PolicyCheck(handle, bits))
      == (k.(policy := p, log := Appended(h, k.log, Request(CapabilityCheck, cap.target, UNTIMED, DenialOf(r)))),
          Code(if r.Ok? && HasRoom(k.log) then RC_PERMITTED else RC_CAP_DENIED))
  {
  }

  function Run(h: Hash, k: Kernel, calls: seq<Call>): (k': Kernel)
    requires k.graph.Valid()
    ensures k'.graph == k.graph
  {
    if |calls| == 0 then k else Step(h, Run(h, k, calls[..|calls| - 1]), calls[|calls| - 1]).0
  }

  /** What call `i` of the run returned. */
  function ReplyAt(h: Hash, k: Kernel, calls: seq<Call>, i: nat): Reply
    requires k.graph.Valid() && i < |calls|
  {
    Step(h, Run(h, k, calls[..i]), calls[i]).1
  }

  // ---------- no permission without a record ----------

  lemma NewEventSays(h: Hash, prev: Digest, seqNo: u64, r: Request)
    ensures var e := NewEvent(h, prev, seqNo, r); AsRequest(e) == r && (e.verdict.Permitted? <==> r.denial.None?)
  {
  }

  lemma AppendedLast(h: Hash, log: seq<Event>, r: Request)
    requires HasRoom(log)
    ensures var log' := Appended(h, log, r);
      |log'| == |log| + 1 && log'[..|log|] == log && log'[|log|] == NewEvent(h, Head(log), |log|, r)
  {
  }

  /** On a log with room every call with valid arguments appends one event, that says who, what, and whether it
      was permitted; the guest gets RC_PERMITTED exactly when that event says so. */
  lemma StepIsLogged(h: Hash, k: Kernel, call: Call)
    requires k.graph.Valid() && ValidCall(k, call) && HasRoom(k.log)
    ensures var (k', reply) := Step(h, k, call);
      && |k'.log| == |k.log| + 1 && k'.log[..|k.log|] == k.log
      && AsRequest(k'.log[|k.log|]) == RequestFor(k, call)
      && (reply == PERMITTED <==> k'.log[|k.log|].verdict.Permitted?)
      && (reply == PERMITTED <==> Decision(k, call).Ok?)
  {
    NewEventSays(h, Head(k.log), |k.log|, RequestFor(k, call));
    AppendedLast(h, k.log, RequestFor(k, call));
  }

  /** A full log permits nothing and stays as it is; the same holds of a call that reaches no gate. */
  lemma StepIsRefused(h: Hash, k: Kernel, call: Call)
    requires k.graph.Valid() && (!ValidCall(k, call) || !HasRoom(k.log))
    ensures var (k', reply) := Step(h, k, call); reply != PERMITTED && k'.log == k.log
  {
  }

  function PermittedEvents(log: seq<Event>): nat {
    if |log| == 0 then 0
    else PermittedEvents(log[..|log| - 1]) + if log[|log| - 1].verdict.Permitted? then 1 else 0
  }

  function Permits(h: Hash, k: Kernel, calls: seq<Call>): nat
    requires k.graph.Valid()
  {
    if |calls| == 0 then 0
    else
      var before := calls[..|calls| - 1];
      Permits(h, k, before) + if Step(h, Run(h, k, before), calls[|calls| - 1]).1 == PERMITTED then 1 else 0
  }

  /** Over any run of host calls, the permissions given are exactly the permitted events added to the log. */
  lemma {:induction false} NoUnloggedPermit(h: Hash, k: Kernel, calls: seq<Call>)
    requires k.graph.Valid()
    ensures PermittedEvents(Run(h, k, calls).log) == PermittedEvents(k.log) + Permits(h, k, calls)
    ensures k.log <= Run(h, k, calls).log
  {
    if |calls| > 0 {
      var before, call := Run(h, k, calls[..|calls| - 1]), calls[|calls| - 1];
      NoUnloggedPermit(h, k, calls[..|calls| - 1]);
      if ValidCall(before, call) && HasRoom(before.log) {
        StepIsLogged(h, before, call);
      } else {
        StepIsRefused(h, before, call);
      }
    }
  }

  lemma {:induction false} PermittedAtMostAll(log: seq<Event>)
    ensures PermittedEvents(log) <= |log|
  {
    if |log| > 0 {
      PermittedAtMostAll(log[..|log| - 1]);
    }
  }

  lemma {:induction false} LogBounded(h: Hash, k: Kernel, calls: seq<Call>)
    requires k.graph.Valid() && |k.log| <= MAX_AUDIT_EVENTS
    ensures |Run(h, k, calls).log| <= MAX_AUDIT_EVENTS
  {
    if |calls| > 0 {
      LogBounded(h, k, calls[..|calls| - 1]);
    }
  }

  /** A shim that starts with an empty log gives at most 512 permissions in its life. */
  lemma PermitsBounded(h: Hash, k: Kernel, calls: seq<Call>)
    requires k.graph.Valid() && k.log == []
    ensures Permits(h, k, calls) <= MAX_AUDIT_EVENTS
  {
    NoUnloggedPermit(h, k, calls);
    LogBounded(h, k, calls);
    PermittedAtMostAll(Run(h, k, calls).log);
  }

  lemma RunStep(h: Hash, k: Kernel, calls: seq<Call>, i: nat)
    requires k.graph.Valid() && i < |calls|
    ensures Run(h, k, calls[..i + 1]) == Step(h, Run(h, k, calls[..i]), calls[i]).0
  {
    assert calls[..i + 1][..i] == calls[..i];
  }

  /** Once the log is full, no call is permitted any more and the log never changes again. */
  lemma {:induction false} FullStaysShut(h: Hash, k: Kernel, calls: seq<Call>, i: nat, j: nat)
    requires k.graph.Valid() && i <= j < |calls| && !HasRoom(Run(h, k, calls[..i]).log)
    ensures ReplyAt(h, k, calls, j) != PERMITTED
    ensures Run(h, k, calls[..j + 1]).log == Run(h, k, calls[..i]).log
    decreases j
  {
    if i < j {
      FullStaysShut(h, k, calls, i, j - 1);
    }
    StepIsRefused(h, Run(h, k, calls[..j]), calls[j]);
    RunStep(h, k, calls, j);
  }

  // ---------- one-shot handles ----------

  lemma StepKeepsNonces(h: Hash, k: Kernel, call: Call)
    requires k.graph.Valid()
    ensures var k' := Step(h, k, call).0; k.policy.used <= k'.policy.used
  {
    if call.PolicyCheck? && ValidCall(k, call) {
      assert k.policy.used
        <= P.CheckInner(k.policy, k.caps[call.handle].value, FromBitsTruncate(call.rightBits)).0.used;
    }
  }

  lemma {:induction false} NoncesKept(h: Hash, k: Kernel, calls: seq<Call>, i: nat, j: nat)
    requires k.graph.Valid() && i <= j <= |calls|
    ensures Run(h, k, calls[..i]).policy.used <= Run(h, k, calls[..j]).policy.used
    decreases j
  {
    if i < j {
      NoncesKept(h, k, calls, i, j - 1);
      StepKeepsNonces(h, Run(h, k, calls[..j - 1]), calls[j - 1]);
      RunStep(h, k, calls, j - 1);
    }
  }

  lemma PermittedBurns(h: Hash, k: Kernel, handle: u32, bits: bv32)
    requires k.graph.Valid() && Step(h, k, PolicyCheck(handle, bits)).1 == PERMITTED
    ensures ValidCall(k, PolicyCheck(handle, bits))
    ensures k.caps[handle].value.nonce !in k.policy.used
    ensures k.caps[handle].value.nonce in Step(h, k, PolicyCheck(handle, bits)).0.policy.used
  {
    var used := Step(h, k, PolicyCheck(handle, bits)).0.policy.used;
    assert used[|used| - 1] == k.caps[handle].value.nonce;
  }

  /** The nonce of the token that call `i` presents, if it presents one. */
  function NonceAt(h: Hash, k: Kernel, calls: seq<Call>, i: nat): Option<u64>
    requires k.graph.Valid() && i < |calls|
  {
    var now := Run(h, k, calls[..i]);
    if calls[i].PolicyCheck? && ValidCall(now, calls[i]) then Some(now.caps[calls[i].handle].value.nonce) else None
  }

  /** A permitted check takes a nonce that was free. */
  lemma NonceTaken(h: Hash, k: Kernel, calls: seq<Call>, i: nat) returns (x: u64)
    requires k.graph.Valid() && i < |calls| && calls[i].PolicyCheck? && ReplyAt(h, k, calls, i) == PERMITTED
    ensures NonceAt(h, k, calls, i) == Some(x)
    ensures x !in Run(h, k, calls[..i]).policy.used && x in Run(h, k, calls[..i + 1]).policy.used
  {
    var now := Run(h, k, calls[..i]);
    RunStep(h, k, calls, i);
    PermittedBurns(h, now, calls[i].handle, calls[i].rightBits);
    x := now.caps[calls[i].handle].value.nonce;
  }

  lemma Apart(before: seq<u64>, after: seq<u64>, x: u64, y: u64)
    requires before <= after && x in before && y !in after
    ensures x != y
  {
  }

  /** Over any run of calls each nonce is permitted at most once, under whatever handles its tokens were
      registered: the shim never rotates the generation. */
  lemma TokenPermittedOnce(h: Hash, k: Kernel, calls: seq<Call>, i: nat, j: nat)
    requires k.graph.Valid() && i < j < |calls| && calls[i].PolicyCheck? && calls[j].PolicyCheck?
    requires ReplyAt(h, k, calls, i) == PERMITTED && ReplyAt(h, k, calls, j) == PERMITTED
    ensures NonceAt(h, k, calls, i).Some? && NonceAt(h, k, calls, j).Some?
    ensures NonceAt(h, k, calls, i) != NonceAt(h, k, calls, j)
  {
    var x := NonceTaken(h, k, calls, i);
    var y := NonceTaken(h, k, calls, j);
    NoncesKept(h, k, calls, i + 1, j);
    Apart(Run(h, k, calls[..i + 1]).policy.used, Run(h, k, calls[..j]).policy.used, x, y);
  }

  // ---------- conservation through the shim ----------

  /** The sum of what node `node` was permitted to deduct. */
  function Deducted(h: Hash, k: Kernel, calls: seq<Call>, node: NodeId): nat
    requires k.graph.Valid()
  {
    if |calls| == 0 then 0
    else
      var before, call := calls[..|calls| - 1], calls[|calls| - 1];
      Deducted(h, k, before, node)
      + if call.LedgerDeduct? && call.nodeId == node && Step(h, Run(h, k, before), call).1 == PERMITTED
        then call.amount else 0
  }

  lemma StepConserves(h: Hash, k: Kernel, call: Call, node: NodeId)
    requires k.graph.Valid() && node in k.balances
    ensures var (k', reply) := Step(h, k, call);
      node in k'.balances && k.balances[node] == k'.balances[node]
        + if call.LedgerDeduct? && call.nodeId == node && reply == PERMITTED then call.amount else 0
  {
  }

  /** A node's balance before a run is its balance after it plus what it was permitted to deduct. */
  lemma {:induction false} DeductionsConserve(h: Hash, k: Kernel, calls: seq<Call>, node: NodeId)
    requires k.graph.Valid() && node in k.balances
    ensures node in Run(h, k, calls).balances
    ensures k.balances[node] == Run(h, k, calls).balances[node] + Deducted(h, k, calls, node)
  {
    if |calls| > 0 {
      DeductionsConserve(h, k, calls[..|calls| - 1], node);
      StepConserves(h, Run(h, k, calls[..|calls| - 1]), calls[|calls| - 1], node);
    }
  }
}
