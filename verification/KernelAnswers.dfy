/** What the guest is answered and what the log says of it, call by call, in terms of rights, balances and edges. */
module KernelAnswers {
  import opened Types
  import opened Audit
  import opened Capability
  import opened Graph
  import opened KernelSpec
  import P = PolicySpec
  import L = LedgerSpec
  import PR = PolicyRuns

  // ---------- tokens ----------

  /** Handle `x` names a token that is in force, holds every one of the five rights asked for, and is not used up. */
  ghost predicate Allows(k: Kernel, x: nat, bits: bv32) {
    && x < |k.caps| && k.caps[x].Some?
    && var cap := k.caps[x].value;
       && cap.generation == k.policy.generation
       && (forall i: bv5 :: i < 5 && Holds(bits, i) ==> Holds(cap.rights, i))
       && cap.nonce !in k.policy.revoked && cap.nonce !in k.policy.used && |k.policy.used| < 256
  }

  lemma AllowsIff(k: Kernel, x: nat, bits: bv32)
    requires x < |k.caps| && k.caps[x].Some?
    ensures var (p, r) := P.CheckInner(k.policy, k.caps[x].value, FromBitsTruncate(bits));
      && (r.Ok? <==> Allows(k, x, bits)) && (r.Err? ==> r.error.CapabilityDenied?)
      && p == k.policy.(used := k.policy.used + if Allows(k, x, bits) then [k.caps[x].value.nonce] else [])
  {
    var asked, cap := FromBitsTruncate(bits), k.caps[x].value;
    PR.CheckSays(k.policy, cap, asked, true);
    forall i: bv5
      ensures Holds(asked, i) <==> i < 5 && Holds(bits, i)
    {
      TruncatedHolds(bits, i);
    }
    assert k.policy.used + [] == k.policy.used;
  }

  /** The text of the refusal, which `PolicyRuns.CheckAnswer` ties to its cause. */
  function Cause(k: Kernel, x: nat, bits: bv32): string
    requires x < |k.caps| && k.caps[x].Some?
  {
    var r := P.CheckInner(k.policy, k.caps[x].value, FromBitsTruncate(bits)).1;
    if r.Err? && r.error.CapabilityDenied? then r.error.reason else ""
  }

  lemma CheckDenial(k: Kernel, x: nat, bits: bv32)
    requires x < |k.caps| && k.caps[x].Some?
    ensures DenialOf(P.CheckInner(k.policy, k.caps[x].value, FromBitsTruncate(bits)).1)
      == if Allows(k, x, bits) then None else Some((Halt, Cause(k, x, bits)))
  {
    AllowsIff(k, x, bits);
  }

  lemma CheckLog(h: Hash, k: Kernel, x: u32, bits: bv32, denial: Denial)
    requires k.graph.Valid() && x < |k.caps| && k.caps[x].Some?
    requires DenialOf(P.CheckInner(k.policy, k.caps[x].value, FromBitsTruncate(bits)).1) == denial
    ensures Step(h, k, PolicyCheck(x, bits)).0.log
      == Appended(h, k.log, Request(CapabilityCheck, k.caps[x].value.target, UNTIMED, denial))
  {
  }

  /** A capability check is recorded under the token's target; the log keeps everything else. */
  lemma PolicyCheckRecorded(h: Hash, k: Kernel, x: u32, bits: bv32)
    requires k.graph.Valid() && x < |k.caps| && k.caps[x].Some? && |k.log| < 512
    ensures var log := Step(h, k, PolicyCheck(x, bits)).0.log;
      && |log| == |k.log| + 1 && k.log <= log
      && Says(log[|k.log|], CapabilityCheck, k.caps[x].value.target,
              if Allows(k, x, bits) then None else Some((Halt, Cause(k, x, bits))))
  {
    var denial := if Allows(k, x, bits) then None else Some((Halt, Cause(k, x, bits)));
    CheckDenial(k, x, bits);
    CheckLog(h, k, x, bits, denial);
    AppendSays(h, k.log, CapabilityCheck, k.caps[x].value.target, denial);
  }

  /** A capability check answers -1 for a handle that names nothing, 0 exactly when the token allows it and the log has
      room, and 1 otherwise. The nonce of a token that allows it is taken, room or not; nothing else changes but the
      log. */
  lemma PolicyCheckAnswer(h: Hash, k: Kernel, x: u32, bits: bv32)
    requires k.graph.Valid()
    ensures var (k', reply) := Step(h, k, PolicyCheck(x, bits));
            var named, allowed := x < |k.caps| && k.caps[x].Some?, Allows(k, x, bits);
      && reply == Code(if !named then -1 else if allowed && |k.log| < 512 then 0 else 1)
      && (!named ==> k' == k) && (|k.log| >= 512 ==> k'.log == k.log)
      && k' == k.(log := k'.log, policy := k.policy.(used := k'.policy.used))
      && (named ==> k'.policy.used == k.policy.used + if allowed then [k.caps[x].value.nonce] else [])
  {
    if x < |k.caps| && k.caps[x].Some? {
      AllowsIff(k, x, bits);
    }
  }

  // ---------- balances and edges ----------

  /** A deduction answers -1 for node 0, 0 exactly when the node has a balance that covers it and the log has room, and
      2 otherwise. It is recorded under the node, and a denial is a failure, not a halt. */
  lemma DeductAnswer(h: Hash, k: Kernel, node: u32, amount: u64)
    requires k.graph.Valid()
    ensures var (k', reply) := Step(h, k, LedgerDeduct(node, amount));
            var covered := node in k.balances && amount <= k.balances[node];
      && reply == Code(if node == 0 then -1 else if covered && |k.log| < 512 then 0 else 2)
      && (node == 0 || |k.log| >= 512 ==> k' == k)
      && (node != 0 && |k.log| < 512 ==>
            && |k'.log| == |k.log| + 1 && k.log <= k'.log
            && Says(k'.log[|k.log|], ResourceDeduction, node, if covered then None else Some((Failure, "wasm"))))
      && k' == k.(log := k'.log, balances := k'.balances)
      && (reply != Code(0) ==> k'.balances == k.balances)
      && (reply == Code(0) ==> k'.balances == k.balances[node := k.balances[node] - amount])
  {
    if node != 0 && |k.log| < 512 {
      AppendSays(h, k.log, ResourceDeduction, node, DenialOf(Decision(k, LedgerDeduct(node, amount))));
    }
  }

  /** A traversal answers -1 when an id is 0, 0 exactly for an edge of the graph while the log has room, and 3
      otherwise. It is recorded under the source. */
  lemma TraverseAnswer(h: Hash, k: Kernel, src: u32, dst: u32)
    requires k.graph.Valid()
    ensures var (k', reply) := Step(h, k, KernelSpec.Call.TopologyTraverse(src, dst));
            var declared := src != 0 && dst != 0 && (src, dst) in k.graph.Edges();
      && reply == Code(if src == 0 || dst == 0 then -1 else if declared && |k.log| < 512 then 0 else 3)
      && (src == 0 || dst == 0 || |k.log| >= 512 ==> k' == k)
      && (src != 0 && dst != 0 && |k.log| < 512 ==>
            && |k'.log| == |k.log| + 1 && k.log <= k'.log
            && var denial := if declared then None else Some((Halt, "edge not in boot manifest"));
               Says(k'.log[|k.log|], Kind.TopologyTraverse, src, denial))
      && k' == k.(log := k'.log)
  {
    if src != 0 && dst != 0 && |k.log| < 512 {
      AppendSays(h, k.log, Kind.TopologyTraverse, src, DenialOf(k.graph.TraverseInner(src, dst)));
    }
  }

  // ---------- over runs ----------

  /** After any calls, a deduction is permitted exactly when the balance at the start covers it on top of everything
      the node was permitted to deduct since. */
  lemma DeductPermittedIff(h: Hash, k: Kernel, calls: seq<Call>, node: u32, amount: u64)
    requires k.graph.Valid() && node in k.balances
    ensures var now := Run(h, k, calls);
      Step(h, now, LedgerDeduct(node, amount)).1 == Code(0) <==>
        Deducted(h, k, calls, node) + amount <= k.balances[node] && |now.log| < 512
  {
    DeductionsConserve(h, k, calls, node);
    DeductAnswer(h, Run(h, k, calls), node, amount);
  }

  /** A token once registered stays under its handle, and nothing else comes under it. */
  lemma {:induction false} HandlesKept(h: Hash, k: Kernel, calls: seq<Call>, i: nat, j: nat)
    requires k.graph.Valid() && i <= j <= |calls|
    ensures Run(h, k, calls[..i]).caps <= Run(h, k, calls[..j]).caps
    decreases j
  {
    if i < j {
      HandlesKept(h, k, calls, i, j - 1);
      TableKept(h, k, calls, j - 1);
      PrefixFurther(Run(h, k, calls[..i]).caps, Run(h, k, calls[..j - 1]).caps, Run(h, k, calls[..j]).caps);
    }
  }

  lemma PrefixFurther<T>(a: seq<T>, b: seq<T>, c: seq<T>)
    requires a <= b <= c
    ensures a <= c
  {
  }

  lemma TableKept(h: Hash, k: Kernel, calls: seq<Call>, i: nat)
    requires k.graph.Valid() && i < |calls|
    ensures Run(h, k, calls[..i]).caps <= Run(h, k, calls[..i + 1]).caps
  {
    RunStep(h, k, calls, i);
    TableGrows(h, Run(h, k, calls[..i]), calls[i]);
  }

  lemma TableGrows(h: Hash, k: Kernel, call: Call)
    requires k.graph.Valid()
    ensures var (k', reply) := Step(h, k, call);
      if call.RegisterCap? && |k.caps| < 64
      then k' == k.(caps := k.caps + [Some(call.cap)]) && reply == Handle(Some(|k.caps|))
      else k'.caps == k.caps && (call.RegisterCap? ==> k' == k && reply == Handle(None))
  {
  }

  /** If the table is empty at the start, a handle names the token that was registered when the handle was given out. */
  lemma {:induction false} HandleGivenOut(h: Hash, k: Kernel, calls: seq<Call>, x: u32) returns (i: nat)
    requires k.graph.Valid() && k.caps == [] && x < |Run(h, k, calls).caps|
    ensures i < |calls| && calls[i].RegisterCap? && ReplyAt(h, k, calls, i) == Handle(Some(x))
    ensures Run(h, k, calls).caps[x] == Some(calls[i].cap)
  {
    var before := calls[..|calls| - 1];
    TableGrows(h, Run(h, k, before), calls[|calls| - 1]);
    if x < |Run(h, k, before).caps| {
      i := HandleGivenOut(h, k, before, x);
      assert before[..i] == calls[..i];
    } else {
      i := |calls| - 1;
    }
  }

  /** A check is permitted after any calls only if the handle was given out for a token of the gate's generation that
      holds every one of the five rights asked for. */
  lemma PermittedByRegistered(h: Hash, k: Kernel, calls: seq<Call>, x: u32, bits: bv32) returns (i: nat)
    requires k.graph.Valid() && k.caps == [] && Step(h, Run(h, k, calls), PolicyCheck(x, bits)).1 == Code(0)
    ensures i < |calls| && calls[i].RegisterCap? && ReplyAt(h, k, calls, i) == Handle(Some(x))
    ensures forall r: bv5 :: r < 5 && Holds(bits, r) ==> Holds(calls[i].cap.rights, r)
    ensures calls[i].cap.generation == Run(h, k, calls).policy.generation
  {
    PolicyCheckAnswer(h, Run(h, k, calls), x, bits);
    i := HandleGivenOut(h, k, calls, x);
  }
}
