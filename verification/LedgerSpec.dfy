/** Per-node resource balances on values, and what is conserved over runs. */
module LedgerSpec {
  import opened Types

  type Balances = map<NodeId, u64>

  function Seed(m: Balances, node: NodeId, ceiling: u64): (Balances, Result<()>) {
    if node in m then (m, Err(ManifestInvalid(DuplicateQuota)))
    else if |m| >= MAX_NODES then (m, Err(ManifestInvalid(LedgerFull)))
    else (m[node := ceiling], Ok(()))
  }

  function Deduct(m: Balances, node: NodeId, amount: u64): (Balances, Option<u64>) {
    if node in m && amount <= m[node] then (m[node := m[node] - amount], Some(m[node] - amount))
    else (m, None)
  }

  function Outcome(left: Option<u64>, resource: string): Result<u64> {
    match left
    case Some(balance) => Ok(balance)
    case None => Err(QuotaExceeded(resource))
  }

  /** One charge: refused before the balance is looked at when the log has no room. */
  function Charge(m: Balances, node: NodeId, amount: u64, resource: string, room: bool): (Balances, Result<u64>) {
    if !room then (m, Err(AuditFull))
    else
      var (m', left) := Deduct(m, node, amount);
      (m', Outcome(left, resource))
  }

  // ---------- conservation ----------

  datatype Call =
    | Grant(node: NodeId, ceiling: u64)
    | Spend(node: NodeId, amount: u64, resource: string, room: bool)

  function Next(m: Balances, call: Call): Balances {
    match call
    case Grant(node, ceiling) => Seed(m, node, ceiling).0
    case Spend(node, amount, resource, room) => Charge(m, node, amount, resource, room).0
  }

  /** The ledger after the given calls, starting empty. */
  function After(calls: seq<Call>): Balances {
    if |calls| == 0 then map[] else Next(After(calls[..|calls| - 1]), calls[|calls| - 1])
  }

  /** The sum of all successful seeds of `node`. */
  function Granted(calls: seq<Call>, node: NodeId): nat {
    if |calls| == 0 then 0
    else
      var before, last := calls[..|calls| - 1], calls[|calls| - 1];
      Granted(before, node)
      + if last.Grant? && last.node == node && Seed(After(before), node, last.ceiling).1.Ok? then last.ceiling else 0
  }

  /** The sum of the amounts of all charges to `node` that were answered `Ok`. */
  function Spent(calls: seq<Call>, node: NodeId): nat {
    if |calls| == 0 then 0
    else
      var before, last := calls[..|calls| - 1], calls[|calls| - 1];
      Spent(before, node)
      + if last.Spend? && last.node == node && Charge(After(before), node, last.amount, last.resource, last.room).1.Ok?
        then last.amount else 0
  }

  /** Over any run of seeds and charges: what a node was given is what it has left plus what it spent. */
  lemma {:induction false} Conservation(calls: seq<Call>, node: NodeId)
    ensures node in After(calls) ==> Granted(calls, node) == After(calls)[node] + Spent(calls, node)
    ensures node !in After(calls) ==> Granted(calls, node) == Spent(calls, node) == 0
  {
    if |calls| > 0 {
      Conservation(calls[..|calls| - 1], node);
    }
  }

  /** A node is seeded successfully at most once, so its ceiling is the amount of one call. */
  lemma {:induction false} GrantedOnce(calls: seq<Call>, i: nat)
    requires i < |calls| && calls[i].Grant? && Seed(After(calls[..i]), calls[i].node, calls[i].ceiling).1.Ok?
    ensures calls[i].node in After(calls) && Granted(calls, calls[i].node) == calls[i].ceiling
  {
    var before := calls[..|calls| - 1];
    if i == |calls| - 1 {
      Conservation(before, calls[i].node);
    } else {
      assert before[..i] == calls[..i];
      GrantedOnce(before, i);
    }
  }

  // ---------- the answers, from the calls alone ----------

  /** Call `i` seeds `node` and is answered `Ok`. */
  predicate Seeds(calls: seq<Call>, i: nat, node: NodeId)
    requires i < |calls|
  {
    calls[i].Grant? && calls[i].node == node && Seed(After(calls[..i]), node, calls[i].ceiling).1.Ok?
  }

  ghost predicate Seeded(calls: seq<Call>, node: NodeId) {
    exists i :: 0 <= i < |calls| && Seeds(calls, i, node)
  }

  lemma SeedsBefore(calls: seq<Call>, i: nat, node: NodeId)
    requires i < |calls| - 1
    ensures Seeds(calls[..|calls| - 1], i, node) <==> Seeds(calls, i, node)
  {
    assert calls[..|calls| - 1][..i] == calls[..i];
  }

  lemma SeededStays(calls: seq<Call>, node: NodeId)
    requires |calls| > 0 && Seeded(calls[..|calls| - 1], node)
    ensures Seeded(calls, node)
  {
    var i :| 0 <= i < |calls| - 1 && Seeds(calls[..|calls| - 1], i, node);
    SeedsBefore(calls, i, node);
  }

  lemma SeededEarlier(calls: seq<Call>, node: NodeId)
    requires |calls| > 0 && Seeded(calls, node) && !Seeds(calls, |calls| - 1, node)
    ensures Seeded(calls[..|calls| - 1], node)
  {
    var i :| 0 <= i < |calls| && Seeds(calls, i, node);
    SeedsBefore(calls, i, node);
  }

  lemma SeededNext(calls: seq<Call>, node: NodeId)
    requires |calls| > 0
    ensures Seeded(calls, node) <==> Seeded(calls[..|calls| - 1], node) || Seeds(calls, |calls| - 1, node)
  {
    if Seeded(calls[..|calls| - 1], node) {
      SeededStays(calls, node);
    } else if Seeded(calls, node) && !Seeds(calls, |calls| - 1, node) {
      SeededEarlier(calls, node);
    }
  }

  lemma BalanceNext(calls: seq<Call>, node: NodeId)
    requires |calls| > 0
    ensures node in After(calls) <==> node in After(calls[..|calls| - 1]) || Seeds(calls, |calls| - 1, node)
  {
  }

  /** The nodes that have a balance are those that were seeded. */
  lemma {:induction false} SeededIff(calls: seq<Call>, node: NodeId)
    ensures node in After(calls) <==> Seeded(calls, node)
  {
    if |calls| > 0 {
      SeededIff(calls[..|calls| - 1], node);
      SeededNext(calls, node);
      BalanceNext(calls, node);
    }
  }

  /** The answer to a seed after any calls: taken exactly for a node not seeded before, while fewer than 64 are. */
  lemma SeedAnswer(calls: seq<Call>, node: NodeId, ceiling: u64)
    ensures var seeded := Seeded(calls, node);
            var r := Seed(After(calls), node, ceiling).1;
      && (r == Ok(()) <==> !seeded && |After(calls)| < 64)
      && (r == Err(ManifestInvalid(DuplicateQuota)) <==> seeded)
      && (r == Err(ManifestInvalid(LedgerFull)) <==> !seeded && |After(calls)| >= 64)
  {
    SeededIff(calls, node);
  }

  /** The answer to a charge after any calls, when the log has room: `Ok` with the rest exactly when what the node was
      given covers what it spent, the amount and that rest; otherwise the quota is exceeded, and so it is for a node
      that was never seeded. On a full log nothing is charged. */
  lemma ChargeAnswer(calls: seq<Call>, node: NodeId, amount: u64, resource: string, room: bool, rest: u64)
    ensures var seeded := Seeded(calls, node);
            var r := Charge(After(calls), node, amount, resource, room).1;
      && (r == Ok(rest) <==> room && seeded && Granted(calls, node) == Spent(calls, node) + amount + rest)
      && (r == Err(QuotaExceeded(resource)) <==>
            room && (!seeded || Granted(calls, node) < Spent(calls, node) + amount))
      && (r == Err(AuditFull) <==> !room)
  {
    SeededIff(calls, node);
    Conservation(calls, node);
  }
}
