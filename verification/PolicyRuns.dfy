/** Tokens over whole runs of the capability gate: used at most once, never after revocation. */
module PolicyRuns {
  import opened Types
  import opened Capability
  import opened PolicySpec

  /** A call on the gate. `room` says whether the audit log took the record of the check. */
  datatype Call =
    | Present(cap: Capability, right: Rights, room: bool)
    | Withdraw(id: u64)
    | Advance

  function Next(p: State, call: Call): State {
    match call
    case Present(cap, right, room) => Check(p, cap, right, room).0
    case Withdraw(id) => Revoke(p, id).0
    case Advance => Rotate(p)
  }

  function After(p: State, calls: seq<Call>): State {
    if |calls| == 0 then p else Next(After(p, calls[..|calls| - 1]), calls[|calls| - 1])
  }

  function At(p: State, calls: seq<Call>, i: nat): State
    requires i <= |calls|
  {
    After(p, calls[..i])
  }

  lemma AtNext(p: State, calls: seq<Call>, i: nat)
    requires i < |calls|
    ensures At(p, calls, i + 1) == Next(At(p, calls, i), calls[i])
  {
    assert calls[..i + 1][..i] == calls[..i];
  }

  /** Call `i` presents a token and is answered `Ok`. */
  predicate Permitted(p: State, calls: seq<Call>, i: nat)
    requires i < |calls|
  {
    calls[i].Present? && Check(At(p, calls, i), calls[i].cap, calls[i].right, calls[i].room).1.Ok?
  }

  /** Call `i` revokes an id and is answered `true`. */
  predicate Revoked(p: State, calls: seq<Call>, i: nat)
    requires i < |calls|
  {
    calls[i].Withdraw? && Revoke(At(p, calls, i), calls[i].id).1
  }

  // ---------- one check ----------

  /** A check refused only because the log was full has used up its nonce: in this generation no token with it
      is permitted any more. */
  lemma FullLogBurnsNonce(p: State, cap: Capability, right: Rights, calls: seq<Call>, i: nat)
    requires Check(p, cap, right, false).1 == Err(AuditFull)
    requires i < |calls| && Permitted(Check(p, cap, right, false).0, calls, i)
    requires calls[i].cap.nonce == cap.nonce && calls[i].cap.generation == cap.generation
    ensures exists k :: 0 <= k < i && SaturatedAdvance(Check(p, cap, right, false).0, calls, k)
  {
    var p' := Check(p, cap, right, false).0;
    assert p'.used[|p'.used| - 1] == cap.nonce;
    if !(exists k :: 0 <= k < i && SaturatedAdvance(p', calls, k)) {
      assert calls[..0] == [];
      MemoryKept(p', calls, 0, i);
    }
  }

  // ---------- what the gate remembers ----------

  /** Call `k` rotates a generation that is already the largest one. */
  predicate SaturatedAdvance(p: State, calls: seq<Call>, k: nat)
    requires k < |calls|
  {
    calls[k].Advance? && At(p, calls, k).generation == U64_MAX
  }

  /** The generation did not go back, and within one generation nothing used or revoked was forgotten. */
  ghost predicate Remembers(a: State, b: State) {
    && a.generation <= b.generation
    && (a.generation == b.generation ==> a.used <= b.used && a.revoked <= b.revoked)
  }

  lemma NextRemembers(p: State, call: Call)
    requires !(call.Advance? && p.generation == U64_MAX)
    ensures Remembers(p, Next(p, call))
  {
    match call
    case Present(cap, right, room) => assert p.used <= CheckInner(p, cap, right).0.used;
    case Withdraw(_) =>
    case Advance =>
  }

  lemma RemembersTransitive(a: State, b: State, c: State)
    requires Remembers(a, b) && Remembers(b, c)
    ensures Remembers(a, c)
  {
  }

  lemma {:induction false} MemoryKept(p: State, calls: seq<Call>, i: nat, j: nat)
    requires i <= j <= |calls|
    requires forall k :: i <= k < j ==> !SaturatedAdvance(p, calls, k)
    ensures Remembers(At(p, calls, i), At(p, calls, j))
    decreases j - i
  {
    if i < j {
      MemoryKept(p, calls, i, j - 1);
      assert !SaturatedAdvance(p, calls, j - 1);
      NextRemembers(At(p, calls, j - 1), calls[j - 1]);
      AtNext(p, calls, j - 1);
      RemembersTransitive(At(p, calls, i), At(p, calls, j - 1), At(p, calls, j));
    }
  }

  /** If one token of a generation and nonce is permitted twice, the generation was the largest one and was
      rotated in between. */
  lemma TwicePermitted(p: State, calls: seq<Call>, i: nat, j: nat)
    requires i < j < |calls| && Permitted(p, calls, i) && Permitted(p, calls, j)
    requires calls[i].cap.nonce == calls[j].cap.nonce && calls[i].cap.generation == calls[j].cap.generation
    ensures exists k :: i < k < j && SaturatedAdvance(p, calls, k)
  {
    AtNext(p, calls, i);
    var a := At(p, calls, i + 1);
    assert a.used[|a.used| - 1] == calls[i].cap.nonce;
    if !(exists k :: i < k < j && SaturatedAdvance(p, calls, k)) {
      MemoryKept(p, calls, i + 1, j);
    }
  }

  /** The same for a token permitted after its nonce was revoked in its generation. */
  lemma PermittedAfterRevoked(p: State, calls: seq<Call>, i: nat, j: nat)
    requires i < j < |calls| && Revoked(p, calls, i) && Permitted(p, calls, j)
    requires calls[i].id == calls[j].cap.nonce && At(p, calls, i).generation == calls[j].cap.generation
    ensures exists k :: i < k < j && SaturatedAdvance(p, calls, k)
  {
    AtNext(p, calls, i);
    if !(exists k :: i < k < j && SaturatedAdvance(p, calls, k)) {
      MemoryKept(p, calls, i + 1, j);
    }
  }

  // ---------- exactly when it cannot happen ----------

  function Rotations(calls: seq<Call>): nat {
    if |calls| == 0 then 0 else Rotations(calls[..|calls| - 1]) + if calls[|calls| - 1].Advance? then 1 else 0
  }

  lemma {:induction false} RotationsGrow(calls: seq<Call>, i: nat)
    requires i <= |calls|
    ensures Rotations(calls[..i]) <= Rotations(calls)
    ensures i < |calls| && calls[i].Advance? ==> Rotations(calls[..i]) < Rotations(calls)
    decreases |calls|
  {
    if i < |calls| {
      var rest := calls[..|calls| - 1];
      assert rest[..i] == calls[..i];
      RotationsGrow(rest, i);
    } else {
      assert calls[..i] == calls;
    }
  }

  lemma {:induction false} GenerationCounts(g: u64, calls: seq<Call>)
    ensures After(New(g), calls).generation == if g + Rotations(calls) <= U64_MAX then g + Rotations(calls) else U64_MAX
  {
    if |calls| > 0 {
      GenerationCounts(g, calls[..|calls| - 1]);
    }
  }

  /** Each pair of generation and nonce is permitted at most once in the run. */
  ghost predicate UsedOnce(p: State, calls: seq<Call>) {
    forall i, j :: (0 <= i < j < |calls| && Permitted(p, calls, i) && Permitted(p, calls, j)) ==>
      calls[i].cap.nonce != calls[j].cap.nonce || calls[i].cap.generation != calls[j].cap.generation
  }

  /** No token is permitted after its nonce was revoked in its generation. */
  ghost predicate RevokedForGood(p: State, calls: seq<Call>) {
    forall i, j :: (0 <= i < j < |calls| && Revoked(p, calls, i) && Permitted(p, calls, j)) ==>
      calls[i].id != calls[j].cap.nonce || At(p, calls, i).generation != calls[j].cap.generation
  }

  lemma RunIsSafe(g: u64, calls: seq<Call>)
    requires g + Rotations(calls) <= U64_MAX
    ensures UsedOnce(New(g), calls) && RevokedForGood(New(g), calls)
  {
    var p := New(g);
    forall k | 0 <= k < |calls|
      ensures !SaturatedAdvance(p, calls, k)
    {
      GenerationCounts(g, calls[..k]);
      RotationsGrow(calls, k);
    }
    forall i, j | 0 <= i < j < |calls| && Permitted(p, calls, i) && Permitted(p, calls, j)
      ensures calls[i].cap.nonce != calls[j].cap.nonce || calls[i].cap.generation != calls[j].cap.generation
    {
      if calls[i].cap.nonce == calls[j].cap.nonce && calls[i].cap.generation == calls[j].cap.generation {
        TwicePermitted(p, calls, i, j);
      }
    }
    forall i, j | 0 <= i < j < |calls| && Revoked(p, calls, i) && Permitted(p, calls, j)
      ensures calls[i].id != calls[j].cap.nonce || At(p, calls, i).generation != calls[j].cap.generation
    {
      if calls[i].id == calls[j].cap.nonce && At(p, calls, i).generation == calls[j].cap.generation {
        PermittedAfterRevoked(p, calls, i, j);
      }
    }
  }

  function Advances(n: nat): (calls: seq<Call>)
    ensures |calls| == n
  {
    if n == 0 then [] else Advances(n - 1) + [Advance]
  }

  lemma {:induction false} AdvancesState(g: u64, n: nat)
    ensures Rotations(Advances(n)) == n
    ensures After(New(g), Advances(n)).used == [] && After(New(g), Advances(n)).revoked == {}
  {
    if n > 0 {
      AdvancesState(g, n - 1);
      assert Advances(n)[..n - 1] == Advances(n - 1);
    }
  }

  /** A token of the largest generation that asks for no right, and the revocation of its nonce. */
  const USE: Call := Present(Capability(1, 1, 0, U64_MAX, 0), 0, true)
  const REVOKE: Call := Withdraw(0)

  /** The call, a rotation, and the use of the token. */
  function AndUse(fill: seq<Call>, call: Call): seq<Call> {
    fill + [call] + [Advance] + [USE]
  }

  /** Once the last rotation saturates, the generation does not change and both memories are lost: the token may be
      used again, and its revocation is forgotten. */
  lemma SaturatedRunsAreUnsafe(g: u64, n: nat) returns (fill: seq<Call>)
    requires g + n > U64_MAX
    ensures Rotations(AndUse(fill, USE)) == n && !UsedOnce(New(g), AndUse(fill, USE))
    ensures Rotations(AndUse(fill, REVOKE)) == n && !RevokedForGood(New(g), AndUse(fill, REVOKE))
  {
    fill := Advances(n - 1);
    AdvancesState(g, n - 1);
    GenerationCounts(g, fill);
    OneMoreRotation(fill, USE);
    OneMoreRotation(fill, REVOKE);
    UsedAgain(New(g), fill);
    UsedAfterRevoked(New(g), fill);
  }

  lemma OneMoreRotation(fill: seq<Call>, call: Call)
    requires !call.Advance?
    ensures Rotations(AndUse(fill, call)) == Rotations(fill) + 1
  {
    RotationsAppend(fill, call);
    RotationsAppend(fill + [call], Advance);
    RotationsAppend(fill + [call] + [Advance], USE);
  }

  lemma OnlyAdvanceMoves(p: State, call: Call)
    requires !call.Advance?
    ensures Next(p, call).generation == p.generation
  {
  }

  lemma UsableAfterRotation(p: State)
    requires p.generation == U64_MAX
    ensures Check(Rotate(p), USE.cap, USE.right, USE.room).1.Ok?
  {
  }

  /** At the largest generation the token is permitted after the rotation, whatever the call before it was. */
  lemma RotatedBack(p: State, fill: seq<Call>, call: Call)
    requires After(p, fill).generation == U64_MAX && !call.Advance?
    ensures var calls, k := AndUse(fill, call), |fill|;
      At(p, calls, k) == After(p, fill) && Permitted(p, calls, k + 2) && calls[k] == call && calls[k + 2] == USE
  {
    var calls, k := AndUse(fill, call), |fill|;
    assert calls[..k] == fill;
    AtNext(p, calls, k);
    AtNext(p, calls, k + 1);
    OnlyAdvanceMoves(After(p, fill), call);
    UsableAfterRotation(At(p, calls, k + 1));
  }

  lemma UsedAgain(p: State, fill: seq<Call>)
    requires After(p, fill).generation == U64_MAX && After(p, fill).used == [] && After(p, fill).revoked == {}
    ensures !UsedOnce(p, AndUse(fill, USE))
  {
    RotatedBack(p, fill, USE);
    assert Permitted(p, AndUse(fill, USE), |fill|);
  }

  lemma UsedAfterRevoked(p: State, fill: seq<Call>)
    requires After(p, fill).generation == U64_MAX && After(p, fill).revoked == {}
    ensures !RevokedForGood(p, AndUse(fill, REVOKE))
  {
    RotatedBack(p, fill, REVOKE);
    assert Revoked(p, AndUse(fill, REVOKE), |fill|);
  }

  lemma RotationsAppend(calls: seq<Call>, call: Call)
    ensures Rotations(calls + [call]) == Rotations(calls) + if call.Advance? then 1 else 0
  {
    assert (calls + [call])[..|calls|] == calls;
  }

  /** Starting at generation `g`, every run with `n` rotations uses each token at most once if and only if the counter
      has room for the `n` rotations, and every such run keeps every revocation under the same condition. */
  lemma TokensSafeIff(g: u64, n: nat)
    ensures (forall calls :: Rotations(calls) == n ==> UsedOnce(New(g), calls)) <==> g + n <= U64_MAX
    ensures (forall calls :: Rotations(calls) == n ==> RevokedForGood(New(g), calls)) <==> g + n <= U64_MAX
  {
    if g + n <= U64_MAX {
      forall calls | Rotations(calls) == n
        ensures UsedOnce(New(g), calls) && RevokedForGood(New(g), calls)
      {
        RunIsSafe(g, calls);
      }
    } else {
      var fill := SaturatedRunsAreUnsafe(g, n);
    }
  }

  // ---------- delegation chains at the gate ----------

  /** If the last token of a delegation chain is permitted for a right, every token of the chain held the right
      and is of the current generation, and every token that delegated held DELEGATE. */
  lemma PermittedChain(p: State, tokens: seq<Capability>, right: Rights, room: bool, i: nat)
    requires DelegationChain(tokens) && i < |tokens|
    requires Check(p, tokens[|tokens| - 1], right, room).1.Ok?
    ensures tokens[i].generation == p.generation && Covers(tokens[i].rights, right)
    ensures i < |tokens| - 1 ==> Holds(tokens[i].rights, 3) && tokens[i + 1].issuer == tokens[i].target
  {
    ChainShrinks(tokens, i, |tokens| - 1);
    ContainsIff(tokens[|tokens| - 1].rights, right);
    if i < |tokens| - 1 {
      ChainShrinks(tokens, i + 1, |tokens| - 1);
    }
  }

  // ---------- the answers, from the calls alone ----------

  /** Call `i` presents a token whose nonce is taken: it is answered `Ok`, or only the log refused. */
  predicate Spends(p: State, calls: seq<Call>, i: nat)
    requires i < |calls|
  {
    calls[i].Present?
    && Check(At(p, calls, i), calls[i].cap, calls[i].right, calls[i].room).1 in {Ok(()), Err(AuditFull)}
  }

  /** No rotation from call `i` on. */
  ghost predicate Unrotated(calls: seq<Call>, i: nat) {
    forall k :: i <= k < |calls| ==> !calls[k].Advance?
  }

  /** The calls since the last rotation that took a nonce, and those that revoked an id. */
  ghost function SpentCalls(p: State, calls: seq<Call>): set<nat> {
    set i: nat | i < |calls| && Spends(p, calls, i) && Unrotated(calls, i)
  }

  ghost function RevokedCalls(p: State, calls: seq<Call>): set<nat> {
    set i: nat | i < |calls| && Revoked(p, calls, i) && Unrotated(calls, i)
  }

  /** The nonces presented, and the ids withdrawn, by some of the calls. */
  ghost function NoncesAt(calls: seq<Call>, positions: set<nat>): set<u64> {
    set i | i in positions && i < |calls| && calls[i].Present? :: calls[i].cap.nonce
  }

  ghost function IdsAt(calls: seq<Call>, positions: set<nat>): set<u64> {
    set i | i in positions && i < |calls| && calls[i].Withdraw? :: calls[i].id
  }

  ghost function SpentNonces(p: State, calls: seq<Call>): set<u64> {
    NoncesAt(calls, SpentCalls(p, calls))
  }

  ghost function RevokedIds(p: State, calls: seq<Call>): set<u64> {
    IdsAt(calls, RevokedCalls(p, calls))
  }

  lemma OneMoreAt(calls: seq<Call>, positions: set<nat>)
    requires |calls| > 0 && forall i :: i in positions ==> i < |calls| - 1
    ensures var before, n := calls[..|calls| - 1], |calls| - 1;
      && |positions + {n}| == |positions| + 1
      && NoncesAt(calls, positions) == NoncesAt(before, positions)
      && IdsAt(calls, positions) == IdsAt(before, positions)
      && (calls[n].Present? ==> NoncesAt(calls, positions + {n}) == NoncesAt(before, positions) + {calls[n].cap.nonce})
      && (calls[n].Withdraw? ==> IdsAt(calls, positions + {n}) == IdsAt(before, positions) + {calls[n].id})
  {
  }

  lemma SameAt(p: State, calls: seq<Call>, i: nat)
    requires i < |calls| - 1
    ensures At(p, calls[..|calls| - 1], i) == At(p, calls, i)
  {
    assert calls[..|calls| - 1][..i] == calls[..i];
  }

  lemma SameUnrotated(calls: seq<Call>, i: nat)
    requires i < |calls| - 1
    ensures Unrotated(calls, i) <==> !calls[|calls| - 1].Advance? && Unrotated(calls[..|calls| - 1], i)
  {
  }

  lemma InSpentCalls(p: State, calls: seq<Call>, i: nat)
    requires |calls| > 0
    ensures var before, n := calls[..|calls| - 1], |calls| - 1;
      i in SpentCalls(p, calls) <==>
        !calls[n].Advance? && (i in SpentCalls(p, before) || (i == n && Spends(p, calls, n)))
  {
    if i < |calls| - 1 {
      SameAt(p, calls, i);
      SameUnrotated(calls, i);
    }
  }

  lemma LastSpent(p: State, calls: seq<Call>)
    requires |calls| > 0
    ensures var before, n := calls[..|calls| - 1], |calls| - 1;
      SpentCalls(p, calls)
      == if calls[n].Advance? then {} else SpentCalls(p, before) + if Spends(p, calls, n) then {n} else {}
  {
    forall i: nat
      ensures i in SpentCalls(p, calls) <==>
        !calls[|calls| - 1].Advance?
        && (i in SpentCalls(p, calls[..|calls| - 1]) || (i == |calls| - 1 && Spends(p, calls, |calls| - 1)))
    {
      InSpentCalls(p, calls, i);
    }
  }

  lemma InRevokedCalls(p: State, calls: seq<Call>, i: nat)
    requires |calls| > 0
    ensures var before, n := calls[..|calls| - 1], |calls| - 1;
      i in RevokedCalls(p, calls) <==>
        !calls[n].Advance? && (i in RevokedCalls(p, before) || (i == n && Revoked(p, calls, n)))
  {
    if i < |calls| - 1 {
      SameAt(p, calls, i);
      SameUnrotated(calls, i);
    }
  }

  lemma LastRevoked(p: State, calls: seq<Call>)
    requires |calls| > 0
    ensures var before, n := calls[..|calls| - 1], |calls| - 1;
      RevokedCalls(p, calls)
      == if calls[n].Advance? then {} else RevokedCalls(p, before) + if Revoked(p, calls, n) then {n} else {}
  {
    forall i: nat
      ensures i in RevokedCalls(p, calls) <==>
        !calls[|calls| - 1].Advance?
        && (i in RevokedCalls(p, calls[..|calls| - 1]) || (i == |calls| - 1 && Revoked(p, calls, |calls| - 1)))
    {
      InRevokedCalls(p, calls, i);
    }
  }

  /** What the gate remembers is what the calls since the last rotation did. */
  ghost predicate RecallsSpent(now: State, p: State, calls: seq<Call>) {
    (set id | id in now.used) == SpentNonces(p, calls) && |now.used| == |SpentCalls(p, calls)|
  }

  ghost predicate RecallsRevoked(now: State, p: State, calls: seq<Call>) {
    && now.revoked == RevokedIds(p, calls)
    && now.epoch == (if |RevokedCalls(p, calls)| <= U64_MAX then |RevokedCalls(p, calls)| else U64_MAX)
  }

  lemma SpentGrows(p: State, calls: seq<Call>)
    requires |calls| > 0 && !calls[|calls| - 1].Advance?
    ensures var before, n := calls[..|calls| - 1], |calls| - 1;
      if Spends(p, calls, n)
      then
        && SpentNonces(p, calls) == SpentNonces(p, before) + {calls[n].cap.nonce}
        && |SpentCalls(p, calls)| == |SpentCalls(p, before)| + 1
      else SpentNonces(p, calls) == SpentNonces(p, before) && SpentCalls(p, calls) == SpentCalls(p, before)
  {
    LastSpent(p, calls);
    OneMoreAt(calls, SpentCalls(p, calls[..|calls| - 1]));
  }

  lemma RevokedGrows(p: State, calls: seq<Call>)
    requires |calls| > 0 && !calls[|calls| - 1].Advance?
    ensures var before, n := calls[..|calls| - 1], |calls| - 1;
      if Revoked(p, calls, n)
      then
        && RevokedIds(p, calls) == RevokedIds(p, before) + {calls[n].id}
        && |RevokedCalls(p, calls)| == |RevokedCalls(p, before)| + 1
      else RevokedIds(p, calls) == RevokedIds(p, before) && RevokedCalls(p, calls) == RevokedCalls(p, before)
  {
    LastRevoked(p, calls);
    OneMoreAt(calls, RevokedCalls(p, calls[..|calls| - 1]));
  }

  lemma NextUsed(p: State, call: Call)
    ensures Next(p, call).used
      == match call
         case Present(cap, right, room) =>
           if Check(p, cap, right, room).1 in {Ok(()), Err(AuditFull)} then p.used + [cap.nonce] else p.used
         case Withdraw(_) => p.used
         case Advance => []
  {
  }

  lemma NextRevoked(p: State, call: Call)
    ensures var p' := Next(p, call);
      match call
      case Present(_, _, _) => p'.revoked == p.revoked && p'.epoch == p.epoch
      case Withdraw(id) =>
        if Revoke(p, id).1 then p'.revoked == p.revoked + {id} && p'.epoch == SaturatingAdd(p.epoch, 1)
        else p'.revoked == p.revoked && p'.epoch == p.epoch
      case Advance => p'.revoked == {} && p'.epoch == 0
  {
  }

  lemma SpentStep(p: State, calls: seq<Call>, was: State, now: State)
    requires |calls| > 0 && was == After(p, calls[..|calls| - 1]) && now == Next(was, calls[|calls| - 1])
    requires RecallsSpent(was, p, calls[..|calls| - 1])
    ensures RecallsSpent(now, p, calls)
  {
    var before, last := calls[..|calls| - 1], calls[|calls| - 1];
    NextUsed(was, last);
    LastSpent(p, calls);
    if !last.Advance? {
      SpentGrows(p, calls);
      if Spends(p, calls, |calls| - 1) {
        assert (set id | id in was.used + [last.cap.nonce]) == (set id | id in was.used) + {last.cap.nonce};
      }
    }
  }

  lemma RevokedStep(p: State, calls: seq<Call>, was: State, now: State)
    requires |calls| > 0 && was == After(p, calls[..|calls| - 1]) && now == Next(was, calls[|calls| - 1])
    requires RecallsRevoked(was, p, calls[..|calls| - 1])
    ensures RecallsRevoked(now, p, calls)
  {
    NextRevoked(was, calls[|calls| - 1]);
    LastRevoked(p, calls);
    if !calls[|calls| - 1].Advance? {
      RevokedGrows(p, calls);
    }
  }

  lemma {:induction false} RecallsAlways(g: u64, calls: seq<Call>)
    ensures RecallsSpent(After(New(g), calls), New(g), calls) && RecallsRevoked(After(New(g), calls), New(g), calls)
  {
    var p := New(g);
    if |calls| > 0 {
      var was := After(p, calls[..|calls| - 1]);
      RecallsAlways(g, calls[..|calls| - 1]);
      SpentStep(p, calls, was, After(p, calls));
      RevokedStep(p, calls, was, After(p, calls));
    }
  }

  /** The generation of a gate that started at `g`. */
  function GenerationAfter(g: u64, calls: seq<Call>): u64 {
    if g + Rotations(calls) <= U64_MAX then g + Rotations(calls) else U64_MAX
  }

  /** What stands for and against a token, from the calls alone. */
  ghost predicate Authorised(g: u64, calls: seq<Call>, cap: Capability, right: Rights) {
    cap.generation == GenerationAfter(g, calls) && Covers(cap.rights, right)
  }

  /** The memory of the gate, asked about one token. */
  lemma Standing(g: u64, calls: seq<Call>, cap: Capability, right: Rights)
    ensures var p := After(New(g), calls);
      && (Authorised(g, calls, cap, right) <==> cap.generation == p.generation && Covers(cap.rights, right))
      && (cap.nonce in p.revoked <==> cap.nonce in RevokedIds(New(g), calls))
      && (cap.nonce in p.used <==> cap.nonce in SpentNonces(New(g), calls))
      && |p.used| == |SpentCalls(New(g), calls)|
  {
    var p := After(New(g), calls);
    RecallsAlways(g, calls);
    GenerationCounts(g, calls);
    assert cap.nonce in p.used <==> cap.nonce in (set id | id in p.used);
  }

  lemma CheckSays(p: State, cap: Capability, right: Rights, room: bool)
    ensures var r := Check(p, cap, right, room).1;
            var authorised := cap.generation == p.generation && Covers(cap.rights, right);
            var revoked, used, full := cap.nonce in p.revoked, cap.nonce in p.used, |p.used| >= 256;
      && (r == Ok(()) <==> authorised && !revoked && !used && !full && room)
      && (r == Err(AuditFull) <==> authorised && !revoked && !used && !full && !room)
  {
    ContainsIff(cap.rights, right);
  }

  lemma RefusalSays(p: State, cap: Capability, right: Rights, room: bool)
    ensures var r := Check(p, cap, right, room).1;
            var authorised := cap.generation == p.generation && Covers(cap.rights, right);
            var revoked, used, full := cap.nonce in p.revoked, cap.nonce in p.used, |p.used| >= 256;
      && (authorised && !revoked && !used && full ==>
            r == Err(CapabilityDenied("nonce window exhausted; rotate generation")))
      && (authorised && !revoked && used ==> r == Err(CapabilityDenied("nonce replayed")))
      && (authorised && revoked ==> r == Err(CapabilityDenied("capability revoked")))
      && (!authorised ==> r == Err(CapabilityDenied("token expired, insufficient rights, or wrong generation")))
  {
    ContainsIff(cap.rights, right);
  }

  /** The answer to a check after any calls, from the calls alone. The token is permitted exactly when it is of the
      current generation, holds every right asked for, its nonce was neither revoked nor taken since the last rotation,
      fewer than 256 nonces were taken since then, and the log has room. A refusal names the first that fails. */
  lemma CheckAnswer(g: u64, calls: seq<Call>, cap: Capability, right: Rights, room: bool)
    ensures var r := Check(After(New(g), calls), cap, right, room).1;
            var authorised := Authorised(g, calls, cap, right);
            var revoked := cap.nonce in RevokedIds(New(g), calls);
            var used, full := cap.nonce in SpentNonces(New(g), calls), |SpentCalls(New(g), calls)| >= 256;
      && (r == Ok(()) <==> authorised && !revoked && !used && !full && room)
      && (r == Err(AuditFull) <==> authorised && !revoked && !used && !full && !room)
      && (authorised && !revoked && !used && full ==>
            r == Err(CapabilityDenied("nonce window exhausted; rotate generation")))
      && (authorised && !revoked && used ==> r == Err(CapabilityDenied("nonce replayed")))
      && (authorised && revoked ==> r == Err(CapabilityDenied("capability revoked")))
      && (!authorised ==> r == Err(CapabilityDenied("token expired, insufficient rights, or wrong generation")))
  {
    var p := After(New(g), calls);
    Standing(g, calls, cap, right);
    CheckSays(p, cap, right, room);
    RefusalSays(p, cap, right, room);
  }

  /** The answer to a revocation after any calls: it is taken unless 256 other ids were revoked since the last rotation.
      The count the gate keeps is the number of revocations taken since then. */
  lemma RevokeAnswer(g: u64, calls: seq<Call>, id: u64)
    ensures var p, revoked := After(New(g), calls), RevokedIds(New(g), calls);
      && (Revoke(p, id).1 <==> id in revoked || |revoked| < 256)
      && (|RevokedCalls(New(g), calls)| <= U64_MAX ==> p.epoch == |RevokedCalls(New(g), calls)|)
  {
    RecallsAlways(g, calls);
  }
}
