/** Capability tokens and their delegation. */
module Capability {
  import opened Types

  /** A bit set of rights, as the 32-bit word it is stored in. */
  type Rights = bv32

  const READ_TOPOLOGY: Rights := 0x01
  const ALLOC_RESOURCE: Rights := 0x02
  const SCHEDULE: Rights := 0x04
  const DELEGATE: Rights := 0x08
  const SHUTDOWN: Rights := 0x10
  const ALL_RIGHTS: Rights := 0x1F

  predicate Contains(rights: Rights, other: Rights) {
    rights & other == other
  }

  function FromBitsTruncate(bits: bv32): Rights {
    bits & ALL_RIGHTS
  }

  datatype Capability = Capability(issuer: NodeId, target: NodeId, rights: Rights, generation: u64, nonce: u64)

  predicate Authorises(cap: Capability, right: Rights, generation: u64) {
    cap.generation == generation && Contains(cap.rights, right)
  }

  function Delegate(cap: Capability, target: NodeId, subset: Rights, nonce: u64): Option<Capability> {
    if !Contains(cap.rights, DELEGATE) then None
    else if !Contains(cap.rights, subset) then None
    else Some(Capability(cap.target, target, subset, cap.generation, nonce))
  }

  // ---------- rights, one by one ----------

  /** Right number `i` is in the set: 0 to 4 are READ_TOPOLOGY, ALLOC_RESOURCE, SCHEDULE, DELEGATE and SHUTDOWN. */
  predicate Holds(rights: Rights, i: bv5) {
    (rights >> i) & 1 == 1
  }

  lemma NonZeroHolds(w: Rights)
    requires w != 0
    ensures exists i :: Holds(w, i)
  {
    assert Holds(w, 0) || Holds(w, 1) || Holds(w, 2) || Holds(w, 3) || Holds(w, 4) || Holds(w, 5) || Holds(w, 6)
      || Holds(w, 7) || Holds(w, 8) || Holds(w, 9) || Holds(w, 10) || Holds(w, 11) || Holds(w, 12) || Holds(w, 13)
      || Holds(w, 14) || Holds(w, 15) || Holds(w, 16) || Holds(w, 17) || Holds(w, 18) || Holds(w, 19) || Holds(w, 20)
      || Holds(w, 21) || Holds(w, 22) || Holds(w, 23) || Holds(w, 24) || Holds(w, 25) || Holds(w, 26) || Holds(w, 27)
      || Holds(w, 28) || Holds(w, 29) || Holds(w, 30) || Holds(w, 31);
  }

  lemma MissingRight(rights: Rights, other: Rights, i: bv5)
    ensures Holds(other & !rights, i) <==> Holds(other, i) && !Holds(rights, i)
  {
  }

  /** Every right of one set is in the other. */
  ghost predicate Covers(rights: Rights, other: Rights) {
    forall i :: Holds(other, i) ==> Holds(rights, i)
  }

  /** The test on words is the inclusion of sets. */
  lemma ContainsIff(rights: Rights, other: Rights)
    ensures Contains(rights, other) <==> Covers(rights, other)
  {
    var missing := other & !rights;
    if missing == 0 {
      forall i | Holds(other, i)
        ensures Holds(rights, i)
      {
        MissingRight(rights, other, i);
      }
    } else {
      NonZeroHolds(missing);
      var i :| Holds(missing, i);
      MissingRight(rights, other, i);
    }
  }

  lemma ContainsDelegate(rights: Rights)
    ensures Contains(rights, DELEGATE) <==> Holds(rights, 3)
  {
  }

  /** Truncation keeps the five rights there are, and nothing else. */
  lemma TruncatedHolds(bits: bv32, i: bv5)
    ensures Holds(FromBitsTruncate(bits), i) <==> i < 5 && Holds(bits, i)
  {
  }

  /** A token is delegated exactly by a holder of DELEGATE that has every right it passes on; the new token comes from
      the target of the old one, for its target and generation. */
  lemma DelegateIff(cap: Capability, target: NodeId, subset: Rights, nonce: u64)
    ensures var token := Delegate(cap, target, subset, nonce);
      && (token.Some? <==> Holds(cap.rights, 3) && Covers(cap.rights, subset))
      && (token.Some? ==> token.value == Capability(cap.target, target, subset, cap.generation, nonce))
  {
    ContainsDelegate(cap.rights);
    ContainsIff(cap.rights, subset);
  }

  // ---------- chains of delegation ----------

  /** Each token after the first was delegated from the one before it. */
  ghost predicate DelegationChain(tokens: seq<Capability>) {
    && |tokens| > 0
    && forall i :: 0 < i < |tokens| ==>
      Delegate(tokens[i - 1], tokens[i].target, tokens[i].rights, tokens[i].nonce) == Some(tokens[i])
  }

  /** Along a chain the generation stays, each issuer is the previous target, rights only shrink, and every token
      that was delegated from holds DELEGATE. */
  lemma {:induction false} ChainShrinks(tokens: seq<Capability>, i: nat, j: nat)
    requires DelegationChain(tokens) && i <= j < |tokens|
    ensures tokens[i].generation == tokens[j].generation
    ensures Covers(tokens[i].rights, tokens[j].rights)
    ensures i < j ==> Holds(tokens[i].rights, 3)
    ensures 0 < i ==> tokens[i].issuer == tokens[i - 1].target
    decreases j - i
  {
    if i < j {
      ChainShrinks(tokens, i + 1, j);
      DelegateIff(tokens[i], tokens[i + 1].target, tokens[i + 1].rights, tokens[i + 1].nonce);
    }
  }

  ghost predicate Derivable(root: Capability, cap: Capability) {
    exists tokens: seq<Capability> ::
      DelegationChain(tokens) && |tokens| > 1 && tokens[0] == root && tokens[|tokens| - 1] == cap
  }

  /** Exactly what delegation of any depth can make out of a token: with DELEGATE, any token of the same
      generation with no more rights, and nothing else. */
  lemma DerivableIff(root: Capability, cap: Capability)
    ensures Derivable(root, cap) <==>
      Holds(root.rights, 3) && Covers(root.rights, cap.rights) && root.generation == cap.generation
  {
    if Derivable(root, cap) {
      var tokens :| DelegationChain(tokens) && |tokens| > 1 && tokens[0] == root && tokens[|tokens| - 1] == cap;
      ChainShrinks(tokens, 0, |tokens| - 1);
    }
    if Holds(root.rights, 3) && Covers(root.rights, cap.rights) && root.generation == cap.generation {
      var middle := Capability(root.target, cap.issuer, root.rights, root.generation, 0);
      DelegateIff(root, middle.target, middle.rights, middle.nonce);
      DelegateIff(middle, cap.target, cap.rights, cap.nonce);
      assert DelegationChain([root, middle, cap]);
    }
  }
}
