/** The boot sequence: signed bytes become a sealed graph, a ledger and a policy, or nothing. */
module Boot {
  import opened Types
  import opened Wire
  import opened Manifest
  import opened Decode
  import opened Graph
  import opened Metabolism
  import opened PolicyGate

  // ---------- what a manifest must satisfy to boot ----------

  function EdgeSet(edges: seq<EdgeDecl>): set<(NodeId, NodeId)> {
    set e | e in edges :: (e.src, e.dst)
  }

  function Endpoints(edges: seq<EdgeDecl>): set<NodeId> {
    (set e | e in edges :: e.src) + (set e | e in edges :: e.dst)
  }

  /** Every endpoint fits the 64-node masks. */
  predicate EdgesInRange(edges: seq<EdgeDecl>) {
    forall i :: 0 <= i < |edges| ==> edges[i].src <= 64 && edges[i].dst <= 64
  }

  predicate NoRepeatedNode(quotas: seq<QuotaDecl>) {
    forall i, j :: 0 <= i < j < |quotas| ==> quotas[i].node != quotas[j].node
  }

  /** The first endpoint out of range, in the order in which they are activated. */
  function FirstOutOfRange(edges: seq<EdgeDecl>): Option<NodeId> {
    if |edges| == 0 then None
    else if edges[0].src > MAX_NODES then Some(edges[0].src)
    else if edges[0].dst > MAX_NODES then Some(edges[0].dst)
    else FirstOutOfRange(edges[1..])
  }

  lemma FirstOutOfRangeAt(edges: seq<EdgeDecl>, i: nat)
    requires i < |edges| && EdgesInRange(edges[..i])
    requires edges[i].src > MAX_NODES || edges[i].dst > MAX_NODES
    ensures FirstOutOfRange(edges) == Some(if edges[i].src > MAX_NODES then edges[i].src else edges[i].dst)
    decreases i
  {
    if i > 0 {
      assert edges[..i][0] == edges[0];
      assert edges[1..][..i - 1] == edges[..i][1..];
      FirstOutOfRangeAt(edges[1..], i - 1);
    }
  }

  /** The ledger that the quota list declares. */
  ghost predicate Declares(quotas: seq<QuotaDecl>, m: L.Balances) {
    forall node: NodeId :: QuotaFor(quotas, node) == if node in m then Some(m[node]) else None
  }

  lemma {:induction false} QuotaForAppend(quotas: seq<QuotaDecl>, q: QuotaDecl, node: NodeId)
    ensures QuotaFor(quotas + [q], node)
      == if QuotaFor(quotas, node).Some? then QuotaFor(quotas, node)
         else if q.node == node then Some(q.ceiling) else None
  {
    if |quotas| > 0 {
      assert (quotas + [q])[1..] == quotas[1..] + [q];
      QuotaForAppend(quotas[1..], q, node);
    } else {
      assert quotas + [q] == [q];
    }
  }

  lemma {:induction false} QuotaForSome(quotas: seq<QuotaDecl>, node: NodeId)
    ensures QuotaFor(quotas, node).Some? <==> exists i :: 0 <= i < |quotas| && quotas[i].node == node
  {
    if |quotas| > 0 {
      QuotaForSome(quotas[1..], node);
      if i :| 0 <= i < |quotas| && quotas[i].node == node {
        assert i > 0 ==> quotas[1..][i - 1].node == node;
      }
    }
  }

  // ---------- the two loops ----------

  lemma OneMoreEdge(edges: seq<EdgeDecl>, i: nat)
    requires i < |edges|
    ensures EdgeSet(edges[..i + 1]) == EdgeSet(edges[..i]) + {(edges[i].src, edges[i].dst)}
    ensures Endpoints(edges[..i + 1]) == Endpoints(edges[..i]) + {edges[i].src} + {edges[i].dst}
    ensures EdgesInRange(edges[..i + 1])
      <==> EdgesInRange(edges[..i]) && edges[i].src <= MAX_NODES && edges[i].dst <= MAX_NODES
    ensures EdgesInRange(edges) ==> EdgesInRange(edges[..i + 1])
  {
    assert edges[..i + 1] == edges[..i] + [edges[i]];
  }

  method BuildGraph(edges: seq<EdgeDecl>) returns (r: Result<OperationalGraph>)
    ensures r.Ok? <==> EdgesInRange(edges)
    ensures r.Ok? ==> r.value.Valid() && r.value.Edges() == EdgeSet(edges) && r.value.Nodes() == Endpoints(edges)
    ensures r.Err? ==> exists id :: FirstOutOfRange(edges) == Some(id) && r.error == TopologyViolation(id, 0)
  {
    var booting := new BootingGraph();
    for i := 0 to |edges|
      invariant booting.Valid() && EdgesInRange(edges[..i])
      invariant NodesOf(booting.activeNodes) == Endpoints(edges[..i])
      invariant EdgesOf(booting.edgeMatrix[..]) == EdgeSet(edges[..i])
      invariant fresh(booting) && fresh(booting.edgeMatrix)
    {
      var edge := edges[i];
      OneMoreEdge(edges, i);
      var src := booting.Activate(edge.src);
      if src.Err? {
        FirstOutOfRangeAt(edges, i);
        return Err(src.error);
      }
      var dst := booting.Activate(edge.dst);
      if dst.Err? {
        FirstOutOfRangeAt(edges, i);
        return Err(dst.error);
      }
      var permitted := booting.PermitEdge(edge.src, edge.dst);
      assert permitted.Ok?;  // both ends were activated just before
    }
    assert edges[..|edges|] == edges;
    var graph := booting.Seal();
    return Ok(graph);
  }

  lemma OneMoreQuota(quotas: seq<QuotaDecl>, q: QuotaDecl, m: L.Balances)
    requires Declares(quotas, m) && q.node !in m
    ensures Declares(quotas + [q], m[q.node := q.ceiling])
  {
    forall node: NodeId
      ensures QuotaFor(quotas + [q], node)
        == if node in m[q.node := q.ceiling] then Some(m[q.node := q.ceiling][node]) else None
    {
      QuotaForAppend(quotas, q, node);
    }
  }

  /** A node is in the ledger of a list without repetition exactly when an entry names it. */
  lemma RepeatsIff(quotas: seq<QuotaDecl>, i: nat, m: L.Balances)
    requires i < |quotas| && NoRepeatedNode(quotas[..i]) && Declares(quotas[..i], m)
    ensures NoRepeatedNode(quotas[..i + 1]) <==> quotas[i].node !in m
    ensures quotas[i].node in m ==> !NoRepeatedNode(quotas)
  {
    var node := quotas[i].node;
    QuotaForSome(quotas[..i], node);
    if node in m {
      var k :| 0 <= k < |quotas[..i]| && quotas[..i][k].node == node;
      assert quotas[k].node == quotas[i].node && quotas[..i + 1][k].node == quotas[..i + 1][i].node;
    } else {
      var longer := quotas[..i + 1];
      forall j, k | 0 <= j < k < |longer|
        ensures longer[j].node != longer[k].node
      {
        assert longer[j] == quotas[..i][j];
        assert k < i ==> longer[k] == quotas[..i][k];
      }
    }
  }

  method BuildLedger(quotas: seq<QuotaDecl>) returns (r: Result<Ledger>)
    requires |quotas| <= MAX_NODES
    ensures r.Ok? <==> NoRepeatedNode(quotas)
    ensures r.Ok? ==> fresh(r.value) && r.value.Valid() && Declares(quotas, r.value.balances)
    ensures r.Err? ==> r.error == ManifestInvalid(DuplicateQuota)
  {
    var ledger := new Ledger();
    for i := 0 to |quotas|
      invariant fresh(ledger) && ledger.Valid() && |ledger.balances| == i
      invariant NoRepeatedNode(quotas[..i]) && Declares(quotas[..i], ledger.balances)
    {
      var q := quotas[i];
      RepeatsIff(quotas, i, ledger.balances);
      assert quotas[..i + 1] == quotas[..i] + [q];
      if q.node !in ledger.balances {
        OneMoreQuota(quotas[..i], q, ledger.balances);
      }
      var seeded := ledger.Seed(q.node, q.ceiling);
      if seeded.Err? {
        return Err(seeded.error);
      }
    }
    assert quotas[..|quotas|] == quotas;
    return Ok(ledger);
  }

  // ---------- the boot state ----------

  class BootState {
    const graph: OperationalGraph
    const ledger: Ledger
    const policy: Policy
    const localId: NodeId

    ghost predicate Valid()
      reads this, ledger, policy, policy.revocation
    {
      graph.Valid() && ledger.Valid() && policy.Valid()
    }

    constructor (graph: OperationalGraph, ledger: Ledger, policy: Policy, localId: NodeId)
      ensures this.graph == graph && this.ledger == ledger && this.policy == policy && this.localId == localId
    {
      this.graph, this.ledger, this.policy, this.localId := graph, ledger, policy, localId;
    }
  }

  /** The masks and the ledger give the answers of the manifest's own lists. */
  ghost predicate Refines(state: BootState, m: Manifest)
    requires state.graph.Valid()
    reads state, state.ledger
  {
    && (forall src: NodeId, dst: NodeId :: state.graph.TraverseInner(src, dst).Ok? <==> PermitsEdge(m, src, dst))
    && (forall id: NodeId :: state.graph.IsActive(id) <==>
         exists other :: PermitsEdge(m, id, other) || PermitsEdge(m, other, id))
    && Declares(m.quotas, state.ledger.balances)
  }

  lemma EndpointsIff(m: Manifest, id: NodeId)
    ensures id in Endpoints(m.edges) <==> exists other :: PermitsEdge(m, id, other) || PermitsEdge(m, other, id)
  {
    if id in Endpoints(m.edges) {
      var e :| e in m.edges && (e.src == id || e.dst == id);
      if e.src == id {
        assert PermitsEdge(m, id, e.dst);
      } else {
        assert PermitsEdge(m, e.src, id);
      }
    }
    if other :| PermitsEdge(m, id, other) || PermitsEdge(m, other, id) {
      if PermitsEdge(m, id, other) {
        assert EdgeDecl(id, other).src == id;
      } else {
        assert EdgeDecl(other, id).dst == id;
      }
    }
  }

  lemma EdgeSetIff(m: Manifest, src: NodeId, dst: NodeId)
    ensures (src, dst) in EdgeSet(m.edges) <==> PermitsEdge(m, src, dst)
  {
    if (src, dst) in EdgeSet(m.edges) {
      var e :| e in m.edges && (e.src, e.dst) == (src, dst);
      assert e == EdgeDecl(src, dst);
    }
  }

  /** Boot succeeds exactly when the bytes decode to a manifest whose endpoints are at most 64 and whose quotas
      name no node twice; the result answers every question as the manifest does. */
  method Initialise(raw: seq<byte>, verify: Verifier) returns (r: Result<BootState>)
    ensures r.Ok? <==> var d := DecodeWire(raw, verify);
      d.Ok? && EdgesInRange(d.value.edges) && NoRepeatedNode(d.value.quotas)
    ensures r.Ok? ==>
      && fresh(r.value) && r.value.Valid() && Refines(r.value, DecodeWire(raw, verify).value)
      && r.value.policy.Value() == P.New(0) && r.value.localId == 1
      && fresh(r.value.ledger) && fresh(r.value.policy) && fresh(r.value.policy.revocation)
    ensures DecodeWire(raw, verify).Err? ==> r == Err(DecodeWire(raw, verify).error)
    ensures var d := DecodeWire(raw, verify); d.Ok? && r.Err? ==>
      if EdgesInRange(d.value.edges) then r.error == ManifestInvalid(DuplicateQuota)
      else exists id :: FirstOutOfRange(d.value.edges) == Some(id) && r.error == TopologyViolation(id, 0)
  {
    var decoded := ReadWire(raw, verify);
    if decoded.Err? {
      return Err(decoded.error);
    }
    var m := decoded.value;
    var graph := BuildGraph(m.edges);
    if graph.Err? {
      return Err(graph.error);
    }
    var ledger := BuildLedger(m.quotas);
    if ledger.Err? {
      return Err(ledger.error);
    }
    var policy := new Policy(0);
    var state := new BootState(graph.value, ledger.value, policy, 1);
    forall src: NodeId, dst: NodeId
      ensures graph.value.TraverseInner(src, dst).Ok? <==> PermitsEdge(m, src, dst)
    {
      EdgeSetIff(m, src, dst);
    }
    forall id: NodeId
      ensures graph.value.IsActive(id) <==> exists other :: PermitsEdge(m, id, other) || PermitsEdge(m, other, id)
    {
      EndpointsIff(m, id);
    }
    return Ok(state);
  }
}
