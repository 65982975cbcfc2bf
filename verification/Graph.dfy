/** The topology graph: bit masks while booting, then a sealed graph that can only be traversed. */
module Graph {
  import opened Types
  import opened Bits
  import opened Audit

  /** Position of a node in the masks. */
  function NodeIdx(id: NodeId): Result<nat> {
    if id - 1 >= MAX_NODES then Err(TopologyViolation(id, 0)) else Ok(id - 1)
  }

  // ---------- the sets that the masks stand for ----------

  predicate NodeBit(active: bv64, id: NodeId) {
    id <= MAX_NODES && Bit(active, id - 1)
  }

  predicate EdgeBit(matrix: seq<bv64>, src: NodeId, dst: NodeId)
    requires |matrix| == MAX_NODES
  {
    src <= MAX_NODES && dst <= MAX_NODES && Bit(matrix[src - 1], dst - 1)
  }

  function NodesOf(active: bv64): set<NodeId> {
    set id: NodeId | id <= MAX_NODES && NodeBit(active, id)
  }

  function EdgesOf(matrix: seq<bv64>): set<(NodeId, NodeId)>
    requires |matrix| == MAX_NODES
  {
    set src: NodeId, dst: NodeId | src <= MAX_NODES && dst <= MAX_NODES && EdgeBit(matrix, src, dst) :: (src, dst)
  }

  lemma SetNode(active: bv64, id: NodeId)
    requires id <= MAX_NODES
    ensures NodesOf(SetBit(active, id - 1)) == NodesOf(active) + {id}
  {
    forall n: NodeId | n <= MAX_NODES
      ensures NodeBit(SetBit(active, id - 1), n) <==> n == id || NodeBit(active, n)
    {
      BitOfSetBit(active, id - 1, n - 1);
    }
  }

  lemma SetEdge(matrix: seq<bv64>, src: NodeId, dst: NodeId)
    requires |matrix| == MAX_NODES && src <= MAX_NODES && dst <= MAX_NODES
    ensures EdgesOf(matrix[src - 1 := SetBit(matrix[src - 1], dst - 1)]) == EdgesOf(matrix) + {(src, dst)}
  {
    var after := matrix[src - 1 := SetBit(matrix[src - 1], dst - 1)];
    forall s: NodeId, d: NodeId | s <= MAX_NODES && d <= MAX_NODES
      ensures EdgeBit(after, s, d) <==> (s, d) == (src, dst) || EdgeBit(matrix, s, d)
    {
      BitOfSetBit(matrix[src - 1], dst - 1, d - 1);
    }
  }

  lemma EmptyMasks()
    ensures NodesOf(0) == {} && EdgesOf(seq(MAX_NODES, i => 0)) == {}
  {
    forall i: nat | i < WORD_BITS
      ensures !Bit(0, i)
    {
      NoBitInZero(i);
    }
  }

  /** No edge without both of its ends being active. */
  ghost predicate NoGhostEdges(active: bv64, matrix: seq<bv64>)
    requires |matrix| == MAX_NODES
  {
    forall src, dst :: (src, dst) in EdgesOf(matrix) ==> src in NodesOf(active) && dst in NodesOf(active)
  }

  /** How an edge is refused: by the first end that is out of range, otherwise by both ends. */
  function EdgeRefusal(src: NodeId, dst: NodeId): Error {
    if src > MAX_NODES then TopologyViolation(src, 0)
    else if dst > MAX_NODES then TopologyViolation(dst, 0)
    else TopologyViolation(src, dst)
  }

  // ---------- booting ----------

  class BootingGraph {
    var activeNodes: bv64
    const edgeMatrix: array<bv64>

    ghost predicate Valid()
      reads this, edgeMatrix
    {
      edgeMatrix.Length == MAX_NODES && NoGhostEdges(activeNodes, edgeMatrix[..])
    }

    constructor ()
      ensures Valid() && fresh(edgeMatrix)
      ensures NodesOf(activeNodes) == {} && EdgesOf(edgeMatrix[..]) == {}
    {
      activeNodes := 0;
      edgeMatrix := new bv64[MAX_NODES](i => 0);
      new;
      assert edgeMatrix[..] == seq(MAX_NODES, i => 0);
      EmptyMasks();
    }

    method Activate(id: NodeId) returns (r: Result<()>)
      requires Valid()
      modifies this
      ensures Valid()
      ensures r.Ok? <==> id <= 64
      ensures r.Err? ==> r.error == TopologyViolation(id, 0)
      ensures NodesOf(activeNodes) == old(NodesOf(activeNodes)) + if r.Ok? then {id} else {}
    {
      var idx := NodeIdx(id);
      if idx.Err? {
        return Err(idx.error);
      }
      SetNode(activeNodes, id);
      activeNodes := SetBit(activeNodes, idx.value);
      return Ok(());
    }

    method PermitEdge(src: NodeId, dst: NodeId) returns (r: Result<()>)
      requires Valid()
      modifies edgeMatrix
      ensures Valid()
      ensures r.Ok? <==> src in NodesOf(activeNodes) && dst in NodesOf(activeNodes)
      ensures r.Err? ==> r.error == EdgeRefusal(src, dst)
      ensures EdgesOf(edgeMatrix[..]) == old(EdgesOf(edgeMatrix[..])) + if r.Ok? then {(src, dst)} else {}
    {
      var si, di := NodeIdx(src), NodeIdx(dst);
      if si.Err? {
        return Err(si.error);
      }
      if di.Err? {
        return Err(di.error);
      }
      if !Bit(activeNodes, si.value) || !Bit(activeNodes, di.value) {
        return Err(TopologyViolation(src, dst));
      }
      SetEdge(edgeMatrix[..], src, dst);
      ghost var before := edgeMatrix[..];
      edgeMatrix[si.value] := SetBit(edgeMatrix[si.value], di.value);
      assert edgeMatrix[..] == before[src - 1 := SetBit(before[src - 1], dst - 1)];
      return Ok(());
    }

    method Seal() returns (g: OperationalGraph)
      requires Valid()
      ensures g.Valid()
      ensures g.Nodes() == NodesOf(activeNodes) && g.Edges() == EdgesOf(edgeMatrix[..])
    {
      g := OperationalGraph(activeNodes, edgeMatrix[..]);
    }
  }

  // ---------- sealed ----------

  datatype OperationalGraph = OperationalGraph(activeNodes: bv64, edgeMatrix: seq<bv64>) {
    ghost predicate Valid() {
      |edgeMatrix| == MAX_NODES && NoGhostEdges(activeNodes, edgeMatrix)
    }

    ghost function Nodes(): set<NodeId> {
      NodesOf(activeNodes)
    }

    ghost function Edges(): set<(NodeId, NodeId)>
      requires Valid()
    {
      EdgesOf(edgeMatrix)
    }

    function TraverseInner(src: NodeId, dst: NodeId): (r: Result<()>)
      requires Valid()
      ensures r.Ok? <==> (src, dst) in Edges()
      ensures r.Err? ==> r.error == EdgeRefusal(src, dst)
    {
      var si, di := NodeIdx(src), NodeIdx(dst);
      if si.Err? then Err(si.error)
      else if di.Err? then Err(di.error)
      else if !Bit(activeNodes, si.value) || !Bit(activeNodes, di.value) then Err(TopologyViolation(src, dst))
      else if !Bit(edgeMatrix[si.value], di.value) then Err(TopologyViolation(src, dst))
      else Ok(())
    }

    /** The answer to the caller when the log did or did not take the record. */
    function TraverseAnswer(src: NodeId, dst: NodeId, room: bool): Result<()>
      requires Valid()
    {
      var r := TraverseInner(src, dst);
      if !room && r.Ok? then Err(AuditFull) else r
    }

    predicate IsActive(id: NodeId)
      ensures IsActive(id) <==> id in Nodes()
    {
      var i := NodeIdx(id);
      i.Ok? && Bit(activeNodes, i.value)
    }

    /** One record per attempt, and no passage without it. */
    method Traverse(src: NodeId, dst: NodeId, audit: AuditLog) returns (r: Result<()>)
      requires Valid() && audit.Valid()
      modifies audit
      ensures audit.Valid()
      ensures r == TraverseAnswer(src, dst, |old(audit.events)| < MAX_AUDIT_EVENTS)
      ensures audit.events == Appended(audit.h, old(audit.events),
                                       Request(TopologyTraverse, src, UNTIMED, DenialOf(TraverseInner(src, dst))))
    {
      var result := TraverseInner(src, dst);
      var appended := audit.Append(TopologyTraverse, src, UNTIMED, DenialOf(result));
      if !appended && result.Ok? {
        return Err(AuditFull);
      }
      return result;
    }
  }
}
