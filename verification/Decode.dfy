/** The manifest decoder as a cursor over the payload bytes. */
module Decode {
  import opened Types
  import opened Wire
  import opened Cbor
  import opened Manifest

  const SIG_LEN: nat := 64
  const MIN_WIRE_LEN: nat := 65

  /** A cursor, as the bytes that have not been read yet. */
  class Decoder {
    var rest: seq<byte>

    constructor (buf: seq<byte>)
      ensures rest == buf
    {
      rest := buf;
    }

    /** Length of the array that starts here; the inner `None` stands for an indefinite length. */
    method Array() returns (r: Option<Option<nat>>)
      modifies this
      ensures r.Some? <==> ReadArray(old(rest)).Some?
      ensures r.Some? ==> ReadArray(old(rest)) == Some((r.value, rest))
    {
      var read := ReadArray(rest);
      if read.None? {
        return None;
      }
      rest := read.value.1;
      return Some(read.value.0);
    }

    method U32() returns (r: Option<nat>)
      modifies this
      ensures r.Some? <==> ReadU32(old(rest)).Some?
      ensures r.Some? ==> ReadU32(old(rest)) == Some((r.value, rest)) && r.value < 0x1_0000_0000
    {
      var read := ReadU32(rest);
      if read.None? {
        return None;
      }
      rest := read.value.1;
      return Some(read.value.0);
    }

    method U64() returns (r: Option<nat>)
      modifies this
      ensures r.Some? <==> ReadU64(old(rest)).Some?
      ensures r.Some? ==> ReadU64(old(rest)) == Some((r.value, rest)) && r.value <= U64_MAX
    {
      var read := ReadU64(rest);
      if read.None? {
        return None;
      }
      ReadHeadBound(rest, UINT);
      rest := read.value.1;
      return Some(read.value.0);
    }
  }

  /** `read` is the specification of one edge; named so that loops can use it without its details. */
  ghost predicate ReadsEdge(read: Reader<EdgeDecl>) {
    forall s {:trigger EdgeAt(s)} :: read(s) == EdgeAt(s)
  }

  method ReadEdge(d: Decoder, ghost read: Reader<EdgeDecl>) returns (r: Result<EdgeDecl>)
    requires ReadsEdge(read)
    modifies d
    ensures r.Ok? ==> read(old(d.rest)) == Ok((r.value, d.rest))
    ensures r.Err? ==> read(old(d.rest)) == Err(r.error)
  {
    assert read(d.rest) == EdgeAt(d.rest);
    var len := d.Array();
    if len.None? {
      return Err(ManifestInvalid(EdgeNotArray));
    }
    if len.value != Some(2) {
      return Err(ManifestInvalid(EdgeNotPair));
    }
    var src := d.U32();
    if src.None? {
      return Err(ManifestInvalid(EdgeSrcNotUint32));
    }
    var dst := d.U32();
    if dst.None? {
      return Err(ManifestInvalid(EdgeDstNotUint32));
    }
    if src.value == 0 {
      return Err(ManifestInvalid(EdgeSrcZero));
    }
    if dst.value == 0 {
      return Err(ManifestInvalid(EdgeDstZero));
    }
    return Ok(EdgeDecl(src.value, dst.value));
  }

  /** `read` is the specification of one quota; named so that loops can use it without its details. */
  ghost predicate ReadsQuota(read: Reader<QuotaDecl>) {
    forall s {:trigger QuotaAt(s)} :: read(s) == QuotaAt(s)
  }

  method ReadQuota(d: Decoder, ghost read: Reader<QuotaDecl>) returns (r: Result<QuotaDecl>)
    requires ReadsQuota(read)
    modifies d
    ensures r.Ok? ==> read(old(d.rest)) == Ok((r.value, d.rest))
    ensures r.Err? ==> read(old(d.rest)) == Err(r.error)
  {
    assert read(d.rest) == QuotaAt(d.rest);
    var len := d.Array();
    if len.None? {
      return Err(ManifestInvalid(QuotaNotArray));
    }
    if len.value != Some(2) {
      return Err(ManifestInvalid(QuotaNotPair));
    }
    var node := d.U32();
    if node.None? {
      return Err(ManifestInvalid(QuotaNodeNotUint32));
    }
    var ceiling := d.U64();
    if ceiling.None? {
      return Err(ManifestInvalid(QuotaCeilingNotUint64));
    }
    if node.value == 0 {
      return Err(ManifestInvalid(QuotaNodeZero));
    }
    return Ok(QuotaDecl(node.value, ceiling.value));
  }

  method ReadEdgeItems(d: Decoder, n: nat, ghost read: Reader<EdgeDecl>) returns (r: Result<seq<EdgeDecl>>)
    requires ReadsEdge(read)
    modifies d
    ensures r.Ok? ==> ItemsFrom(read, [], old(d.rest), n) == Ok((r.value, d.rest))
    ensures r.Err? ==> ItemsFrom(read, [], old(d.rest), n) == Err(r.error)
  {
    ghost var all := ItemsFrom(read, [], d.rest, n);
    var edges := [];
    for i := 0 to n
      invariant all == ItemsFrom(read, edges, d.rest, n - i)
    {
      var edge := ReadEdge(d, read);
      if edge.Err? {
        return Err(edge.error);
      }
      edges := edges + [edge.value];
    }
    return Ok(edges);
  }

  method ReadEdges(d: Decoder) returns (r: Result<seq<EdgeDecl>>)
    modifies d
    ensures r.Ok? ==> ParseEdges(old(d.rest)) == Ok((r.value, d.rest))
    ensures r.Err? ==> ParseEdges(old(d.rest)) == Err(r.error)
  {
    var len := d.Array();
    if len.None? {
      return Err(ManifestInvalid(EdgesNotArray));
    }
    if len.value.None? {
      return Err(ManifestInvalid(EdgesIndefinite));
    }
    var n := len.value.value;
    if n > MAX_EDGES {
      return Err(ManifestInvalid(TooManyEdges));
    }
    r := ReadEdgeItems(d, n, EdgeAt);
  }

  method ReadQuotaItems(d: Decoder, n: nat, ghost read: Reader<QuotaDecl>) returns (r: Result<seq<QuotaDecl>>)
    requires ReadsQuota(read)
    modifies d
    ensures r.Ok? ==> ItemsFrom(read, [], old(d.rest), n) == Ok((r.value, d.rest))
    ensures r.Err? ==> ItemsFrom(read, [], old(d.rest), n) == Err(r.error)
  {
    ghost var all := ItemsFrom(read, [], d.rest, n);
    var quotas := [];
    for i := 0 to n
      invariant all == ItemsFrom(read, quotas, d.rest, n - i)
    {
      var quota := ReadQuota(d, read);
      if quota.Err? {
        return Err(quota.error);
      }
      quotas := quotas + [quota.value];
    }
    return Ok(quotas);
  }

  method ReadQuotas(d: Decoder) returns (r: Result<seq<QuotaDecl>>)
    modifies d
    ensures r.Ok? ==> ParseQuotas(old(d.rest)) == Ok((r.value, d.rest))
    ensures r.Err? ==> ParseQuotas(old(d.rest)) == Err(r.error)
  {
    var len := d.Array();
    if len.None? {
      return Err(ManifestInvalid(QuotasNotArray));
    }
    if len.value.None? {
      return Err(ManifestInvalid(QuotasIndefinite));
    }
    var n := len.value.value;
    if n > MAX_NODES {
      return Err(ManifestInvalid(TooManyQuotas));
    }
    r := ReadQuotaItems(d, n, QuotaAt);
  }

  /** Decoding the payload, step by step; `ParsesIff` says what the result means. */
  method ReadManifest(payload: seq<byte>) returns (r: Result<Manifest>)
    ensures r == ParseCbor(payload)
    ensures r.Ok? ==> Bounded(r.value) && Encodes(payload, r.value)
  {
    var d := new Decoder(payload);
    var len := d.Array();
    if len.None? {
      return Err(ManifestInvalid(PayloadNotArray));
    }
    if len.value != Some(3) {
      return Err(ManifestInvalid(PayloadNotTriple));
    }
    var version := d.U32();
    if version.None? {
      return Err(ManifestInvalid(VersionNotUint32));
    }
    var edges := ReadEdges(d);
    if edges.Err? {
      return Err(edges.error);
    }
    var quotas := ReadQuotas(d);
    if quotas.Err? {
      return Err(quotas.error);
    }
    r := Ok(Manifest(version.value, edges.value, quotas.value));
    ParsedIsEncoded(payload);
  }

  /** The signature check, a parameter: it sees the payload and the 64 signature bytes. */
  type Verifier = (seq<byte>, seq<byte>) -> Result<()>

  function DecodeWire(bytes: seq<byte>, verify: Verifier): Result<Manifest> {
    if |bytes| < MIN_WIRE_LEN then Err(ManifestInvalid(WireTooShort))
    else match verify(bytes[SIG_LEN..], bytes[..SIG_LEN])
      case Err(e) => Err(e)
      case Ok(_) => ParseCbor(bytes[SIG_LEN..])
  }

  method ReadWire(bytes: seq<byte>, verify: Verifier) returns (r: Result<Manifest>)
    ensures r == DecodeWire(bytes, verify)
    ensures r.Ok? ==> Bounded(r.value)
  {
    if |bytes| < MIN_WIRE_LEN {
      return Err(ManifestInvalid(WireTooShort));
    }
    var sig, payload := bytes[..SIG_LEN], bytes[SIG_LEN..];
    var checked := verify(payload, sig);
    if checked.Err? {
      return Err(checked.error);
    }
    r := ReadManifest(payload);
  }

  /** A manifest is accepted exactly when the signature check accepts its bytes and they begin with an encoding of
      it, so a signed preferred serialization always decodes to its manifest. */
  lemma DecodesIff(bytes: seq<byte>, verify: Verifier, m: Manifest)
    ensures DecodeWire(bytes, verify) == Ok(m) <==>
      && |bytes| >= MIN_WIRE_LEN && verify(bytes[SIG_LEN..], bytes[..SIG_LEN]).Ok?
      && Bounded(m) && Encodes(bytes[SIG_LEN..], m)
  {
    if |bytes| >= MIN_WIRE_LEN {
      ParsesIff(bytes[SIG_LEN..], m);
    }
  }

  /** What is refused before the payload is looked at: fewer than 65 bytes, or 64 bytes that do not sign the others. */
  lemma RefusedUnread(bytes: seq<byte>, verify: Verifier)
    ensures |bytes| < 65 ==> DecodeWire(bytes, verify) == Err(ManifestInvalid(WireTooShort))
    ensures |bytes| >= 65 && verify(bytes[64..], bytes[..64]).Err? ==>
      DecodeWire(bytes, verify) == Err(verify(bytes[64..], bytes[..64]).error)
    ensures |bytes| >= 65 && verify(bytes[64..], bytes[..64]).Ok? ==>
      DecodeWire(bytes, verify) == ParseCbor(bytes[64..])
  {
  }
}
