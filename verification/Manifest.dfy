/** The boot manifest and its CBOR wire format. */
module Manifest {
  import opened Types
  import opened Wire
  import opened Cbor

  datatype EdgeDecl = EdgeDecl(src: NodeId, dst: NodeId)

  datatype QuotaDecl = QuotaDecl(node: NodeId, ceiling: u64)

  datatype Manifest = Manifest(version: u32, edges: seq<EdgeDecl>, quotas: seq<QuotaDecl>)

  /** The capacities of the manifest's lists. */
  predicate Bounded(m: Manifest) {
    |m.edges| <= 256 && |m.quotas| <= 64
  }

  predicate PermitsEdge(m: Manifest, src: NodeId, dst: NodeId) {
    EdgeDecl(src, dst) in m.edges
  }

  /** The ceiling of the first declaration for the node. */
  function QuotaFor(quotas: seq<QuotaDecl>, node: NodeId): Option<u64> {
    if |quotas| == 0 then None
    else if quotas[0].node == node then Some(quotas[0].ceiling)
    else QuotaFor(quotas[1..], node)
  }

  // ---------- what the decoder does, on values ----------

  function EdgeAt(s: seq<byte>): Result<(EdgeDecl, seq<byte>)> {
    var len := ReadArray(s);
    if len.None? then Err(ManifestInvalid(EdgeNotArray))
    else if len.value.0 != Some(2) then Err(ManifestInvalid(EdgeNotPair))
    else
      var src := ReadU32(len.value.1);
      if src.None? then Err(ManifestInvalid(EdgeSrcNotUint32))
      else
        var dst := ReadU32(src.value.1);
        if dst.None? then Err(ManifestInvalid(EdgeDstNotUint32))
        else if src.value.0 == 0 then Err(ManifestInvalid(EdgeSrcZero))
        else if dst.value.0 == 0 then Err(ManifestInvalid(EdgeDstZero))
        else Ok((EdgeDecl(src.value.0, dst.value.0), dst.value.1))
  }

  lemma ReadHeadBound(s: seq<byte>, major: nat)
    ensures var r := ReadHead(s, major); r.Some? ==> r.value.0 <= U64_MAX && major < 8
  {
    if ReadHead(s, major).Some? {
      var w := WrittenRead(s, major);
      WidestArgument(w);
    }
  }

  lemma WidestArgument(w: Width)
    ensures Pow256(w.Bytes()) <= U64_MAX + 1
  {
    Widths();
    assert Pow256(1) == 0x100 && Pow256(2) == 0x1_0000;
  }

  function QuotaAt(s: seq<byte>): Result<(QuotaDecl, seq<byte>)> {
    var len := ReadArray(s);
    if len.None? then Err(ManifestInvalid(QuotaNotArray))
    else if len.value.0 != Some(2) then Err(ManifestInvalid(QuotaNotPair))
    else
      var node := ReadU32(len.value.1);
      if node.None? then Err(ManifestInvalid(QuotaNodeNotUint32))
      else
        var ceiling := ReadU64(node.value.1);
        if ceiling.None? then Err(ManifestInvalid(QuotaCeilingNotUint64))
        else if node.value.0 == 0 then Err(ManifestInvalid(QuotaNodeZero))
        else
          ReadHeadBound(node.value.1, UINT);
          Ok((QuotaDecl(node.value.0, ceiling.value.0), ceiling.value.1))
  }

  /** One item and what follows it. */
  type Reader<T> = seq<byte> -> Result<(T, seq<byte>)>

  /** `n` more items after those already decoded. */
  function ItemsFrom<T>(read: Reader<T>, done: seq<T>, s: seq<byte>, n: nat): Result<(seq<T>, seq<byte>)>
    decreases n
  {
    if n == 0 then Ok((done, s))
    else match read(s)
      case Err(e) => Err(e)
      case Ok((item, rest)) => ItemsFrom(read, done + [item], rest, n - 1)
  }

  function ParseEdges(s: seq<byte>): Result<(seq<EdgeDecl>, seq<byte>)> {
    match ReadArray(s)
    case None => Err(ManifestInvalid(EdgesNotArray))
    case Some((None, _)) => Err(ManifestInvalid(EdgesIndefinite))
    case Some((Some(len), rest)) =>
      if len > MAX_EDGES then Err(ManifestInvalid(TooManyEdges)) else ItemsFrom(EdgeAt, [], rest, len)
  }

  function ParseQuotas(s: seq<byte>): Result<(seq<QuotaDecl>, seq<byte>)> {
    match ReadArray(s)
    case None => Err(ManifestInvalid(QuotasNotArray))
    case Some((None, _)) => Err(ManifestInvalid(QuotasIndefinite))
    case Some((Some(len), rest)) =>
      if len > MAX_NODES then Err(ManifestInvalid(TooManyQuotas)) else ItemsFrom(QuotaAt, [], rest, len)
  }

  function ParseCbor(payload: seq<byte>): Result<Manifest> {
    match ReadArray(payload)
    case None => Err(ManifestInvalid(PayloadNotArray))
    case Some((len, s0)) =>
      if len != Some(3) then Err(ManifestInvalid(PayloadNotTriple))
      else match ReadU32(s0)
        case None => Err(ManifestInvalid(VersionNotUint32))
        case Some((version, s1)) =>
          match ParseEdges(s1)
          case Err(e) => Err(e)
          case Ok((edges, s2)) =>
            match ParseQuotas(s2)
            case Err(e) => Err(e)
            case Ok((quotas, _)) => Ok(Manifest(version, edges, quotas))
  }

  // ---------- the wire format, independently of the decoder ----------

  function EdgeHeads(e: EdgeDecl): seq<Head> {
    [Head(ARRAY, 2), Head(UINT, e.src), Head(UINT, e.dst)]
  }

  function QuotaHeads(q: QuotaDecl): seq<Head> {
    [Head(ARRAY, 2), Head(UINT, q.node), Head(UINT, q.ceiling)]
  }

  function ItemsHeads<T>(heads: T -> seq<Head>, items: seq<T>): seq<Head> {
    if |items| == 0 then [] else heads(items[0]) + ItemsHeads(heads, items[1..])
  }

  /** The heads of the data items that make up a manifest, in order. */
  function Heads(m: Manifest): seq<Head> {
    [Head(ARRAY, 3), Head(UINT, m.version)]
    + ([Head(ARRAY, |m.edges|)] + ItemsHeads(EdgeHeads, m.edges)
       + ([Head(ARRAY, |m.quotas|)] + ItemsHeads(QuotaHeads, m.quotas)))
  }

  // ---------- decoding is reading the wire format ----------

  lemma ReadArrayIff(s: seq<byte>, n: nat, rest: seq<byte>)
    ensures ReadArray(s) == Some((Some(n), rest)) <==> ReadHead(s, ARRAY) == Some((n, rest))
  {
  }

  lemma ReadsOne(s: seq<byte>, h: Head, rest: seq<byte>)
    ensures Reads(s, [h], rest) <==> ReadHead(s, h.major) == Some((h.argument, rest))
  {
  }

  lemma ReadsThree(s: seq<byte>, a: Head, b: Head, c: Head, rest: seq<byte>)
    ensures Reads(s, [a, b, c], rest) <==>
      var r := ReadHead(s, a.major);
      && r.Some? && r.value.0 == a.argument
      && var q := ReadHead(r.value.1, b.major);
         && q.Some? && q.value.0 == b.argument
         && ReadHead(q.value.1, c.major) == Some((c.argument, rest))
  {
    assert [a, b, c][1..] == [b, c] && [b, c][1..] == [c];
    var r := ReadHead(s, a.major);
    if r.Some? {
      var q := ReadHead(r.value.1, b.major);
      if q.Some? {
        ReadsOne(q.value.1, c, rest);
      }
    }
  }

  lemma EdgeAtIff(s: seq<byte>, e: EdgeDecl, rest: seq<byte>)
    ensures EdgeAt(s) == Ok((e, rest)) <==> Reads(s, EdgeHeads(e), rest)
  {
    ReadsThree(s, Head(ARRAY, 2), Head(UINT, e.src), Head(UINT, e.dst), rest);
    var r := ReadHead(s, ARRAY);
    if r.Some? {
      ReadArrayIff(s, r.value.0, r.value.1);
    }
  }

  lemma QuotaAtIff(s: seq<byte>, q: QuotaDecl, rest: seq<byte>)
    ensures QuotaAt(s) == Ok((q, rest)) <==> Reads(s, QuotaHeads(q), rest)
  {
    ReadsThree(s, Head(ARRAY, 2), Head(UINT, q.node), Head(UINT, q.ceiling), rest);
    var r := ReadHead(s, ARRAY);
    if r.Some? {
      ReadArrayIff(s, r.value.0, r.value.1);
    }
  }

  /** The reader accepts exactly what the heads of an item spell. */
  ghost predicate Spells<T(!new)>(read: Reader<T>, heads: T -> seq<Head>) {
    forall s, item, rest :: read(s) == Ok((item, rest)) <==> Reads(s, heads(item), rest)
  }

  lemma ReadersSpell()
    ensures Spells(EdgeAt, EdgeHeads) && Spells(QuotaAt, QuotaHeads)
  {
    forall s, item, rest
      ensures EdgeAt(s) == Ok((item, rest)) <==> Reads(s, EdgeHeads(item), rest)
    {
      EdgeAtIff(s, item, rest);
    }
    forall s, item, rest
      ensures QuotaAt(s) == Ok((item, rest)) <==> Reads(s, QuotaHeads(item), rest)
    {
      QuotaAtIff(s, item, rest);
    }
  }

  lemma NextOf<T>(done: seq<T>, x: T, all: seq<T>)
    requires done + [x] <= all
    ensures done <= all && all[|done|..] == [x] + all[|done| + 1..]
  {
    assert all[|done|] == (done + [x])[|done|];
  }

  lemma ReadsOneMore<T>(heads: T -> seq<Head>, s: seq<byte>, item: T, s': seq<byte>, items: seq<T>, rest: seq<byte>)
    requires Reads(s, heads(item), s') && Reads(s', ItemsHeads(heads, items), rest)
    ensures Reads(s, ItemsHeads(heads, [item] + items), rest)
  {
    assert ([item] + items)[1..] == items;
    ReadsConcat(s, heads(item), s', ItemsHeads(heads, items), rest);
  }

  lemma {:induction false} ItemsFromReads<T(!new)>(read: Reader<T>, heads: T -> seq<Head>, done: seq<T>,
        s: seq<byte>, n: nat)
    requires Spells(read, heads) && ItemsFrom(read, done, s, n).Ok?
    ensures var (all, rest) := ItemsFrom(read, done, s, n).value;
      |all| == |done| + n && done <= all && Reads(s, ItemsHeads(heads, all[|done|..]), rest)
    decreases n
  {
    if n > 0 {
      var (item, s') := read(s).value;
      var (all, rest) := ItemsFrom(read, done, s, n).value;
      ItemsFromReads(read, heads, done + [item], s', n - 1);
      NextOf(done, item, all);
      ReadsOneMore(heads, s, item, s', all[|done| + 1..], rest);
    }
  }

  lemma {:induction false} ReadsItemsFrom<T(!new)>(read: Reader<T>, heads: T -> seq<Head>, done: seq<T>, s: seq<byte>,
                                                   items: seq<T>, rest: seq<byte>)
    requires Spells(read, heads) && Reads(s, ItemsHeads(heads, items), rest)
    ensures ItemsFrom(read, done, s, |items|) == Ok((done + items, rest))
    decreases |items|
  {
    if |items| == 0 {
      assert done + items == done;
    } else {
      var s' := ReadsSplit(s, heads(items[0]), ItemsHeads(heads, items[1..]), rest);
      ReadsItemsFrom(read, heads, done + [items[0]], s', items[1..], rest);
      assert done + [items[0]] + items[1..] == done + items;
    }
  }

  lemma ParseEdgesReads(s: seq<byte>)
    requires ParseEdges(s).Ok?
    ensures var (edges, rest) := ParseEdges(s).value;
      |edges| <= MAX_EDGES && Reads(s, [Head(ARRAY, |edges|)] + ItemsHeads(EdgeHeads, edges), rest)
  {
    var (len, s') := ReadArray(s).value;
    var (edges, rest) := ParseEdges(s).value;
    ReadersSpell();
    ItemsFromReads(EdgeAt, EdgeHeads, [], s', len.value);
    assert edges[0..] == edges;
    ReadArrayIff(s, len.value, s');
    ReadsOne(s, Head(ARRAY, |edges|), s');
    ReadsConcat(s, [Head(ARRAY, |edges|)], s', ItemsHeads(EdgeHeads, edges), rest);
  }

  lemma ReadsParseEdges(s: seq<byte>, edges: seq<EdgeDecl>, rest: seq<byte>)
    requires |edges| <= MAX_EDGES && Reads(s, [Head(ARRAY, |edges|)] + ItemsHeads(EdgeHeads, edges), rest)
    ensures ParseEdges(s) == Ok((edges, rest))
  {
    var s' := ReadsSplit(s, [Head(ARRAY, |edges|)], ItemsHeads(EdgeHeads, edges), rest);
    ReadsOne(s, Head(ARRAY, |edges|), s');
    ReadArrayIff(s, |edges|, s');
    ReadersSpell();
    ReadsItemsFrom(EdgeAt, EdgeHeads, [], s', edges, rest);
    assert [] + edges == edges;
  }

  lemma ParseQuotasReads(s: seq<byte>)
    requires ParseQuotas(s).Ok?
    ensures var (quotas, rest) := ParseQuotas(s).value;
      |quotas| <= MAX_NODES && Reads(s, [Head(ARRAY, |quotas|)] + ItemsHeads(QuotaHeads, quotas), rest)
  {
    var (len, s') := ReadArray(s).value;
    var (quotas, rest) := ParseQuotas(s).value;
    ReadersSpell();
    ItemsFromReads(QuotaAt, QuotaHeads, [], s', len.value);
    assert quotas[0..] == quotas;
    ReadArrayIff(s, len.value, s');
    ReadsOne(s, Head(ARRAY, |quotas|), s');
    ReadsConcat(s, [Head(ARRAY, |quotas|)], s', ItemsHeads(QuotaHeads, quotas), rest);
  }

  lemma ReadsParseQuotas(s: seq<byte>, quotas: seq<QuotaDecl>, rest: seq<byte>)
    requires |quotas| <= MAX_NODES && Reads(s, [Head(ARRAY, |quotas|)] + ItemsHeads(QuotaHeads, quotas), rest)
    ensures ParseQuotas(s) == Ok((quotas, rest))
  {
    var s' := ReadsSplit(s, [Head(ARRAY, |quotas|)], ItemsHeads(QuotaHeads, quotas), rest);
    ReadsOne(s, Head(ARRAY, |quotas|), s');
    ReadArrayIff(s, |quotas|, s');
    ReadersSpell();
    ReadsItemsFrom(QuotaAt, QuotaHeads, [], s', quotas, rest);
    assert [] + quotas == quotas;
  }

  lemma ReadsPreamble(s: seq<byte>, version: u32, rest: seq<byte>)
    ensures Reads(s, [Head(ARRAY, 3), Head(UINT, version)], rest) <==>
      var r := ReadArray(s);
      r.Some? && r.value.0 == Some(3) && ReadU32(r.value.1) == Some((version, rest))
  {
    var heads := [Head(ARRAY, 3), Head(UINT, version)];
    assert heads[1..] == [Head(UINT, version)];
    var r := ReadHead(s, ARRAY);
    if r.Some? {
      ReadArrayIff(s, r.value.0, r.value.1);
      ReadsOne(r.value.1, Head(UINT, version), rest);
    }
  }

  /** Two lists after a preamble. */
  lemma ReadsParts(s: seq<byte>, m: Manifest, s1: seq<byte>, s2: seq<byte>, rest: seq<byte>)
    requires Reads(s, [Head(ARRAY, 3), Head(UINT, m.version)], s1)
    requires Reads(s1, [Head(ARRAY, |m.edges|)] + ItemsHeads(EdgeHeads, m.edges), s2)
    requires Reads(s2, [Head(ARRAY, |m.quotas|)] + ItemsHeads(QuotaHeads, m.quotas), rest)
    ensures Reads(s, Heads(m), rest)
  {
    var a, b, c := [Head(ARRAY, 3), Head(UINT, m.version)], [Head(ARRAY, |m.edges|)] + ItemsHeads(EdgeHeads, m.edges),
                   [Head(ARRAY, |m.quotas|)] + ItemsHeads(QuotaHeads, m.quotas);
    ReadsConcat(s1, b, s2, c, rest);
    ReadsConcat(s, a, s1, b + c, rest);
  }

  lemma PartsRead(s: seq<byte>, m: Manifest, rest: seq<byte>) returns (s1: seq<byte>, s2: seq<byte>)
    requires Reads(s, Heads(m), rest)
    ensures Reads(s, [Head(ARRAY, 3), Head(UINT, m.version)], s1)
    ensures Reads(s1, [Head(ARRAY, |m.edges|)] + ItemsHeads(EdgeHeads, m.edges), s2)
    ensures Reads(s2, [Head(ARRAY, |m.quotas|)] + ItemsHeads(QuotaHeads, m.quotas), rest)
  {
    var a, b, c := [Head(ARRAY, 3), Head(UINT, m.version)], [Head(ARRAY, |m.edges|)] + ItemsHeads(EdgeHeads, m.edges),
                   [Head(ARRAY, |m.quotas|)] + ItemsHeads(QuotaHeads, m.quotas);
    s1 := ReadsSplit(s, a, b + c, rest);
    s2 := ReadsSplit(s1, b, c, rest);
  }

  /** What the decoder accepts lies within the capacities and is what the bytes say. */
  lemma ParsedIsRead(s: seq<byte>) returns (rest: seq<byte>)
    requires ParseCbor(s).Ok?
    ensures Bounded(ParseCbor(s).value) && Reads(s, Heads(ParseCbor(s).value), rest)
  {
    var m := ParseCbor(s).value;
    var s1 := ReadU32(ReadArray(s).value.1).value.1;
    ReadsPreamble(s, m.version, s1);
    var s2 := ParseEdges(s1).value.1;
    ParseEdgesReads(s1);
    ParseQuotasReads(s2);
    rest := ParseQuotas(s2).value.1;
    ReadsParts(s, m, s1, s2, rest);
  }

  lemma ReadIsParsed(s: seq<byte>, m: Manifest, rest: seq<byte>)
    requires Bounded(m) && Reads(s, Heads(m), rest)
    ensures ParseCbor(s) == Ok(m)
  {
    var s1, s2 := PartsRead(s, m, rest);
    ReadsPreamble(s, m.version, s1);
    ReadsParseEdges(s1, m.edges, s2);
    ReadsParseQuotas(s2, m.quotas, rest);
  }

  /** The payload begins with an encoding of the manifest, with any choice of argument widths. */
  ghost predicate Encodes(s: seq<byte>, m: Manifest) {
    exists widths :: AllFit(Heads(m), widths) && WriteHeads(Heads(m), widths) <= s
  }

  /** The decoder accepts exactly the payloads that begin with some encoding of a manifest within the capacities,
      and returns that manifest; what follows it is ignored. */
  lemma ParsesIff(s: seq<byte>, m: Manifest)
    ensures ParseCbor(s) == Ok(m) <==> Bounded(m) && Encodes(s, m)
  {
    if ParseCbor(s) == Ok(m) {
      ParsedIsEncoded(s);
    }
    if Bounded(m) && Encodes(s, m) {
      EncodedIsParsed(s, m);
    }
  }

  lemma ParsedIsEncoded(s: seq<byte>)
    requires ParseCbor(s).Ok?
    ensures Bounded(ParseCbor(s).value) && Encodes(s, ParseCbor(s).value)
  {
    var m := ParseCbor(s).value;
    var rest := ParsedIsRead(s);
    var widths := WrittenReads(s, Heads(m), rest);
    assert WriteHeads(Heads(m), widths) <= s;
  }

  lemma EncodedIsParsed(s: seq<byte>, m: Manifest)
    requires Bounded(m) && Encodes(s, m)
    ensures ParseCbor(s) == Ok(m)
  {
    var widths :| AllFit(Heads(m), widths) && WriteHeads(Heads(m), widths) <= s;
    var written := WriteHeads(Heads(m), widths);
    assert s == written + s[|written|..];
    ReadsWritten(Heads(m), widths, s[|written|..]);
    ReadIsParsed(s, m, s[|written|..]);
  }

  // ---------- round trip ----------

  function PreferredWidths(heads: seq<Head>): seq<Width> {
    seq(|heads|, i requires 0 <= i < |heads| => Preferred(heads[i].argument))
  }

  ghost predicate InRange(heads: seq<Head>) {
    forall h :: h in heads ==> h.major < 8 && h.argument <= U64_MAX
  }

  lemma {:induction false} ItemsInRange<T(!new)>(heads: T -> seq<Head>, items: seq<T>)
    requires forall item :: InRange(heads(item))
    ensures InRange(ItemsHeads(heads, items))
  {
    if |items| > 0 {
      ItemsInRange(heads, items[1..]);
    }
  }

  lemma HeadsFit(m: Manifest)
    requires Bounded(m)
    ensures AllFit(Heads(m), PreferredWidths(Heads(m)))
  {
    ItemsInRange(EdgeHeads, m.edges);
    ItemsInRange(QuotaHeads, m.quotas);
    forall i | 0 <= i < |Heads(m)|
      ensures Fits(Heads(m)[i], PreferredWidths(Heads(m))[i])
    {
      assert Heads(m)[i] in Heads(m);
      PreferredFits(Heads(m)[i]);
    }
  }

  /** The preferred serialization. */
  function Encode(m: Manifest): seq<byte>
    requires Bounded(m)
  {
    HeadsFit(m);
    WriteHeads(Heads(m), PreferredWidths(Heads(m)))
  }

  /** Decoding the preferred serialization of a manifest, whatever follows it, gives the manifest back. */
  lemma RoundTrip(m: Manifest, suffix: seq<byte>)
    requires Bounded(m)
    ensures ParseCbor(Encode(m) + suffix) == Ok(m)
  {
    HeadsFit(m);
    assert Encode(m) <= Encode(m) + suffix;
    ParsesIff(Encode(m) + suffix, m);
  }

  /** So different manifests have different serializations, and neither is a prefix of the other. */
  lemma EncodePrefixFree(m: Manifest, n: Manifest)
    requires Bounded(m) && Bounded(n) && Encode(m) <= Encode(n)
    ensures m == n
  {
    var tail := Encode(n)[|Encode(m)|..];
    assert Encode(n) == Encode(m) + tail && Encode(n) == Encode(n) + [];
    RoundTrip(m, tail);
    RoundTrip(n, []);
  }
}
