/** What is wrong with a payload that is refused: after any well-formed beginning, the first defect is the one named. */
module ManifestFaults {
  import opened Types
  import opened Wire
  import opened Cbor
  import opened Manifest

  // ---------- defects of one entry ----------

  /** How the bytes of an edge or a quota can be wrong. */
  datatype Defect =
    | NoArray
    | Indefinite
    | WrongLength(length: nat)
    | NoFirst
    | NoSecond(first: nat)
    | BadNumbers(first: nat, second: nat)

  /** No data item of that major type begins here. */
  predicate NoItem(s: seq<byte>, major: nat) {
    |s| == 0 || s[0] / 32 != major
  }

  /** An array of indefinite length begins here. */
  predicate BeginsIndefinite(s: seq<byte>) {
    |s| > 0 && s[0] == 0x9F
  }

  /** The bytes show the defect; `rest` is what follows the part that can be read. */
  ghost predicate Shows(s: seq<byte>, d: Defect, rest: seq<byte>) {
    match d
    case NoArray => NoItem(s, ARRAY)
    case Indefinite => BeginsIndefinite(s)
    case WrongLength(n) => Reads(s, [Head(ARRAY, n)], rest) && n != 2
    case NoFirst => Reads(s, [Head(ARRAY, 2)], rest) && NoItem(rest, UINT)
    case NoSecond(a) => Reads(s, [Head(ARRAY, 2), Head(UINT, a)], rest) && NoItem(rest, UINT)
    case BadNumbers(a, b) => Reads(s, [Head(ARRAY, 2), Head(UINT, a), Head(UINT, b)], rest)
  }

  /** Both numbers of an edge are node ids. */
  predicate EdgeNumbers(a: nat, b: nat) {
    0 < a < 0x1_0000_0000 && 0 < b < 0x1_0000_0000
  }

  function EdgeFault(d: Defect): ManifestFault {
    match d
    case NoArray => EdgeNotArray
    case Indefinite => EdgeNotPair
    case WrongLength(_) => EdgeNotPair
    case NoFirst => EdgeSrcNotUint32
    case NoSecond(a) => if a >= 0x1_0000_0000 then EdgeSrcNotUint32 else EdgeDstNotUint32
    case BadNumbers(a, b) =>
      if a >= 0x1_0000_0000 then EdgeSrcNotUint32
      else if b >= 0x1_0000_0000 then EdgeDstNotUint32
      else if a == 0 then EdgeSrcZero
      else EdgeDstZero
  }

  function QuotaFault(d: Defect): ManifestFault {
    match d
    case NoArray => QuotaNotArray
    case Indefinite => QuotaNotPair
    case WrongLength(_) => QuotaNotPair
    case NoFirst => QuotaNodeNotUint32
    case NoSecond(a) => if a >= 0x1_0000_0000 then QuotaNodeNotUint32 else QuotaCeilingNotUint64
    case BadNumbers(a, _) => if a >= 0x1_0000_0000 then QuotaNodeNotUint32 else QuotaNodeZero
  }

  lemma ReadsTwo(s: seq<byte>, a: Head, b: Head, rest: seq<byte>)
    ensures Reads(s, [a, b], rest) <==>
      var r := ReadHead(s, a.major);
      r.Some? && r.value.0 == a.argument && ReadHead(r.value.1, b.major) == Some((b.argument, rest))
  {
    assert [a, b][1..] == [b];
    var r := ReadHead(s, a.major);
    if r.Some? {
      ReadsOne(r.value.1, b, rest);
    }
  }

  /** What the readers see of the defect. */
  lemma ShowsHeads(s: seq<byte>, d: Defect, rest: seq<byte>)
    requires Shows(s, d, rest)
    ensures var len := ReadArray(s);
      match d
      case NoArray => len.None?
      case Indefinite => len.Some? && len.value.0.None?
      case WrongLength(n) => len.Some? && len.value.0 == Some(n)
      case NoFirst => len.Some? && len.value.0 == Some(2) && ReadHead(len.value.1, UINT).None?
      case NoSecond(a) =>
        len.Some? && len.value.0 == Some(2) && ReadHead(len.value.1, UINT) == Some((a, rest))
        && ReadHead(rest, UINT).None?
      case BadNumbers(a, b) =>
        len.Some? && len.value.0 == Some(2)
        && var first := ReadHead(len.value.1, UINT);
           first.Some? && first.value.0 == a && ReadHead(first.value.1, UINT) == Some((b, rest))
  {
    match d
    case NoArray =>
    case Indefinite =>
    case WrongLength(n) =>
      ReadsOne(s, Head(ARRAY, n), rest);
      ReadArrayIff(s, n, rest);
    case NoFirst =>
      ReadsOne(s, Head(ARRAY, 2), rest);
      ReadArrayIff(s, 2, rest);
    case NoSecond(a) =>
      ReadsTwo(s, Head(ARRAY, 2), Head(UINT, a), rest);
      ReadArrayIff(s, 2, ReadHead(s, ARRAY).value.1);
    case BadNumbers(a, b) =>
      ReadsThree(s, Head(ARRAY, 2), Head(UINT, a), Head(UINT, b), rest);
      ReadArrayIff(s, 2, ReadHead(s, ARRAY).value.1);
  }

  lemma EdgeNamed(s: seq<byte>, d: Defect, rest: seq<byte>)
    requires Shows(s, d, rest) && (d.BadNumbers? ==> !EdgeNumbers(d.first, d.second))
    ensures EdgeAt(s) == Err(ManifestInvalid(EdgeFault(d)))
  {
    ShowsHeads(s, d, rest);
  }

  lemma QuotaNamed(s: seq<byte>, d: Defect, rest: seq<byte>)
    requires Shows(s, d, rest) && (d.BadNumbers? ==> !(0 < d.first < 0x1_0000_0000))
    ensures QuotaAt(s) == Err(ManifestInvalid(QuotaFault(d)))
  {
    ShowsHeads(s, d, rest);
  }

  // ---------- the first defect of a list ----------

  lemma {:induction false} FirstBadItem<T(!new)>(read: Reader<T>, heads: T -> seq<Head>, done: seq<T>, s: seq<byte>,
                                                 n: nat, good: seq<T>, s': seq<byte>)
    requires Spells(read, heads) && Reads(s, ItemsHeads(heads, good), s') && |good| < n && read(s').Err?
    ensures ItemsFrom(read, done, s, n) == Err(read(s').error)
    decreases |good|
  {
    if |good| > 0 {
      var s1 := ReadsSplit(s, heads(good[0]), ItemsHeads(heads, good[1..]), s');
      FirstBadItem(read, heads, done + [good[0]], s1, n - 1, good[1..], s');
    }
  }

  /** The list begins with its length and some well-formed entries. */
  ghost predicate Begins<T(!new)>(s: seq<byte>, n: nat, heads: T -> seq<Head>, good: seq<T>, s': seq<byte>) {
    Reads(s, [Head(ARRAY, n)] + ItemsHeads(heads, good), s')
  }

  lemma EdgesNamed(s: seq<byte>, n: nat, good: seq<EdgeDecl>, s': seq<byte>)
    requires Begins(s, n, EdgeHeads, good, s') && |good| < n <= 256 && EdgeAt(s').Err?
    ensures ParseEdges(s) == Err(EdgeAt(s').error)
  {
    var s1 := ReadsSplit(s, [Head(ARRAY, n)], ItemsHeads(EdgeHeads, good), s');
    ReadsOne(s, Head(ARRAY, n), s1);
    ReadArrayIff(s, n, s1);
    ReadersSpell();
    FirstBadItem(EdgeAt, EdgeHeads, [], s1, n, good, s');
  }

  lemma QuotasNamed(s: seq<byte>, n: nat, good: seq<QuotaDecl>, s': seq<byte>)
    requires Begins(s, n, QuotaHeads, good, s') && |good| < n <= 64 && QuotaAt(s').Err?
    ensures ParseQuotas(s) == Err(QuotaAt(s').error)
  {
    var s1 := ReadsSplit(s, [Head(ARRAY, n)], ItemsHeads(QuotaHeads, good), s');
    ReadsOne(s, Head(ARRAY, n), s1);
    ReadArrayIff(s, n, s1);
    ReadersSpell();
    FirstBadItem(QuotaAt, QuotaHeads, [], s1, n, good, s');
  }

  // ---------- the first defect of a payload ----------

  /** The payload begins with the outer array and a version. */
  ghost predicate Opens(payload: seq<byte>, version: u32, s: seq<byte>) {
    Reads(payload, [Head(ARRAY, 3), Head(UINT, version)], s)
  }

  lemma AfterVersion(payload: seq<byte>, version: u32, s: seq<byte>)
    requires Opens(payload, version, s)
    ensures ParseEdges(s).Err? ==> ParseCbor(payload) == Err(ParseEdges(s).error)
    ensures ParseEdges(s).Ok? && ParseQuotas(ParseEdges(s).value.1).Err? ==>
      ParseCbor(payload) == Err(ParseQuotas(ParseEdges(s).value.1).error)
  {
    ReadsPreamble(payload, version, s);
  }

  /** The first bad edge after any number of good ones is what the payload is refused for. */
  lemma BadEdge(payload: seq<byte>, version: u32, s: seq<byte>, n: nat, good: seq<EdgeDecl>, s': seq<byte>,
                d: Defect, rest: seq<byte>)
    requires Opens(payload, version, s) && Begins(s, n, EdgeHeads, good, s') && |good| < n <= 256
    requires Shows(s', d, rest) && (d.BadNumbers? ==> !EdgeNumbers(d.first, d.second))
    ensures ParseCbor(payload) == Err(ManifestInvalid(EdgeFault(d)))
  {
    EdgeNamed(s', d, rest);
    EdgesNamed(s, n, good, s');
    AfterVersion(payload, version, s);
  }

  /** The first bad quota, after all edges and any number of good quotas. */
  lemma BadQuota(payload: seq<byte>, version: u32, s: seq<byte>, edges: seq<EdgeDecl>, s1: seq<byte>, n: nat,
                 good: seq<QuotaDecl>, s': seq<byte>, d: Defect, rest: seq<byte>)
    requires Opens(payload, version, s) && Begins(s, |edges|, EdgeHeads, edges, s1) && |edges| <= 256
    requires Begins(s1, n, QuotaHeads, good, s') && |good| < n <= 64
    requires Shows(s', d, rest) && (d.BadNumbers? ==> !(0 < d.first < 0x1_0000_0000))
    ensures ParseCbor(payload) == Err(ManifestInvalid(QuotaFault(d)))
  {
    QuotaNamed(s', d, rest);
    QuotasNamed(s1, n, good, s');
    ReadsParseEdges(s, edges, s1);
    AfterVersion(payload, version, s);
  }

  /** A list that cannot be started: no array, one of indefinite length, or one that is too long. */
  lemma BadLists(payload: seq<byte>, version: u32, s: seq<byte>, n: nat, rest: seq<byte>)
    requires Opens(payload, version, s)
    ensures NoItem(s, ARRAY) ==> ParseCbor(payload) == Err(ManifestInvalid(EdgesNotArray))
    ensures BeginsIndefinite(s) ==> ParseCbor(payload) == Err(ManifestInvalid(EdgesIndefinite))
    ensures Reads(s, [Head(ARRAY, n)], rest) && n > 256 ==> ParseCbor(payload) == Err(ManifestInvalid(TooManyEdges))
  {
    AfterVersion(payload, version, s);
    ReadsOne(s, Head(ARRAY, n), rest);
    ReadArrayIff(s, n, rest);
  }

  lemma BadQuotaLists(payload: seq<byte>, version: u32, s: seq<byte>, edges: seq<EdgeDecl>, s1: seq<byte>, n: nat,
                      rest: seq<byte>)
    requires Opens(payload, version, s) && Begins(s, |edges|, EdgeHeads, edges, s1) && |edges| <= 256
    ensures NoItem(s1, ARRAY) ==> ParseCbor(payload) == Err(ManifestInvalid(QuotasNotArray))
    ensures BeginsIndefinite(s1) ==> ParseCbor(payload) == Err(ManifestInvalid(QuotasIndefinite))
    ensures Reads(s1, [Head(ARRAY, n)], rest) && n > 64 ==> ParseCbor(payload) == Err(ManifestInvalid(TooManyQuotas))
  {
    AfterVersion(payload, version, s);
    ReadsParseEdges(s, edges, s1);
    ReadsOne(s1, Head(ARRAY, n), rest);
    ReadArrayIff(s1, n, rest);
  }

  /** A payload that does not begin as one: no array, one of another length, or no 32-bit version. */
  lemma BadBeginning(payload: seq<byte>, n: nat, s: seq<byte>, version: nat, rest: seq<byte>)
    ensures NoItem(payload, ARRAY) ==> ParseCbor(payload) == Err(ManifestInvalid(PayloadNotArray))
    ensures BeginsIndefinite(payload) || (Reads(payload, [Head(ARRAY, n)], s) && n != 3) ==>
      ParseCbor(payload) == Err(ManifestInvalid(PayloadNotTriple))
    ensures Reads(payload, [Head(ARRAY, 3)], s) && NoItem(s, UINT) ==>
      ParseCbor(payload) == Err(ManifestInvalid(VersionNotUint32))
    ensures Reads(payload, [Head(ARRAY, 3), Head(UINT, version)], rest) && version >= 0x1_0000_0000 ==>
      ParseCbor(payload) == Err(ManifestInvalid(VersionNotUint32))
  {
    ReadsOne(payload, Head(ARRAY, n), s);
    ReadsOne(payload, Head(ARRAY, 3), s);
    ReadsTwo(payload, Head(ARRAY, 3), Head(UINT, version), rest);
    var r := ReadHead(payload, ARRAY);
    if r.Some? {
      ReadArrayIff(payload, r.value.0, r.value.1);
    }
  }
}
