/** Heads of CBOR data items, section 3 of RFC 8949: a major type and an argument of up to eight bytes. */
module Cbor {
  import opened Types
  import opened Wire

  const UINT: nat := 0
  const ARRAY: nat := 4

  // ---------- big-endian arguments ----------

  function BigEndian(n: nat, width: nat): (bytes: seq<byte>)
    ensures |bytes| == width
  {
    if width == 0 then [] else BigEndian(n / 256, width - 1) + [n % 256]
  }

  function FromBigEndian(bytes: seq<byte>): nat {
    if |bytes| == 0 then 0 else 256 * FromBigEndian(bytes[..|bytes| - 1]) + bytes[|bytes| - 1]
  }

  lemma {:induction false} BigEndianRoundTrip(n: nat, width: nat)
    requires n < Pow256(width)
    ensures FromBigEndian(BigEndian(n, width)) == n
  {
    if width > 0 {
      BigEndianRoundTrip(n / 256, width - 1);
      assert BigEndian(n, width)[..width - 1] == BigEndian(n / 256, width - 1);
    }
  }

  lemma {:induction false} FromBigEndianRoundTrip(bytes: seq<byte>)
    ensures FromBigEndian(bytes) < Pow256(|bytes|)
    ensures BigEndian(FromBigEndian(bytes), |bytes|) == bytes
  {
    if |bytes| > 0 {
      var front, last := bytes[..|bytes| - 1], bytes[|bytes| - 1];
      FromBigEndianRoundTrip(front);
      assert (256 * FromBigEndian(front) + last) / 256 == FromBigEndian(front);
      assert bytes == front + [last];
    }
  }

  // ---------- reading a head ----------

  /** Number of argument bytes that the low five bits announce; `None` for the reserved values and 31. */
  function ArgumentWidth(info: nat): Option<nat> {
    if info < 24 then Some(0)
    else if info == 24 then Some(1)
    else if info == 25 then Some(2)
    else if info == 26 then Some(4)
    else if info == 27 then Some(8)
    else None
  }

  function Argument(info: nat, s: seq<byte>): Option<(nat, seq<byte>)> {
    var width := ArgumentWidth(info);
    if width.None? || |s| < width.value then None
    else if width.value == 0 then Some((info, s))
    else Some((FromBigEndian(s[..width.value]), s[width.value..]))
  }

  /** A head with a definite argument, and what follows it. */
  function ReadHead(s: seq<byte>, major: nat): Option<(nat, seq<byte>)> {
    if |s| == 0 || s[0] / 32 != major then None else Argument(s[0] % 32, s[1..])
  }

  function ReadU64(s: seq<byte>): Option<(nat, seq<byte>)> {
    ReadHead(s, UINT)
  }

  /** Any argument width is accepted as long as the value fits in 32 bits. */
  function ReadU32(s: seq<byte>): Option<(nat, seq<byte>)> {
    var r := ReadHead(s, UINT);
    if r.Some? && r.value.0 < 0x1_0000_0000 then r else None
  }

  /** The length of an array; the inner `None` stands for an indefinite length. */
  function ReadArray(s: seq<byte>): Option<(Option<nat>, seq<byte>)> {
    if |s| > 0 && s[0] == 32 * ARRAY + 31 then Some((None, s[1..]))
    else
      var r := ReadHead(s, ARRAY);
      if r.None? then None else Some((Some(r.value.0), r.value.1))
  }

  // ---------- writing a head ----------

  datatype Head = Head(major: nat, argument: nat)

  /** The four widths of an explicit argument, or none at all. */
  datatype Width = W0 | W1 | W2 | W4 | W8 {
    function Bytes(): nat {
      match this case W0 => 0 case W1 => 1 case W2 => 2 case W4 => 4 case W8 => 8
    }

    function Info(): nat {
      match this case W0 => 0 case W1 => 24 case W2 => 25 case W4 => 26 case W8 => 27
    }
  }

  predicate Fits(h: Head, w: Width) {
    h.major < 8 && if w.W0? then h.argument < 24 else h.argument < Pow256(w.Bytes())
  }

  function WriteHead(h: Head, w: Width): seq<byte>
    requires Fits(h, w)
  {
    if w.W0? then [32 * h.major + h.argument]
    else [32 * h.major + w.Info()] + BigEndian(h.argument, w.Bytes())
  }

  /** The shortest width, as in the preferred serialization of section 4.2.1 of RFC 8949. */
  function Preferred(n: nat): Width {
    if n < 24 then W0 else if n < 0x100 then W1 else if n < 0x1_0000 then W2 else if n < 0x1_0000_0000 then W4 else W8
  }

  lemma PreferredFits(h: Head)
    requires h.major < 8 && h.argument <= U64_MAX
    ensures Fits(h, Preferred(h.argument))
  {
    Widths();
    assert Pow256(1) == 0x100 && Pow256(2) == 0x1_0000;
  }

  lemma Halves(a: seq<byte>, b: seq<byte>)
    ensures (a + b)[..|a|] == a && (a + b)[|a|..] == b
  {
  }

  lemma FirstAndRest(x: byte, rest: seq<byte>)
    ensures ([x] + rest)[0] == x && ([x] + rest)[1..] == rest
  {
  }

  /** Whatever width was used, reading gives back the argument and leaves what follows. */
  lemma ReadWritten(h: Head, w: Width, rest: seq<byte>)
    requires Fits(h, w)
    ensures ReadHead(WriteHead(h, w) + rest, h.major) == Some((h.argument, rest))
  {
    if w.W0? {
      FirstAndRest(32 * h.major + h.argument, rest);
    } else {
      var first, bytes := 32 * h.major + w.Info(), BigEndian(h.argument, w.Bytes());
      Glue([first], bytes, rest);
      FirstAndRest(first, bytes + rest);
      Halves(bytes, rest);
      BigEndianRoundTrip(h.argument, w.Bytes());
    }
  }

  function WidthOf(info: nat): Width {
    if info < 24 then W0 else if info == 24 then W1 else if info == 25 then W2 else if info == 26 then W4 else W8
  }

  lemma Rejoined(first: byte, tail: seq<byte>, n: nat)
    requires n <= |tail|
    ensures [first] + tail == [first] + tail[..n] + tail[n..]
  {
    assert tail == tail[..n] + tail[n..];
  }

  /** Conversely, whatever is read was written with one of the widths. */
  lemma WrittenRead(s: seq<byte>, major: nat) returns (w: Width)
    requires ReadHead(s, major).Some?
    ensures var (n, rest) := ReadHead(s, major).value;
      Fits(Head(major, n), w) && s == WriteHead(Head(major, n), w) + rest
  {
    var info, tail := s[0] % 32, s[1..];
    w := WidthOf(info);
    assert ArgumentWidth(info) == Some(w.Bytes());
    assert s == [s[0]] + tail;
    if !w.W0? {
      FromBigEndianRoundTrip(tail[..w.Bytes()]);
      Rejoined(s[0], tail, w.Bytes());
    }
  }

  // ---------- sequences of heads ----------

  /** The heads can be read one after the other from `s`, leaving `rest`. */
  ghost predicate Reads(s: seq<byte>, heads: seq<Head>, rest: seq<byte>) {
    if |heads| == 0 then s == rest
    else
      var r := ReadHead(s, heads[0].major);
      r.Some? && r.value.0 == heads[0].argument && Reads(r.value.1, heads[1..], rest)
  }

  lemma {:induction false} ReadsConcat(s: seq<byte>, a: seq<Head>, s': seq<byte>, b: seq<Head>, rest: seq<byte>)
    requires Reads(s, a, s') && Reads(s', b, rest)
    ensures Reads(s, a + b, rest)
  {
    if |a| == 0 {
      assert a + b == b;
    } else {
      assert (a + b)[1..] == a[1..] + b;
      ReadsConcat(ReadHead(s, a[0].major).value.1, a[1..], s', b, rest);
    }
  }

  lemma {:induction false} ReadsSplit(s: seq<byte>, a: seq<Head>, b: seq<Head>, rest: seq<byte>) returns (s': seq<byte>)
    requires Reads(s, a + b, rest)
    ensures Reads(s, a, s') && Reads(s', b, rest)
  {
    if |a| == 0 {
      assert a + b == b;
      s' := s;
    } else {
      assert (a + b)[1..] == a[1..] + b;
      s' := ReadsSplit(ReadHead(s, a[0].major).value.1, a[1..], b, rest);
    }
  }

  ghost predicate AllFit(heads: seq<Head>, widths: seq<Width>) {
    |widths| == |heads| && forall i :: 0 <= i < |heads| ==> Fits(heads[i], widths[i])
  }

  function WriteHeads(heads: seq<Head>, widths: seq<Width>): seq<byte>
    requires AllFit(heads, widths)
  {
    if |heads| == 0 then [] else WriteHead(heads[0], widths[0]) + WriteHeads(heads[1..], widths[1..])
  }

  lemma {:induction false} ReadsWritten(heads: seq<Head>, widths: seq<Width>, rest: seq<byte>)
    requires AllFit(heads, widths)
    ensures Reads(WriteHeads(heads, widths) + rest, heads, rest)
  {
    if |heads| > 0 {
      var tail := WriteHeads(heads[1..], widths[1..]) + rest;
      assert WriteHeads(heads, widths) + rest == WriteHead(heads[0], widths[0]) + tail;
      ReadWritten(heads[0], widths[0], tail);
      ReadsWritten(heads[1..], widths[1..], rest);
    }
  }

  lemma WriteOneMore(heads: seq<Head>, w: Width, widths: seq<Width>)
    requires |heads| > 0 && Fits(heads[0], w) && AllFit(heads[1..], widths)
    ensures AllFit(heads, [w] + widths)
    ensures WriteHeads(heads, [w] + widths) == WriteHead(heads[0], w) + WriteHeads(heads[1..], widths)
  {
    assert ([w] + widths)[1..] == widths;
    forall i | 0 <= i < |heads|
      ensures Fits(heads[i], ([w] + widths)[i])
    {
      assert i > 0 ==> heads[i] == heads[1..][i - 1];
    }
  }

  lemma Glue(a: seq<byte>, b: seq<byte>, c: seq<byte>)
    ensures a + (b + c) == a + b + c
  {
  }

  lemma {:induction false} WrittenReads(s: seq<byte>, heads: seq<Head>, rest: seq<byte>) returns (widths: seq<Width>)
    requires Reads(s, heads, rest)
    ensures AllFit(heads, widths) && s == WriteHeads(heads, widths) + rest
  {
    if |heads| == 0 {
      widths := [];
    } else {
      var h := heads[0];
      var w, s' := HeadRead(s, h);
      var tail := WrittenReads(s', heads[1..], rest);
      WriteOneMore(heads, w, tail);
      Glue(WriteHead(h, w), WriteHeads(heads[1..], tail), rest);
      widths := [w] + tail;
    }
  }

  lemma HeadRead(s: seq<byte>, h: Head) returns (w: Width, s': seq<byte>)
    requires var r := ReadHead(s, h.major); r.Some? && r.value.0 == h.argument
    ensures ReadHead(s, h.major).value.1 == s' && Fits(h, w) && s == WriteHead(h, w) + s'
  {
    w := WrittenRead(s, h.major);
    s' := ReadHead(s, h.major).value.1;
  }

  // ---------- the forms of a head, byte by byte ----------

  lemma AppendedByte(s: seq<byte>, x: byte)
    ensures FromBigEndian(s + [x]) == 256 * FromBigEndian(s) + x
  {
    assert (s + [x])[..|s|] == s;
  }

  lemma Shifted(high: nat, power: nat, low: nat, x: nat)
    ensures 256 * (high * power + low) + x == high * (256 * power) + (256 * low + x)
  {
  }

  /** The value of bytes in a row: the highest come first. */
  lemma {:induction false} BytesValue(a: seq<byte>, b: seq<byte>)
    ensures FromBigEndian(a + b) == FromBigEndian(a) * Pow256(|b|) + FromBigEndian(b)
    decreases |b|
  {
    if |b| == 0 {
      assert a + b == a;
    } else {
      var front, last := b[..|b| - 1], b[|b| - 1];
      BytesValue(a, front);
      AppendedByte(a + front, last);
      AppendedByte(front, last);
      assert a + b == a + front + [last] && b == front + [last];
      Shifted(FromBigEndian(a), Pow256(|front|), FromBigEndian(front), last);
    }
  }

  lemma FirstByte(major: nat, info: nat) returns (first: byte)
    requires major < 8 && info < 32
    ensures first == 32 * major + info && first / 32 == major && first % 32 == info
  {
    first := 32 * major + info;
  }

  /** Section 3 of RFC 8949: low bits of 24, 25, 26 and 27 announce an argument of one, two, four and eight bytes. */
  lemma LongHead(major: nat, info: nat, bytes: seq<byte>, rest: seq<byte>)
    requires major < 8
    requires (info, |bytes|) == (24, 1) || (info, |bytes|) == (25, 2) || (info, |bytes|) == (26, 4)
          || (info, |bytes|) == (27, 8)
    ensures ReadHead([32 * major + info] + (bytes + rest), major) == Some((FromBigEndian(bytes), rest))
  {
    var first := FirstByte(major, info);
    FirstAndRest(first, bytes + rest);
    Halves(bytes, rest);
  }

  /** Low bits below 24 are the argument itself; 28 to 31 announce none. */
  lemma ShortHead(major: nat, info: nat, rest: seq<byte>)
    requires major < 8 && info < 32 && !(24 <= info < 28)
    ensures ReadHead([32 * major + info] + rest, major) == if info < 24 then Some((info, rest)) else None
  {
    var first := FirstByte(major, info);
    FirstAndRest(first, rest);
  }
}
