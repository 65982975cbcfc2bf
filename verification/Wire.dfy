/** Byte encodings that audit records are made of, and why nothing is lost in them. */
module Wire {
  import opened Types

  type byte = n: nat | n < 256

  function Zeros(n: nat): (s: seq<byte>)
    ensures |s| == n && forall i :: 0 <= i < n ==> s[i] == 0
  {
    if n == 0 then [] else [0] + Zeros(n - 1)
  }

  // ---------- little-endian integers ----------

  function LittleEndian(n: nat, width: nat): (bytes: seq<byte>)
    ensures |bytes| == width
  {
    if width == 0 then [] else [n % 256] + LittleEndian(n / 256, width - 1)
  }

  function FromLittleEndian(bytes: seq<byte>): nat {
    if |bytes| == 0 then 0 else bytes[0] + 256 * FromLittleEndian(bytes[1..])
  }

  function Pow256(width: nat): nat {
    if width == 0 then 1 else 256 * Pow256(width - 1)
  }

  /** Reading back what was written gives the number, for every number that fits the width. */
  lemma {:induction false} LittleEndianRoundTrip(n: nat, width: nat)
    requires n < Pow256(width)
    ensures FromLittleEndian(LittleEndian(n, width)) == n
  {
    if width > 0 {
      assert n / 256 < Pow256(width - 1);
      LittleEndianRoundTrip(n / 256, width - 1);
      assert LittleEndian(n, width)[1..] == LittleEndian(n / 256, width - 1);
    }
  }

  /** The bytes of a 32-bit and of a 64-bit number, the lowest first. */
  lemma FourBytes(n: nat)
    ensures LittleEndian(n, 4) == [n % 256, n / 0x100 % 256, n / 0x1_0000 % 256, n / 0x100_0000 % 256]
  {
    assert n / 256 / 256 == n / 0x1_0000 && n / 0x1_0000 / 256 == n / 0x100_0000;
    assert LittleEndian(n / 0x100_0000, 1) == [n / 0x100_0000 % 256];
    assert LittleEndian(n / 0x1_0000, 2) == [n / 0x1_0000 % 256] + LittleEndian(n / 0x100_0000, 1);
    assert LittleEndian(n / 256, 3) == [n / 256 % 256] + LittleEndian(n / 0x1_0000, 2);
  }

  lemma EightBytes(n: nat)
    ensures LittleEndian(n, 8) == LittleEndian(n, 4) + LittleEndian(n / 0x1_0000_0000, 4)
  {
    var a, b, c, d := n / 256, n / 0x1_0000, n / 0x100_0000, n / 0x1_0000_0000;
    assert a / 256 == b && b / 256 == c && c / 256 == d;
    assert LittleEndian(n, 8) == [n % 256] + LittleEndian(a, 7);
    assert LittleEndian(a, 7) == [a % 256] + LittleEndian(b, 6);
    assert LittleEndian(b, 6) == [b % 256] + LittleEndian(c, 5);
    assert LittleEndian(c, 5) == [c % 256] + LittleEndian(d, 4);
    FourBytes(n);
  }

  lemma Widths()
    ensures Pow256(4) == 0x1_0000_0000 && Pow256(8) == U64_MAX + 1
  {
    assert Pow256(2) == 65536;
    assert Pow256(4) == 65536 * 65536;
    assert Pow256(6) == 65536 * Pow256(4);
  }

  // ---------- UTF-8 ----------

  /** The UTF-8 form of one code point, section 3 of RFC 3629. */
  function Utf8Char(c: char): (bytes: seq<byte>)
    ensures |bytes| >= 1
  {
    var n := c as int;
    if n < 0x80 then [n]
    else if n < 0x800 then [0xC0 + n / 0x40, 0x80 + n % 0x40]
    else if n < 0x1_0000 then [0xE0 + n / 0x1000, 0x80 + n / 0x40 % 0x40, 0x80 + n % 0x40]
    else [0xF0 + n / 0x4_0000, 0x80 + n / 0x1000 % 0x40, 0x80 + n / 0x40 % 0x40, 0x80 + n % 0x40]
  }

  function Utf8(s: string): seq<byte> {
    if |s| == 0 then [] else Utf8Char(s[0]) + Utf8(s[1..])
  }

  /** The lead byte tells how many bytes the code point takes. */
  lemma LeadByteTellsLength(c: char, d: char)
    requires Utf8Char(c)[0] == Utf8Char(d)[0]
    ensures |Utf8Char(c)| == |Utf8Char(d)|
  {
  }

  lemma Utf8CharInjective(c: char, d: char)
    requires Utf8Char(c) == Utf8Char(d)
    ensures c == d
  {
    var m, n := c as int, d as int;
    LeadByteTellsLength(c, d);
    if m < 0x80 {
    } else if m < 0x800 {
      assert Utf8Char(c)[1] == Utf8Char(d)[1];
    } else if m < 0x1_0000 {
      assert Utf8Char(c)[1] == Utf8Char(d)[1] && Utf8Char(c)[2] == Utf8Char(d)[2];
      assert m / 0x40 / 0x40 == m / 0x1000 && n / 0x40 / 0x40 == n / 0x1000;
    } else {
      assert Utf8Char(c)[1] == Utf8Char(d)[1] && Utf8Char(c)[2] == Utf8Char(d)[2] && Utf8Char(c)[3] == Utf8Char(d)[3];
      assert m / 0x40 / 0x40 == m / 0x1000 && n / 0x40 / 0x40 == n / 0x1000;
      assert m / 0x1000 / 0x40 == m / 0x4_0000 && n / 0x1000 / 0x40 == n / 0x4_0000;
    }
  }

  /** Byte `i` of a code point, as a number. */
  function Utf8Byte(c: char, i: nat): int
    requires i < |Utf8Char(c)|
  {
    Utf8Char(c)[i]
  }

  /** The bytes give the code point back: section 3 of RFC 3629, read in the other direction. */
  lemma Utf8CharValue(c: char)
    ensures var n := c as int;
      && |Utf8Char(c)| == (if n < 0x80 then 1 else if n < 0x800 then 2 else if n < 0x1_0000 then 3 else 4)
      && (forall i :: 1 <= i < |Utf8Char(c)| ==> 0x80 <= Utf8Byte(c, i) < 0xC0)
    ensures var n, a := c as int, Utf8Byte(c, 0);
      if n < 0x80 then a < 0x80 && n == a
      else
        var b := Utf8Byte(c, 1) - 0x80;
        if n < 0x800 then 0xC0 <= a < 0xE0 && n == (a - 0xC0) * 0x40 + b
        else
          var d := b * 0x40 + (Utf8Byte(c, 2) - 0x80);
          if n < 0x1_0000 then 0xE0 <= a < 0xF0 && n == (a - 0xE0) * 0x1000 + d
          else 0xF0 <= a && n == (a - 0xF0) * 0x4_0000 + d * 0x40 + (Utf8Byte(c, 3) - 0x80)
  {
    var n := c as int;
    assert n / 0x40 / 0x40 == n / 0x1000 && n / 0x1000 / 0x40 == n / 0x4_0000;
  }

  lemma {:induction false} Utf8Injective(s: string, t: string)
    requires Utf8(s) == Utf8(t)
    ensures s == t
  {
    if |s| > 0 && |t| > 0 {
      var a, b := Utf8Char(s[0]), Utf8Char(t[0]);
      assert Utf8(s)[0] == a[0] && Utf8(t)[0] == b[0];
      LeadByteTellsLength(s[0], t[0]);
      assert Utf8(s)[..|a|] == a && Utf8(t)[..|b|] == b;
      Utf8CharInjective(s[0], t[0]);
      assert Utf8(s)[|a|..] == Utf8(s[1..]) && Utf8(t)[|b|..] == Utf8(t[1..]);
      Utf8Injective(s[1..], t[1..]);
      assert s == [s[0]] + s[1..] && t == [t[0]] + t[1..];
    }
  }
}
