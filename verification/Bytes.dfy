/** Bytes, fixed-width big-endian integers and lower-case base16.
    A Rust `String` is modelled by its UTF-8 bytes, so `as_bytes()` is the identity. */
module Bytes {

  datatype Option<+T> = None | Some(value: T)

  type byte = i: int | 0 <= i < 256
  type Text = seq<byte>

  const U64: nat := 0x1_0000_0000_0000_0000

  type u16 = n: nat | n < 0x1_0000
  type u32 = n: nat | n < 0x1_0000_0000
  type u64 = n: nat | n < 0x1_0000_0000_0000_0000
  type u128 = n: nat | n < 0x1_0000_0000_0000_0000_0000_0000_0000_0000

  /** The bytes of an ASCII literal. */
  function Ascii(s: string): (t: Text)
    ensures |t| == |s|
  {
    seq(|s|, i requires 0 <= i < |s| => (s[i] as int) % 256)
  }

  // ---- `to_be_bytes` ----

  function Pow256(n: nat): (p: nat)
    ensures p > 0
  {
    if n == 0 then 1 else 256 * Pow256(n - 1)
  }

  function BigEndian(width: nat, v: nat): (b: Text)
    ensures |b| == width
  {
    if width == 0 then [] else BigEndian(width - 1, v / 256) + [v % 256]
  }

  function FromBigEndian(b: Text): nat
  {
    if b == [] then 0 else FromBigEndian(b[..|b| - 1]) * 256 + b[|b| - 1]
  }

  lemma {:induction false} BigEndianRoundTrip(width: nat, v: nat)
    requires v < Pow256(width)
    ensures FromBigEndian(BigEndian(width, v)) == v
  {
    if width > 0 {
      BigEndianRoundTrip(width - 1, v / 256);
      var b := BigEndian(width, v);
      assert b[..|b| - 1] == BigEndian(width - 1, v / 256);
    }
  }

  /** `v` shifted right by `n` bytes. */
  function Shifted(v: nat, n: nat): nat {
    if n == 0 then v else Shifted(v / 256, n - 1)
  }

  /** Byte `i` from the left is the low byte of the value shifted by the bytes after it. */
  lemma {:induction false} BigEndianAt(width: nat, v: nat, i: nat)
    requires i < width
    ensures BigEndian(width, v)[i] == Shifted(v, width - 1 - i) % 256
  {
    if i < width - 1 {
      BigEndianAt(width - 1, v / 256, i);
    }
  }

  lemma Widths()
    ensures Pow256(4) == 0x1_0000_0000
    ensures Pow256(8) == U64
    ensures Pow256(16) == 0x1_0000_0000_0000_0000_0000_0000_0000_0000
  {
    assert Pow256(2) == 0x1_0000;
    assert Pow256(4) == 0x1_0000_0000;
    assert Pow256(6) == 0x1_0000_0000_0000;
    assert Pow256(8) == U64;
    assert Pow256(10) == 0x1_0000_0000_0000_0000_0000;
    assert Pow256(12) == 0x1_0000_0000_0000_0000_0000_0000;
    assert Pow256(14) == 0x1_0000_0000_0000_0000_0000_0000_0000;
  }

  lemma FixedWidthRoundTrips()
    ensures forall v: u32 {:trigger BigEndian(4, v)} :: FromBigEndian(BigEndian(4, v)) == v
    ensures forall v: u64 {:trigger BigEndian(8, v)} :: FromBigEndian(BigEndian(8, v)) == v
    ensures forall v: u128 {:trigger BigEndian(16, v)} :: FromBigEndian(BigEndian(16, v)) == v
  {
    Widths();
    forall v: u32 ensures FromBigEndian(BigEndian(4, v)) == v {
      BigEndianRoundTrip(4, v);
    }
    forall v: u64 ensures FromBigEndian(BigEndian(8, v)) == v {
      BigEndianRoundTrip(8, v);
    }
    forall v: u128 ensures FromBigEndian(BigEndian(16, v)) == v {
      BigEndianRoundTrip(16, v);
    }
  }

  // ---- Cutting a concatenation back into its parts ----

  lemma Cut(a: Text, b: Text)
    ensures (a + b)[..|a|] == a
    ensures (a + b)[|a|..] == b
  {
  }

  /** Reading a concatenation from the left: the next piece, and where the rest begins. */
  lemma NextPiece(b: Text, at: nat, piece: Text, rest: Text)
    requires at <= |b| && b[at..] == piece + rest
    ensures at + |piece| <= |b|
    ensures b[at..at + |piece|] == piece && b[at + |piece|..] == rest
  {
    Cut(piece, rest);
    assert b[at..at + |piece|] == b[at..][..|piece|];
    assert b[at + |piece|..] == b[at..][|piece|..];
  }

  // ---- `hex::encode` (section 8 of RFC 4648, lower case) ----

  predicate IsHexDigit(b: byte) { 48 <= b <= 57 || 97 <= b <= 102 }

  predicate AllHex(t: Text) { forall i :: 0 <= i < |t| ==> IsHexDigit(t[i]) }

  function HexDigit(n: int): (d: byte)
    requires 0 <= n < 16
    ensures IsHexDigit(d)
  {
    if n < 10 then 48 + n else 87 + n
  }

  function Hex(b: Text): (t: Text)
    ensures |t| == 2 * |b|
    ensures AllHex(t)
  {
    if b == [] then [] else [HexDigit(b[0] / 16), HexDigit(b[0] % 16)] + Hex(b[1..])
  }

  lemma DigitIsSpelled(n: int)
    requires 0 <= n < 16
    ensures HexDigit(n) == "0123456789abcdef"[n] as int
  {
  }

  /** Two lower-case digits per byte, the high half first. */
  lemma {:induction false} HexAt(b: Text, i: nat)
    requires i < |b|
    ensures Hex(b)[2 * i] == "0123456789abcdef"[b[i] / 16] as int
    ensures Hex(b)[2 * i + 1] == "0123456789abcdef"[b[i] % 16] as int
  {
    if i > 0 {
      HexAt(b[1..], i - 1);
    } else {
      DigitIsSpelled(b[0] / 16);
      DigitIsSpelled(b[0] % 16);
    }
  }

  lemma {:induction false} HexInjective(a: Text, b: Text)
    requires Hex(a) == Hex(b)
    ensures a == b
  {
    if a != [] && b != [] {
      var x, y := Hex(a), Hex(b);
      assert x[0] == HexDigit(a[0] / 16) && x[1] == HexDigit(a[0] % 16);
      assert y[0] == HexDigit(b[0] / 16) && y[1] == HexDigit(b[0] % 16);
      assert a[0] == b[0];
      assert x[2..] == Hex(a[1..]) && y[2..] == Hex(b[1..]);
      HexInjective(a[1..], b[1..]);
      assert a == [a[0]] + a[1..] && b == [b[0]] + b[1..];
    }
  }

  /** `"0".repeat(n)`. */
  function ZeroText(n: nat): (t: Text)
    ensures |t| == n
  {
    seq(n, i => 48)
  }

  function Zeros(n: nat): (t: Text)
    ensures |t| == n
  {
    seq(n, i => 0)
  }

  /** The root of the empty list is spelled like the hex form of an all-zero digest. */
  lemma {:induction false} HexOfZeros(n: nat)
    ensures Hex(Zeros(n)) == ZeroText(2 * n)
  {
    if n > 0 {
      HexOfZeros(n - 1);
      assert Zeros(n)[1..] == Zeros(n - 1);
      assert ZeroText(2 * n) == [48, 48] + ZeroText(2 * (n - 1));
    }
  }
}
