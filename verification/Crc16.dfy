/**
  The CRC-16/CCITT-FALSE loop of src/meow_motor/calibration.rs. A u16 is
  represented by its sixteen bits, a byte by its value.
 */
module Crc16 {
  import opened PolynomialDivision
  import opened ShiftRegister

  type Byte = b: nat | b < 256

  /** The low `width` bits of n, most significant first. */
  function BitsOf(n: nat, width: nat): (r: seq<bool>)
    ensures |r| == width
  {
    if width == 0 then [] else BitsOf(n / 2, width - 1) + [n % 2 == 1]
  }

  function ValueOf(bits: seq<bool>): nat {
    if bits == [] then 0 else 2 * ValueOf(bits[..|bits| - 1]) + if bits[|bits| - 1] then 1 else 0
  }

  /** All ones. */
  const INITIAL: Reg := BitsOf(0xFFFF, 16)

  function LoadByte(r: Reg, b: Byte): Reg {
    Xor(r, BitsOf(b, 8) + Zeros(8))
  }

  /** The register after absorbing a message byte by byte. */
  function Checksum(r: Reg, bytes: seq<Byte>): Reg {
    if bytes == [] then r else Shifts(LoadByte(Checksum(r, bytes[..|bytes| - 1]), bytes[|bytes| - 1]), 8)
  }

  method Crc16CcittFalse(bytes: seq<Byte>) returns (crc: Reg)
    ensures crc == Checksum(INITIAL, bytes) == Remainder(Complemented(AllBits(bytes) + Zeros(16)))
  {
    crc := INITIAL;
    for i := 0 to |bytes|
      invariant crc == Checksum(INITIAL, bytes[..i])
    {
      assert bytes[..i + 1][..i] == bytes[..i];
      crc := Xor(crc, BitsOf(bytes[i], 8) + Zeros(8));
      ghost var loaded := crc;
      for k := 0 to 8
        invariant crc == Shifts(loaded, k)
      {
        crc := if crc[0] then Xor(Left(crc), POLY) else Left(crc);
      }
    }
    assert bytes[..|bytes|] == bytes;
    ChecksumIsRemainder(bytes);
  }

  // ---------------------------------------------------------------------
  // Numbers and bits
  // ---------------------------------------------------------------------

  function Pow2(n: nat): (r: nat)
    ensures r > 0
  {
    if n == 0 then 1 else 2 * Pow2(n - 1)
  }

  lemma {:induction false} ValueOfBits(n: nat, width: nat)
    requires n < Pow2(width)
    ensures ValueOf(BitsOf(n, width)) == n
  {
    if width > 0 {
      ValueOfBits(n / 2, width - 1);
      assert BitsOf(n, width)[..width - 1] == BitsOf(n / 2, width - 1);
    }
  }

  lemma {:induction false} BitsOfValue(bits: seq<bool>)
    ensures ValueOf(bits) < Pow2(|bits|) && BitsOf(ValueOf(bits), |bits|) == bits
  {
    if bits != [] {
      BitsOfValue(bits[..|bits| - 1]);
      assert bits == bits[..|bits| - 1] + [bits[|bits| - 1]];
    }
  }

  lemma {:induction false} ByteFitsEightBits(b: Byte)
    ensures b < Pow2(8)
  {
    assert Pow2(4) == 16;
  }

  function AllBits(bytes: seq<Byte>): (r: seq<bool>)
    ensures |r| == 8 * |bytes|
  {
    if bytes == [] then [] else AllBits(bytes[..|bytes| - 1]) + BitsOf(bytes[|bytes| - 1], 8)
  }

  lemma {:induction false} AllBitsAppend(x: seq<Byte>, y: seq<Byte>)
    ensures AllBits(x + y) == AllBits(x) + AllBits(y)
  {
    if y == [] {
      assert x + y == x;
    } else {
      var n := |y| - 1;
      assert (x + y)[..|x + y| - 1] == x + y[..n];
      AllBitsAppend(x, y[..n]);
      assert AllBits(x) + AllBits(y[..n]) + BitsOf(y[n], 8) == AllBits(x) + (AllBits(y[..n]) + BitsOf(y[n], 8));
    }
  }

  lemma {:induction false} AllBitsInjective(x: seq<Byte>, y: seq<Byte>)
    requires |x| == |y| && AllBits(x) == AllBits(y)
    ensures x == y
  {
    if x != [] {
      var n := |x| - 1;
      var p, q, b, c := AllBits(x[..n]), AllBits(y[..n]), BitsOf(x[n], 8), BitsOf(y[n], 8);
      assert p == (p + b)[..8 * n] && q == (q + c)[..8 * n] && b == (p + b)[8 * n..] && c == (q + c)[8 * n..];
      AllBitsInjective(x[..n], y[..n]);
      ByteFitsEightBits(x[n]);
      ByteFitsEightBits(y[n]);
      ValueOfBits(x[n], 8);
      ValueOfBits(y[n], 8);
      assert x == x[..n] + [x[n]] && y == y[..n] + [y[n]];
    }
  }

  /** The byte-wise loop computes the bit-serial checksum, most significant bit first. */
  lemma {:induction false} ChecksumIsFeed(r: Reg, bytes: seq<Byte>)
    ensures Checksum(r, bytes) == FeedAll(r, AllBits(bytes))
  {
    if bytes != [] {
      var n := |bytes| - 1;
      ChecksumIsFeed(r, bytes[..n]);
      FeedIsPack(Checksum(r, bytes[..n]), BitsOf(bytes[n], 8));
      FeedAppend(r, AllBits(bytes[..n]), BitsOf(bytes[n], 8));
    }
  }

  /**
    The checksum of any message: take its bits, bytes in order and each from its
    highest bit, followed by sixteen zeros; invert the first sixteen; divide; the
    remainder is the checksum.
   */
  lemma {:induction false} ChecksumIsRemainder(bytes: seq<Byte>)
    ensures Checksum(INITIAL, bytes) == Remainder(Complemented(AllBits(bytes) + Zeros(16)))
  {
    InitialIsOnes();
    ChecksumIsFeed(INITIAL, bytes);
    OnesInvert(AllBits(bytes));
  }

  lemma {:induction false} InitialIsOnes()
    ensures INITIAL == Ones(16)
  {
    OnesOf(16);
    assert Pow2(8) == 256;
    assert Pow2(16) == 0x1_0000;
  }

  lemma {:induction false} OnesOf(width: nat)
    ensures BitsOf(Pow2(width) - 1, width) == Ones(width)
  {
    if width > 0 {
      OnesOf(width - 1);
      HalfOfOnes(Pow2(width - 1));
      assert Ones(width) == Ones(width - 1) + [true];
    }
  }

  lemma {:induction false} HalfOfOnes(n: nat)
    requires n > 0
    ensures (2 * n - 1) / 2 == n - 1 && (2 * n - 1) % 2 == 1
  {
  }

  // ---------------------------------------------------------------------
  // What the checksum detects
  // ---------------------------------------------------------------------

  /** Changing one byte or two adjacent bytes always changes the checksum. */
  lemma {:induction false} AdjacentBytesDetected(r: Reg, p: seq<Byte>, x: seq<Byte>, y: seq<Byte>, s: seq<Byte>)
    requires |x| == |y| <= 2 && x != y
    ensures Checksum(r, p + x + s) != Checksum(r, p + y + s)
  {
    ChecksumIsFeed(r, p + x + s);
    ChecksumIsFeed(r, p + y + s);
    SplitBits(p, x, s);
    SplitBits(p, y, s);
    if AllBits(x) == AllBits(y) {
      AllBitsInjective(x, y);
    }
    BurstDetected(r, AllBits(p), AllBits(x), AllBits(y), AllBits(s));
  }

  lemma {:induction false} SplitBits(p: seq<Byte>, x: seq<Byte>, s: seq<Byte>)
    ensures AllBits(p + x + s) == AllBits(p) + AllBits(x) + AllBits(s)
  {
    AllBitsAppend(p + x, s);
    AllBitsAppend(p, x);
  }
}
