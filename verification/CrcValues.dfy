/**
  Concrete checksums. A register is written as four hexadecimal digits, and one
  byte is absorbed in two steps of four bits.
 */
module CrcValues {
  import opened ShiftRegister
  import opened Crc16

  /** Four bits, highest first. */
  datatype Nibble = Nibble(w: bool, x: bool, y: bool, z: bool)

  /** A 16-bit register, highest digit first. */
  datatype Word = Word(a: Nibble, b: Nibble, c: Nibble, d: Nibble)

  function Digit(n: nat): Nibble {
    var top := n >= 8;
    var rest := if top then n - 8 else n;
    if rest < 4 then
      Nibble(top, false, rest >= 2, rest == 1 || rest == 3)
    else
      Nibble(top, true, rest >= 6, rest == 5 || rest == 7)
  }

  function Hex(a: nat, b: nat, c: nat, d: nat): Word {
    Word(Digit(a), Digit(b), Digit(c), Digit(d))
  }

  function NibbleBits(n: Nibble): seq<bool> {
    [n.w, n.x, n.y, n.z]
  }

  function NibbleBit(n: Nibble, i: nat): bool {
    if i == 0 then n.w else if i == 1 then n.x else if i == 2 then n.y else n.z
  }

  function BitAt(w: Word, i: nat): bool
    requires i < 16
  {
    if i < 4 then NibbleBit(w.a, i) else if i < 8 then NibbleBit(w.b, i - 4)
    else if i < 12 then NibbleBit(w.c, i - 8) else NibbleBit(w.d, i - 12)
  }

  function Bits(w: Word): (r: Reg)
    ensures forall i :: 0 <= i < 16 ==> r[i] == BitAt(w, i)
  {
    seq(16, i requires 0 <= i < 16 => BitAt(w, i))
  }

  function XorNibble(m: Nibble, n: Nibble): Nibble {
    Nibble(m.w != n.w, m.x != n.x, m.y != n.y, m.z != n.z)
  }

  /** Four shifts at once: each of the four bits that leave comes back at x^12, x^5 and 1. */
  function Fold(w: Word): Word {
    Word(XorNibble(w.b, w.a), XorNibble(w.c, Nibble(false, false, false, w.a.w)),
         XorNibble(w.d, Nibble(w.a.x, w.a.y, w.a.z, false)), w.a)
  }

  /** Absorbing the byte with the two digits. */
  function Absorb(w: Word, high: Nibble, low: Nibble): Word {
    Fold(Fold(Word(XorNibble(w.a, high), XorNibble(w.b, low), w.c, w.d)))
  }

  // ---------------------------------------------------------------------
  // Digits compute the register
  // ---------------------------------------------------------------------

  /** Bit i of the register after four shifts. */
  predicate Folded(r: Reg, i: nat)
    requires i < 16
  {
    (if i < 12 then r[i + 4] else r[i - 12]) != ((i < 4 && r[i]) != (7 <= i < 11 && r[i - 7]))
  }

  lemma {:induction false} ShiftBit(r: Reg, i: nat)
    requires i < 16
    ensures Shift(r)[i] == ((i < 15 && r[i + 1]) != (r[0] && (i == 3 || i == 10 || i == 15)))
  {
  }

  /** Bit i of the register after two shifts. */
  predicate Twice(r: Reg, i: nat)
    requires i < 16
  {
    (i < 14 && r[i + 2]) != ((r[0] && (i == 2 || i == 9 || i == 14)) != (r[1] && (i == 3 || i == 10 || i == 15)))
  }

  lemma {:induction false} TwoShifts(r: Reg, i: nat)
    requires i < 16
    ensures Shifts(r, 2)[i] == Twice(r, i)
  {
    assert Shifts(r, 2) == Shift(Shifts(r, 1));
    assert Shifts(r, 1) == Shift(Shifts(r, 0)) == Shift(r);
    ShiftBit(Shift(r), i);
    ShiftBit(r, 0);
    if i < 15 {
      ShiftBit(r, i + 1);
    }
  }

  lemma {:induction false} FourShifts(r: Reg, i: nat)
    requires i < 16
    ensures Shifts(r, 4)[i] == Folded(r, i)
  {
    var s := Shifts(r, 2);
    ShiftsAdd(r, 2, 2);
    TwoShifts(s, i);
    TwoShifts(r, 0);
    TwoShifts(r, 1);
    if i < 14 {
      TwoShifts(r, i + 2);
    }
    TwiceTwice(r, s[0], s[1], if i < 14 then s[i + 2] else false, i);
  }

  lemma {:induction false} TwiceTwice(r: Reg, first: bool, second: bool, next: bool, i: nat)
    requires i < 16 && first == Twice(r, 0) && second == Twice(r, 1) && next == (i < 14 && Twice(r, i + 2))
    ensures (next != ((first && (i == 2 || i == 9 || i == 14)) != (second && (i == 3 || i == 10 || i == 15))))
            == Folded(r, i)
  {
  }

  lemma {:induction false} FoldedBits(w: Word, i: nat)
    requires i < 16
    ensures Bits(Fold(w))[i] == Folded(Bits(w), i)
  {
  }

  lemma {:induction false} FoldIsShifts(w: Word)
    ensures Bits(Fold(w)) == Shifts(Bits(w), 4)
  {
    forall i | 0 <= i < 16
      ensures Bits(Fold(w))[i] == Shifts(Bits(w), 4)[i]
    {
      FourShifts(Bits(w), i);
      FoldedBits(w, i);
    }
  }

  lemma {:induction false} BitsDouble(n: nat, width: nat)
    ensures BitsOf(n, width + 2) == BitsOf(n / 4, width) + [n / 2 % 2 == 1, n % 2 == 1]
  {
    assert n / 2 / 2 == n / 4;
    assert BitsOf(n, width + 2) == BitsOf(n / 2, width + 1) + [n % 2 == 1];
    assert BitsOf(n / 2, width + 1) == BitsOf(n / 4, width) + [n / 2 % 2 == 1];
  }

  lemma {:induction false} BitsQuadruple(n: nat, width: nat, d: nat)
    requires d < 16
    ensures BitsOf(16 * n + d, width + 4) == BitsOf(n, width) + NibbleBits(Digit(d))
  {
    var m := 16 * n + d;
    BitsDouble(m, width + 2);
    BitsDouble(m / 4, width);
    DigitBits(n, d);
  }

  lemma {:induction false} DigitBits(n: nat, d: nat)
    requires d < 16
    ensures var m := 16 * n + d;
            m / 4 / 4 == n && Digit(d) == Nibble(m / 4 / 2 % 2 == 1, m / 4 % 2 == 1, m / 2 % 2 == 1, m % 2 == 1)
  {
    DigitAlone(d);
    QuarterOf(n, d);
    HighBits(n, d);
    LowBits(n, d);
  }

  lemma {:induction false} HighBits(n: nat, d: nat)
    requires d < 16
    ensures (16 * n + d) / 4 / 2 % 2 == d / 4 / 2 && (16 * n + d) / 4 % 2 == d / 4 % 2
  {
    QuarterOf(n, d);
    HalfOf(4 * n, d / 4);
  }

  lemma {:induction false} LowBits(n: nat, d: nat)
    requires d < 16
    ensures (16 * n + d) / 2 % 2 == d / 2 % 2 && (16 * n + d) % 2 == d % 2
  {
    assert 16 * n + d == 2 * (8 * n) + d && 8 * n + d / 2 == 2 * (4 * n) + d / 2;
    HalfOf(8 * n, d);
    HalfOf(4 * n, d / 2);
  }

  lemma {:induction false} DigitAlone(d: nat)
    requires d < 16
    ensures Digit(d) == Nibble(d / 4 / 2 == 1, d / 4 % 2 == 1, d / 2 % 2 == 1, d % 2 == 1)
  {
  }

  lemma {:induction false} QuarterOf(n: nat, d: nat)
    requires d < 16
    ensures (16 * n + d) / 4 == 4 * n + d / 4 && (4 * n + d / 4) / 4 == n
  {
  }

  lemma {:induction false} HalfOf(n: nat, d: nat)
    ensures (2 * n + d) / 2 == n + d / 2 && (2 * n + d) % 2 == d % 2
  {
  }

  lemma {:induction false} ByteBits(h: nat, l: nat)
    requires h < 16 && l < 16
    ensures BitsOf(16 * h + l, 8) == NibbleBits(Digit(h)) + NibbleBits(Digit(l))
  {
    BitsQuadruple(h, 4, l);
    BitsQuadruple(0, 0, h);
  }

  lemma {:induction false} LoadedBits(w: Word, high: Nibble, low: Nibble)
    ensures Xor(Bits(w), NibbleBits(high) + NibbleBits(low) + Zeros(8))
            == Bits(Word(XorNibble(w.a, high), XorNibble(w.b, low), w.c, w.d))
  {
    var mask := NibbleBits(high) + NibbleBits(low) + Zeros(8);
    forall i | 0 <= i < 16
      ensures mask[i] == BitAt(Word(high, low, Digit(0), Digit(0)), i)
    {
      MaskBit(high, low, i);
    }
  }

  lemma {:induction false} MaskBit(high: Nibble, low: Nibble, i: nat)
    requires i < 16
    ensures (NibbleBits(high) + NibbleBits(low) + Zeros(8))[i] == BitAt(Word(high, low, Digit(0), Digit(0)), i)
  {
    if i < 4 {
      NibbleBitAt(high, i);
    } else if i < 8 {
      NibbleBitAt(low, i - 4);
    }
  }

  lemma {:induction false} NibbleBitAt(n: Nibble, i: nat)
    requires i < 4
    ensures NibbleBits(n)[i] == NibbleBit(n, i)
  {
  }

  /** The register goes from x to y over the given bytes. */
  ghost predicate Leads(x: Word, bytes: seq<Byte>, y: Word) {
    forall r: Reg :: r == Bits(x) ==> Checksum(r, bytes) == Bits(y)
  }

  lemma {:induction false} EightShifts(w: Word)
    ensures Shifts(Bits(w), 8) == Bits(Fold(Fold(w)))
  {
    FoldIsShifts(w);
    FoldIsShifts(Fold(w));
    ShiftsAdd(Bits(w), 4, 4);
  }

  lemma {:induction false} LeadsByte(x: Word, h: nat, l: nat)
    requires h < 16 && l < 16
    ensures Leads(x, [16 * h + l], Absorb(x, Digit(h), Digit(l)))
  {
    AbsorbIsChecksum(x, h, l);
  }

  lemma {:induction false} AbsorbIsChecksum(x: Word, h: nat, l: nat)
    requires h < 16 && l < 16
    ensures Checksum(Bits(x), [16 * h + l]) == Bits(Absorb(x, Digit(h), Digit(l)))
  {
    OneByte(Bits(x), 16 * h + l);
    ByteBits(h, l);
    AbsorbIsShifts(x, Digit(h), Digit(l));
  }

  lemma {:induction false} AbsorbIsShifts(x: Word, high: Nibble, low: Nibble)
    ensures Shifts(Xor(Bits(x), NibbleBits(high) + NibbleBits(low) + Zeros(8)), 8) == Bits(Absorb(x, high, low))
  {
    LoadedBits(x, high, low);
    EightShifts(Word(XorNibble(x.a, high), XorNibble(x.b, low), x.c, x.d));
  }

  lemma {:induction false} OneByte(r: Reg, b: Byte)
    ensures Checksum(r, [b]) == Shifts(LoadByte(r, b), 8)
  {
    assert [b][..0] == [];
  }

  lemma {:induction false} ShiftsAdd(r: Reg, m: nat, n: nat)
    ensures Shifts(r, m + n) == Shifts(Shifts(r, m), n)
  {
    if n > 0 {
      ShiftsAdd(r, m, n - 1);
    }
  }

  lemma {:induction false} ChecksumAppend(r: Reg, p: seq<Byte>, q: seq<Byte>)
    ensures Checksum(r, p + q) == Checksum(Checksum(r, p), q)
  {
    if q == [] {
      assert p + q == p;
    } else {
      assert (p + q)[..|p + q| - 1] == p + q[..|q| - 1];
      ChecksumAppend(r, p, q[..|q| - 1]);
    }
  }

  lemma {:induction false} LeadsOn(x: Word, p: seq<Byte>, y: Word, q: seq<Byte>, z: Word)
    requires Leads(x, p, y) && Leads(y, q, z)
    ensures Leads(x, p + q, z)
  {
    ChecksumAppend(Bits(x), p, q);
    assert Checksum(Bits(x), p) == Bits(y) && Checksum(Bits(y), q) == Bits(z);
  }

  lemma {:induction false} LeadsTwo(x: Word, a: nat, b: nat, y: Word, c: nat, d: nat, z: Word)
    returns (bytes: seq<Byte>)
    requires a < 16 && b < 16 && c < 16 && d < 16
    requires y == Absorb(x, Digit(a), Digit(b)) && z == Absorb(y, Digit(c), Digit(d))
    ensures bytes == [16 * a + b, 16 * c + d] && Leads(x, bytes, z)
  {
    LeadsByte(x, a, b);
    LeadsByte(y, c, d);
    LeadsOn(x, [16 * a + b], y, [16 * c + d], z);
    bytes := [16 * a + b] + [16 * c + d];
  }

  /** Four bytes, given by their digits, and the registers between them. */
  lemma {:induction false} LeadsFour(x: Word, a: nat, b: nat, x1: Word, c: nat, d: nat, x2: Word,
      e: nat, f: nat, x3: Word, g: nat, h: nat, y: Word)
    returns (bytes: seq<Byte>)
    requires a < 16 && b < 16 && c < 16 && d < 16 && e < 16 && f < 16 && g < 16 && h < 16
    requires x1 == Absorb(x, Digit(a), Digit(b)) && x2 == Absorb(x1, Digit(c), Digit(d))
    requires x3 == Absorb(x2, Digit(e), Digit(f)) && y == Absorb(x3, Digit(g), Digit(h))
    ensures bytes == [16 * a + b, 16 * c + d, 16 * e + f, 16 * g + h] && Leads(x, bytes, y)
  {
    var p := LeadsTwo(x, a, b, x1, c, d, x2);
    var q := LeadsTwo(x2, e, f, x3, g, h, y);
    LeadsOn(x, p, x2, q, y);
    bytes := p + q;
  }

  const ALL_ONES: Word := Hex(0xF, 0xF, 0xF, 0xF)

  lemma {:induction false} InitialIsHex()
    ensures INITIAL == Bits(ALL_ONES)
  {
    InitialIsOnes();
    assert forall i :: 0 <= i < 16 ==> BitAt(ALL_ONES, i);
  }

  lemma {:induction false} LeadsOne(x: Word, a: nat, b: nat, y: Word) returns (bytes: seq<Byte>)
    requires a < 16 && b < 16 && y == Absorb(x, Digit(a), Digit(b))
    ensures bytes == [16 * a + b] && Leads(x, bytes, y)
  {
    LeadsByte(x, a, b);
    bytes := [16 * a + b];
  }

  lemma {:induction false} FirstEight() returns (bytes: seq<Byte>)
    ensures bytes == [0x31, 0x32, 0x33, 0x34, 0x35, 0x36, 0x37, 0x38]
    ensures Leads(Hex(15, 15, 15, 15), bytes, Hex(10, 1, 2, 11))
  {
    var p := LeadsFour(Hex(15, 15, 15, 15), 3, 1, Hex(12, 7, 8, 2), 3, 2, Hex(3, 13, 11, 10),
      3, 3, Hex(5, 11, 12, 14), 3, 4, Hex(5, 3, 4, 9));
    var q := LeadsFour(Hex(5, 3, 4, 9), 3, 5, Hex(4, 5, 6, 0), 3, 6, Hex(2, 14, 15, 4),
      3, 7, Hex(7, 7, 1, 8), 3, 8, Hex(10, 1, 2, 11));
    LeadsOn(Hex(15, 15, 15, 15), p, Hex(5, 3, 4, 9), q, Hex(10, 1, 2, 11));
    bytes := p + q;
  }

  /** The check value of CRC-16/CCITT-FALSE: the nine characters "123456789" give 0x29B1. */
  lemma {:induction false} CheckValue() returns (bytes: seq<Byte>)
    ensures bytes == [0x31, 0x32, 0x33, 0x34, 0x35, 0x36, 0x37, 0x38, 0x39]
    ensures ValueOf(Checksum(INITIAL, bytes)) == 0x29B1
  {
    var p := FirstEight();
    var q := LeadsOne(Hex(0xA, 0x1, 0x2, 0xB), 3, 9, Hex(2, 9, 0xB, 1));
    LeadsOn(ALL_ONES, p, Hex(0xA, 0x1, 0x2, 0xB), q, Hex(2, 9, 0xB, 1));
    bytes := p + q;
    ResultIs(bytes, 2, 9, 0xB, 1);
  }

  lemma {:induction false} ResultIs(bytes: seq<Byte>, a: nat, b: nat, c: nat, d: nat)
    requires a < 16 && b < 16 && c < 16 && d < 16 && Leads(ALL_ONES, bytes, Hex(a, b, c, d))
    ensures ValueOf(Checksum(INITIAL, bytes)) == 0x1000 * a + 0x100 * b + 0x10 * c + d
  {
    InitialIsHex();
    HexValue(a, b, c, d);
    assert Checksum(Bits(ALL_ONES), bytes) == Bits(Hex(a, b, c, d));
  }

  function Bit(b: bool): nat {
    if b then 1 else 0
  }

  lemma {:induction false} ValueOfBit(x: seq<bool>, b: bool)
    ensures ValueOf(x + [b]) == 2 * ValueOf(x) + Bit(b)
  {
    assert (x + [b])[..|x|] == x;
  }

  function NibbleValue(n: Nibble): nat {
    8 * Bit(n.w) + 4 * Bit(n.x) + 2 * Bit(n.y) + Bit(n.z)
  }

  lemma {:induction false} ValueOfNibble(x: seq<bool>, n: Nibble)
    ensures ValueOf(x + NibbleBits(n)) == 16 * ValueOf(x) + NibbleValue(n)
  {
    var x1 := x + [n.w];
    var x2 := x1 + [n.x];
    var x3 := x2 + [n.y];
    ValueOfBit(x, n.w);
    ValueOfBit(x1, n.x);
    ValueOfBit(x2, n.y);
    ValueOfBit(x3, n.z);
    FourBits(x, n);
  }

  lemma {:induction false} FourBits(x: seq<bool>, n: Nibble)
    ensures x + [n.w] + [n.x] + [n.y] + [n.z] == x + NibbleBits(n)
  {
  }

  lemma {:induction false} DigitValue(d: nat)
    requires d < 16
    ensures NibbleValue(Digit(d)) == d
  {
  }

  lemma {:induction false} BitsAreNibbles(w: Word)
    ensures Bits(w) == [] + NibbleBits(w.a) + NibbleBits(w.b) + NibbleBits(w.c) + NibbleBits(w.d)
  {
    var all := [] + NibbleBits(w.a) + NibbleBits(w.b) + NibbleBits(w.c) + NibbleBits(w.d);
    forall i | 0 <= i < 16
      ensures all[i] == BitAt(w, i)
    {
      NibbleBitsAt(w, i);
    }
  }

  lemma {:induction false} NibbleBitsAt(w: Word, i: nat)
    requires i < 16
    ensures ([] + NibbleBits(w.a) + NibbleBits(w.b) + NibbleBits(w.c) + NibbleBits(w.d))[i] == BitAt(w, i)
  {
    if i < 4 {
      NibbleBitAt(w.a, i);
    } else if i < 8 {
      NibbleBitAt(w.b, i - 4);
    } else if i < 12 {
      NibbleBitAt(w.c, i - 8);
    } else {
      NibbleBitAt(w.d, i - 12);
    }
  }

  lemma {:induction false} HexValue(a: nat, b: nat, c: nat, d: nat)
    requires a < 16 && b < 16 && c < 16 && d < 16
    ensures ValueOf(Bits(Hex(a, b, c, d))) == 0x1000 * a + 0x100 * b + 0x10 * c + d
  {
    ValueOfWord(Hex(a, b, c, d));
    DigitValue(a);
    DigitValue(b);
    DigitValue(c);
    DigitValue(d);
  }

  lemma {:induction false} ValueOfWord(w: Word)
    ensures ValueOf(Bits(w))
            == 0x1000 * NibbleValue(w.a) + 0x100 * NibbleValue(w.b) + 0x10 * NibbleValue(w.c) + NibbleValue(w.d)
  {
    var p := [] + NibbleBits(w.a);
    var q := p + NibbleBits(w.b);
    ValueOfNibble([], w.a);
    ValueOfNibble(p, w.b);
    ValueOfNibble(q, w.c);
    ValueOfNibble(q + NibbleBits(w.c), w.d);
    BitsAreNibbles(w);
  }
}
