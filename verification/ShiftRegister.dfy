/**
  A 16-bit shift register, bit by bit: the algebra of the CRC-16/CCITT-FALSE
  polynomial x^16 + x^12 + x^5 + 1. From it follows which changes of a
  fixed-length message the checksum always detects.
 */
module ShiftRegister {

  /** Sixteen bits, most significant first. */
  type Reg = r: seq<bool> | |r| == 16 witness seq(16, _ => false)

  function Zeros(n: nat): (r: seq<bool>)
    ensures |r| == n && forall i :: 0 <= i < n ==> !r[i]
  {
    seq(n, _ => false)
  }

  const ZERO: Reg := Zeros(16)

  /** 0x1021 */
  const POLY: Reg := [false, false, false, true, false, false, false, false,
                      false, false, true, false, false, false, false, true]

  function Xor(x: seq<bool>, y: seq<bool>): (d: seq<bool>)
    requires |x| == |y|
    ensures |d| == |x| && forall i :: 0 <= i < |x| ==> d[i] == (x[i] != y[i])
  {
    seq(|x|, i requires 0 <= i < |x| => x[i] != y[i])
  }

  function Left(r: Reg): Reg {
    r[1..] + [false]
  }

  /** Shift left once; the polynomial is XORed in when a one falls out of the top. */
  function Shift(r: Reg): Reg {
    if r[0] then Xor(Left(r), POLY) else Left(r)
  }

  function Shifts(r: Reg, n: nat): Reg {
    if n == 0 then r else Shift(Shifts(r, n - 1))
  }

  function Flip(r: Reg, bit: bool): Reg {
    r[0 := r[0] != bit]
  }

  function Feed(r: Reg, bit: bool): Reg {
    Shift(Flip(r, bit))
  }

  function FeedAll(r: Reg, bits: seq<bool>): Reg {
    if bits == [] then r else Feed(FeedAll(r, bits[..|bits| - 1]), bits[|bits| - 1])
  }

  lemma {:induction false} FeedAppend(r: Reg, x: seq<bool>, y: seq<bool>)
    ensures FeedAll(r, x + y) == FeedAll(FeedAll(r, x), y)
  {
    if y == [] {
      assert x + y == x;
    } else {
      var n := |y| - 1;
      assert (x + y)[..|x + y| - 1] == x + y[..n];
      FeedAppend(r, x, y[..n]);
    }
  }

  lemma {:induction false} FeedSingle(r: Reg, bit: bool)
    ensures FeedAll(r, [bit]) == Feed(r, bit)
  {
    assert [bit][..0] == [];
  }

  // ---------------------------------------------------------------------
  // One step: linear, injective
  // ---------------------------------------------------------------------

  function Unshift(r: Reg): Reg {
    [r[15]] + (if r[15] then Xor(r, POLY) else r)[..15]
  }

  /** A step can be undone, so it never merges two registers. */
  lemma {:induction false} ShiftInvertible(r: Reg)
    ensures Unshift(Shift(r)) == r
  {
  }

  lemma {:induction false} ShiftsInjective(r: Reg, s: Reg, n: nat)
    ensures Shifts(r, n) == Shifts(s, n) <==> r == s
  {
    if n > 0 {
      ShiftsInjective(r, s, n - 1);
      ShiftInvertible(Shifts(r, n - 1));
      ShiftInvertible(Shifts(s, n - 1));
    }
  }

  lemma {:induction false} FeedInjective(r: Reg, s: Reg, bits: seq<bool>)
    ensures FeedAll(r, bits) == FeedAll(s, bits) <==> r == s
  {
    if bits != [] {
      var n := |bits| - 1;
      FeedInjective(r, s, bits[..n]);
      FeedOnceInjective(FeedAll(r, bits[..n]), FeedAll(s, bits[..n]), bits[n]);
    }
  }

  lemma {:induction false} FeedOnceInjective(r: Reg, s: Reg, bit: bool)
    ensures Feed(r, bit) == Feed(s, bit) <==> r == s
  {
    ShiftInvertible(Flip(r, bit));
    ShiftInvertible(Flip(s, bit));
    FlipInvolutive(r, bit);
    FlipInvolutive(s, bit);
  }

  lemma {:induction false} FlipInvolutive(r: Reg, bit: bool)
    ensures Flip(Flip(r, bit), bit) == r
  {
  }

  lemma {:induction false} LeftLinear(r: Reg, s: Reg)
    ensures Left(Xor(r, s)) == Xor(Left(r), Left(s))
  {
  }

  lemma {:induction false} XorShuffle(x: Reg, y: Reg, k: Reg)
    ensures Xor(Xor(x, k), Xor(y, k)) == Xor(x, y)
    ensures Xor(Xor(x, k), y) == Xor(Xor(x, y), k) == Xor(x, Xor(y, k))
  {
  }

  lemma {:induction false} ShiftLinear(r: Reg, s: Reg)
    ensures Shift(Xor(r, s)) == Xor(Shift(r), Shift(s))
  {
    LeftLinear(r, s);
    XorShuffle(Left(r), Left(s), POLY);
  }

  lemma {:induction false} FlipLinear(r: Reg, s: Reg, p: bool, q: bool)
    ensures Flip(Xor(r, s), p != q) == Xor(Flip(r, p), Flip(s, q))
  {
  }

  /** Linearity over whole messages: the XOR of two checksums depends only on the XOR of the messages. */
  lemma {:induction false} FeedLinear(r: Reg, s: Reg, x: seq<bool>, y: seq<bool>)
    requires |x| == |y|
    ensures Xor(FeedAll(r, x), FeedAll(s, y)) == FeedAll(Xor(r, s), Xor(x, y))
  {
    if x != [] {
      var n := |x| - 1;
      FeedLinear(r, s, x[..n], y[..n]);
      assert Xor(x, y)[..n] == Xor(x[..n], y[..n]);
      var r', s' := FeedAll(r, x[..n]), FeedAll(s, y[..n]);
      FlipLinear(r', s', x[n], y[n]);
      ShiftLinear(Flip(r', x[n]), Flip(s', y[n]));
    }
  }

  lemma {:induction false} XorZero(r: Reg, s: Reg)
    ensures Xor(r, s) == ZERO <==> r == s
  {
    if Xor(r, s) == ZERO {
      assert forall i :: 0 <= i < 16 ==> !Xor(r, s)[i];
    }
  }

  /** Two messages of one length collide exactly when their XOR has checksum zero from a zero register. */
  lemma {:induction false} CollideExactly(r: Reg, x: seq<bool>, y: seq<bool>)
    requires |x| == |y|
    ensures FeedAll(r, x) == FeedAll(r, y) <==> FeedAll(ZERO, Xor(x, y)) == ZERO
  {
    FeedLinear(r, r, x, y);
    XorZero(r, r);
    XorZero(FeedAll(r, x), FeedAll(r, y));
  }

  // ---------------------------------------------------------------------
  // Bursts of up to 16 bits
  // ---------------------------------------------------------------------

  /** Up to sixteen bits as a register, first bit at the top. */
  function Pack(bits: seq<bool>): Reg
    requires |bits| <= 16
  {
    bits + Zeros(16 - |bits|)
  }

  lemma {:induction false} AbsorbEarly(r: Reg, bit: bool, p: Reg)
    requires !p[15]
    ensures Shift(Xor(r, [bit] + p[..15])) == Xor(Feed(r, bit), p)
  {
    var early := [bit] + p[..15];
    assert Left(early) == p;
    LeftLinear(r, early);
    assert Left(Flip(r, bit)) == Left(r);
    XorShuffle(Left(r), p, POLY);
  }

  lemma {:induction false} PackTail(bits: seq<bool>)
    requires 0 < |bits| <= 16
    ensures !Pack(bits[1..])[15] && Pack(bits) == [bits[0]] + Pack(bits[1..])[..15]
  {
  }

  lemma {:induction false} ShiftsCommute(r: Reg, n: nat)
    ensures Shifts(Shift(r), n) == Shifts(r, n + 1)
  {
    if n > 0 {
      ShiftsCommute(r, n - 1);
    }
  }

  /** Up to 16 bits fed one at a time equal the same bits XORed in at once and then shifted through. */
  lemma {:induction false} FeedIsPack(r: Reg, bits: seq<bool>)
    requires |bits| <= 16
    ensures FeedAll(r, bits) == Shifts(Xor(r, Pack(bits)), |bits|)
    decreases |bits|
  {
    if bits == [] {
      assert Xor(r, Pack(bits)) == r;
    } else {
      var rest := bits[1..];
      assert bits == [bits[0]] + rest;
      FeedAppend(r, [bits[0]], rest);
      FeedSingle(r, bits[0]);
      FeedIsPack(Feed(r, bits[0]), rest);
      PackTail(bits);
      AbsorbEarly(r, bits[0], Pack(rest));
      ShiftsCommute(Xor(r, Pack(bits)), |rest|);
    }
  }

  lemma {:induction false} XorInjective(r: Reg, p: Reg, q: Reg)
    requires Xor(r, p) == Xor(r, q)
    ensures p == q
  {
    forall i | 0 <= i < 16
      ensures p[i] == q[i]
    {
      assert Xor(r, p)[i] == Xor(r, q)[i];
    }
  }

  lemma {:induction false} WindowInjective(r: Reg, x: seq<bool>, y: seq<bool>)
    requires |x| == |y| <= 16 && FeedAll(r, x) == FeedAll(r, y)
    ensures x == y
  {
    FeedIsPack(r, x);
    FeedIsPack(r, y);
    ShiftsInjective(Xor(r, Pack(x)), Xor(r, Pack(y)), |x|);
    XorInjective(r, Pack(x), Pack(y));
    assert x == Pack(x)[..|x|] == Pack(y)[..|y|] == y;
  }

  lemma {:induction false} FeedThree(r: Reg, p: seq<bool>, w: seq<bool>, s: seq<bool>)
    ensures FeedAll(r, p + w + s) == FeedAll(FeedAll(FeedAll(r, p), w), s)
  {
    FeedAppend(r, p + w, s);
    FeedAppend(r, p, w);
  }

  /** Any change confined to 16 consecutive bits changes the checksum. */
  lemma {:induction false} BurstDetected(r: Reg, p: seq<bool>, x: seq<bool>, y: seq<bool>, s: seq<bool>)
    requires |x| == |y| <= 16 && x != y
    ensures FeedAll(r, p + x + s) != FeedAll(r, p + y + s)
  {
    var before := FeedAll(r, p);
    FeedThree(r, p, x, s);
    FeedThree(r, p, y, s);
    FeedInjective(FeedAll(before, x), FeedAll(before, y), s);
    if FeedAll(before, x) == FeedAll(before, y) {
      WindowInjective(before, x, y);
    }
  }

  lemma {:induction false} ZeroStays(n: nat)
    ensures Shifts(ZERO, n) == ZERO
  {
    if n > 0 {
      ZeroStays(n - 1);
      assert Left(ZERO) == ZERO;
    }
  }

  lemma {:induction false} FeedPolynomial()
    ensures Feed(ZERO, true) == POLY && FeedAll(POLY, POLY) == ZERO
  {
    assert Left(Flip(ZERO, true)) == ZERO;
    assert Xor(ZERO, POLY) == POLY;
    FeedIsPack(POLY, POLY);
    assert Pack(POLY) == POLY;
    XorZero(POLY, POLY);
    ZeroStays(16);
  }

  lemma {:induction false} FeedZeros(n: nat)
    requires n <= 16
    ensures FeedAll(ZERO, Zeros(n)) == ZERO
  {
    FeedIsPack(ZERO, Zeros(n));
    assert Xor(ZERO, Pack(Zeros(n))) == ZERO;
    ZeroStays(n);
  }

  lemma {:induction false} ZeroFromSeventeen(d: seq<bool>)
    requires |d| == 17
    ensures FeedAll(ZERO, d) == ZERO <==> d == Zeros(17) || d == [true] + POLY
  {
    var rest := d[1..];
    assert d == [d[0]] + rest;
    FeedAppend(ZERO, [d[0]], rest);
    FeedSingle(ZERO, d[0]);
    FeedPolynomial();
    FeedZeros(16);
    assert ([true] + POLY)[1..] == POLY && Zeros(17)[1..] == Zeros(16);
    if d[0] {
      if FeedAll(POLY, rest) == ZERO {
        WindowInjective(POLY, rest, POLY);
      }
    } else {
      assert Feed(ZERO, false) == ZERO by {
        FeedZeros(1);
        FeedSingle(ZERO, false);
        assert Zeros(1) == [false];
      }
      if FeedAll(ZERO, rest) == ZERO {
        WindowInjective(ZERO, rest, Zeros(16));
        assert d == Zeros(17);
      }
    }
  }

  /** The bound of 16 is tight: one single change within 17 bits goes unnoticed, the polynomial itself. */
  lemma {:induction false} SeventeenBitsExact(r: Reg, p: seq<bool>, x: seq<bool>, y: seq<bool>, s: seq<bool>)
    requires |x| == |y| == 17
    ensures FeedAll(r, p + x + s) == FeedAll(r, p + y + s) <==> x == y || Xor(x, y) == [true] + POLY
  {
    var before := FeedAll(r, p);
    FeedThree(r, p, x, s);
    FeedThree(r, p, y, s);
    FeedInjective(FeedAll(before, x), FeedAll(before, y), s);
    CollideExactly(before, x, y);
    ZeroFromSeventeen(Xor(x, y));
    XorSame(x, y);
  }

  lemma {:induction false} XorSame(x: seq<bool>, y: seq<bool>)
    requires |x| == |y|
    ensures Xor(x, y) == Zeros(|x|) <==> x == y
  {
    if Xor(x, y) == Zeros(|x|) {
      forall i | 0 <= i < |x|
        ensures x[i] == y[i]
      {
        assert !Xor(x, y)[i];
      }
    }
  }

  // ---------------------------------------------------------------------
  // Odd numbers of flipped bits
  // ---------------------------------------------------------------------

  /** Whether an odd number of the bits is set. */
  function Odd(bits: seq<bool>): bool {
    if bits == [] then false else Odd(bits[..|bits| - 1]) != bits[|bits| - 1]
  }

  lemma {:induction false} OddAppend(x: seq<bool>, y: seq<bool>)
    ensures Odd(x + y) == (Odd(x) != Odd(y))
  {
    if y == [] {
      assert x + y == x;
    } else {
      assert (x + y)[..|x + y| - 1] == x + y[..|y| - 1];
      OddAppend(x, y[..|y| - 1]);
    }
  }

  lemma {:induction false} OddXor(x: seq<bool>, y: seq<bool>)
    requires |x| == |y|
    ensures Odd(Xor(x, y)) == (Odd(x) != Odd(y))
  {
    if x != [] {
      var n := |x| - 1;
      assert Xor(x, y)[..n] == Xor(x[..n], y[..n]);
      OddXor(x[..n], y[..n]);
    }
  }

  lemma {:induction false} OddSingle(bit: bool)
    ensures Odd([bit]) == bit
  {
    assert [bit][..0] == [];
  }

  lemma {:induction false} OddZeros(n: nat)
    ensures !Odd(Zeros(n))
  {
    if n > 0 {
      assert Zeros(n)[..n - 1] == Zeros(n - 1);
      OddZeros(n - 1);
    }
  }

  lemma {:induction false} OddPoly()
    ensures Odd(POLY)
  {
    var a, b, c := Zeros(3), Zeros(6), Zeros(4);
    assert POLY == a + [true] + b + [true] + c + [true];
    OddAppend(a + [true] + b + [true] + c, [true]);
    OddAppend(a + [true] + b + [true], c);
    OddAppend(a + [true] + b, [true]);
    OddAppend(a + [true], b);
    OddAppend(a, [true]);
    OddSingle(true);
    OddZeros(3);
    OddZeros(6);
    OddZeros(4);
  }

  /** The polynomial has an even number of terms, so a step keeps the parity. */
  lemma {:induction false} ParityShift(r: Reg)
    ensures Odd(Shift(r)) == Odd(r)
  {
    assert r == [r[0]] + r[1..];
    OddAppend([r[0]], r[1..]);
    OddSingle(r[0]);
    OddAppend(r[1..], [false]);
    OddSingle(false);
    OddXor(Left(r), POLY);
    OddPoly();
  }

  lemma {:induction false} ParityFlip(r: Reg, bit: bool)
    ensures Odd(Flip(r, bit)) == (Odd(r) != bit)
  {
    assert r == [r[0]] + r[1..] && Flip(r, bit) == [r[0] != bit] + r[1..];
    OddAppend([r[0]], r[1..]);
    OddAppend([r[0] != bit], r[1..]);
    OddSingle(r[0]);
    OddSingle(r[0] != bit);
  }

  /** The checksum carries the parity of everything it absorbed. */
  lemma {:induction false} ParityCarried(r: Reg, bits: seq<bool>)
    ensures Odd(FeedAll(r, bits)) == (Odd(r) != Odd(bits))
  {
    if bits != [] {
      var n := |bits| - 1;
      ParityCarried(r, bits[..n]);
      ParityFlip(FeedAll(r, bits[..n]), bits[n]);
      ParityShift(Flip(FeedAll(r, bits[..n]), bits[n]));
    }
  }

  /** Flipping any odd number of bits changes the checksum. */
  lemma {:induction false} OddFlipsDetected(r: Reg, x: seq<bool>, y: seq<bool>)
    requires |x| == |y| && Odd(Xor(x, y))
    ensures FeedAll(r, x) != FeedAll(r, y)
  {
    OddXor(x, y);
    ParityCarried(r, x);
    ParityCarried(r, y);
  }
}
