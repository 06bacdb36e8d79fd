/**
  What the checksum is, in absolute terms: the remainder of a schoolbook division
  of polynomials over GF(2) by x^16 + x^12 + x^5 + 1.
 */
module PolynomialDivision {
  import opened ShiftRegister

  /** The coefficients of x^16 + x^12 + x^5 + 1, highest first. */
  const DIVISOR: seq<bool> := [true, false, false, false, true, false, false, false, false,
                               false, false, true, false, false, false, false, true]

  /** The last sixteen coefficients left when DIVISOR is subtracted from the top wherever the top coefficient is one. */
  function Remainder(dividend: seq<bool>): seq<bool>
    requires |dividend| >= 16
    decreases |dividend|
  {
    if |dividend| == 16 then dividend
    else if dividend[0] then Remainder(Xor(dividend[..17], DIVISOR)[1..] + dividend[17..])
    else Remainder(dividend[1..])
  }

  /** The message followed by sixteen zeros, its first sixteen bits combined with the register. */
  function Dividend(r: Reg, bits: seq<bool>): seq<bool> {
    Xor(bits + Zeros(16), r + Zeros(|bits|))
  }

  /** One bit fed is one step of the division. */
  lemma {:induction false} FeedDivides(r: Reg, bit: bool, rest: seq<bool>)
    ensures var d, d' := Dividend(r, [bit] + rest), Dividend(Feed(r, bit), rest);
            d' == if d[0] then Xor(d[..17], DIVISOR)[1..] + d[17..] else d[1..]
  {
    var d, d', r' := Dividend(r, [bit] + rest), Dividend(Feed(r, bit), rest), Feed(r, bit);
    var step := if d[0] then Xor(d[..17], DIVISOR)[1..] + d[17..] else d[1..];
    assert d[0] == (bit != r[0]);
    forall i | 0 <= i < |d'|
      ensures d'[i] == step[i]
    {
      if i < 16 {
        FedBit(r, bit, i);
      }
      assert ([bit] + rest + Zeros(16))[i + 1] == (rest + Zeros(16))[i];
    }
  }

  lemma {:induction false} FedBit(r: Reg, bit: bool, i: nat)
    requires i < 16
    ensures Feed(r, bit)[i] == ((if i < 15 then r[i + 1] else false) != (bit != r[0] && DIVISOR[i + 1]))
  {
  }

  /** Whatever the initial register, the checksum is a remainder. */
  lemma {:induction false} FeedIsRemainder(r: Reg, bits: seq<bool>)
    ensures FeedAll(r, bits) == Remainder(Dividend(r, bits))
    decreases |bits|
  {
    if bits == [] {
      assert Dividend(r, bits) == r;
    } else {
      var rest := bits[1..];
      assert bits == [bits[0]] + rest;
      FeedAppend(r, [bits[0]], rest);
      FeedSingle(r, bits[0]);
      FeedIsRemainder(Feed(r, bits[0]), rest);
      FeedDivides(r, bits[0], rest);
    }
  }

  /** The bits with the first sixteen inverted. */
  function Complemented(bits: seq<bool>): (r: seq<bool>)
    requires |bits| >= 16
    ensures |r| == |bits| && forall i :: 0 <= i < |bits| ==> r[i] == (bits[i] != (i < 16))
  {
    seq(|bits|, i requires 0 <= i < |bits| => bits[i] != (i < 16))
  }

  function Ones(n: nat): (r: seq<bool>)
    ensures |r| == n && forall i :: 0 <= i < n ==> r[i]
  {
    seq(n, _ => true)
  }

  /** From an all-ones register the first sixteen bits are inverted. */
  lemma {:induction false} OnesInvert(bits: seq<bool>)
    ensures FeedAll(Ones(16), bits) == Remainder(Complemented(bits + Zeros(16)))
  {
    FeedIsRemainder(Ones(16), bits);
    assert Dividend(Ones(16), bits) == Complemented(bits + Zeros(16));
  }
}
