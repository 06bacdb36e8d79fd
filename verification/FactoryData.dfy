/**
  The read-only decoder of the 0x4001 factory data in
  src/meow_motor/calibration.rs, and what its checksum guarantees: no change of a
  single half-word, in the data or in the identity it is bound to, survives.
 */
module FactoryData {
  import opened Wrappers
  import opened ShiftRegister
  import opened Crc16

  type U32 = n: nat | n < 0x1_0000_0000
  type Words = s: seq<U32> | |s| == 7 witness [0, 0, 0, 0, 0, 0, 0]

  const MANIFEST_UPPER_V1: nat := 0x0106

  /** The fields of the device identity 0x1018. */
  datatype Identity = Identity(vendorId: U32, productCode: U32, revisionNumber: U32, serialNumber: U32)

  datatype DataError =
    | NotV1(found: nat, expected: nat)
    | CrcMismatch(found: nat, computed: nat)
    | ZeroToken
    | NonCanonicalE4m11(subindex: nat, raw: nat)
    | TorqueGroupInvalid(factor: real, rmse: real)
    | FrictionGroupInvalid

  datatype Friction = Friction(staticPos: real, staticNeg: real, kineticPos: real, kineticNeg: real,
                               referenceSpeed: real, temperature: real)

  datatype V1 = V1(words: Words, issuanceToken: nat, factor: real, fitRmse: real, friction: Option<Friction>)

  datatype Calibration = Missing(reason: DataError, words: Words) | Valid(v1: V1)

  // ---------------------------------------------------------------------
  // Transcript and checksum
  // ---------------------------------------------------------------------

  /** "hex-meow/0x4001/crc/v1" and a NUL. */
  const CRC_DOMAIN: seq<Byte> :=
    [104, 101, 120, 45, 109, 101, 111, 119, 47, 48, 120, 52, 48, 48, 49, 47, 99, 114, 99, 47, 118, 49, 0]

  function Lo(w: U32): nat {
    w % 0x1_0000
  }

  function Hi(w: U32): nat {
    w / 0x1_0000
  }

  /** A 16-bit value as two little-endian bytes. */
  function LeHalf(h: nat): seq<Byte>
    requires h < 0x1_0000
  {
    [h % 256, h / 256]
  }

  function Le(w: U32): seq<Byte> {
    LeHalf(Lo(w)) + LeHalf(Hi(w))
  }

  function LeAll(ws: seq<U32>): seq<Byte> {
    if ws == [] then [] else LeAll(ws[..|ws| - 1]) + Le(ws[|ws| - 1])
  }

  /** Everything the checksum covers, apart from the fixed prefix and suffix. */
  function Covered(id: Identity, words: Words): seq<U32> {
    [id.vendorId, id.productCode, id.serialNumber] + words[1..]
  }

  function Transcript(covered: seq<U32>): seq<Byte> {
    CRC_DOMAIN + LeAll(covered) + LeHalf(MANIFEST_UPPER_V1)
  }

  function FactoryCrc(id: Identity, words: Words): nat {
    ValueOf(Checksum(INITIAL, Transcript(Covered(id, words))))
  }

  method FactoryCrc16(id: Identity, words: Words) returns (crc: nat)
    ensures crc == FactoryCrc(id, words)
  {
    var transcript := CRC_DOMAIN;
    transcript := transcript + Le(id.vendorId);
    transcript := transcript + Le(id.productCode);
    transcript := transcript + Le(id.serialNumber);
    ghost var covered := Covered(id, words);
    ThreeFields(id.vendorId, id.productCode, id.serialNumber);
    assert covered[..3] == [id.vendorId, id.productCode, id.serialNumber];
    for i := 1 to 7
      invariant transcript == CRC_DOMAIN + LeAll(covered[..i + 2])
    {
      assert covered[..i + 3][..i + 2] == covered[..i + 2] && covered[i + 2] == words[i];
      transcript := transcript + Le(words[i]);
    }
    assert covered[..9] == covered;
    transcript := transcript + LeHalf(MANIFEST_UPPER_V1);
    var register := Crc16CcittFalse(transcript);
    crc := ValueOf(register);
  }

  lemma {:induction false} ThreeFields(a: U32, b: U32, c: U32)
    ensures LeAll([a, b, c]) == Le(a) + Le(b) + Le(c)
  {
    assert [a, b, c][..2] == [a, b];
    assert [a, b][..1] == [a];
    assert [a][..0] == [];
    assert LeAll([a]) == Le(a);
    assert LeAll([a, b]) == Le(a) + Le(b);
  }

  // ---------------------------------------------------------------------
  // Decoding
  // ---------------------------------------------------------------------

  /** Bias 7, eleven fraction bits, gradual underflow. */
  function Magnitude(exponent: nat, fraction: nat): real {
    if exponent == 0 then fraction as real / 2048.0 / 64.0
    else Pow2(exponent) as real / 128.0 * (1.0 + fraction as real / 2048.0)
  }

  /** The custom half-precision format: one sign bit, four exponent bits, eleven fraction bits. */
  function DecodeE4m11(raw: nat): Option<real>
    requires raw < 0x1_0000
  {
    var negative, exponent, fraction := raw / 0x8000 == 1, raw / 0x800 % 16, raw % 0x800;
    if exponent == 15 || (exponent == 0 && fraction == 0 && negative) then None
    else if negative then Some(-Magnitude(exponent, fraction))
    else Some(Magnitude(exponent, fraction))
  }

  function E4m11(subindex: nat, raw: nat): Result<real, DataError>
    requires raw < 0x1_0000
  {
    var value := DecodeE4m11(raw);
    if value.Some? then Ok(value.value) else Err(NonCanonicalE4m11(subindex, raw))
  }

  function DecodeFriction(words: Words): Result<Option<Friction>, DataError> {
    if words[4] == 0 && words[5] == 0 && words[6] == 0 then
      Ok(None)
    else
      var staticPos :- E4m11(5, Lo(words[4]));
      var staticNeg :- E4m11(5, Hi(words[4]));
      var kineticPos :- E4m11(6, Lo(words[5]));
      var kineticNeg :- E4m11(6, Hi(words[5]));
      var speed :- E4m11(7, Lo(words[6]));
      if staticPos <= 0.0 || staticNeg <= 0.0 || kineticPos <= 0.0 || kineticNeg <= 0.0 || speed <= 0.0 then
        Err(FrictionGroupInvalid)
      else
        var temperature :- E4m11(7, Hi(words[6]));
        Ok(Some(Friction(staticPos, staticNeg, kineticPos, kineticNeg, speed, temperature)))
  }

  function DecodePayload(words: Words): Result<V1, DataError> {
    var token := words[1] as int + words[2] as int * 0x1_0000_0000;
    if token == 0 then
      Err(ZeroToken)
    else
      var factor :- E4m11(4, Lo(words[3]));
      var rmse :- E4m11(4, Hi(words[3]));
      if factor <= 0.0 || rmse < 0.0 then
        Err(TorqueGroupInvalid(factor, rmse))
      else
        var friction :- DecodeFriction(words);
        Ok(V1(words, token, factor, rmse, friction))
  }

  function DecodeV1(id: Identity, words: Words): Result<V1, DataError> {
    if Hi(words[0]) != MANIFEST_UPPER_V1 then
      Err(NotV1(Hi(words[0]), MANIFEST_UPPER_V1))
    else if Lo(words[0]) != FactoryCrc(id, words) then
      Err(CrcMismatch(Lo(words[0]), FactoryCrc(id, words)))
    else
      DecodePayload(words)
  }

  function Decode(id: Identity, words: Words): Calibration {
    match DecodeV1(id, words)
    case Ok(v1) => Valid(v1)
    case Err(reason) => Missing(reason, words)
  }

  // ---------------------------------------------------------------------
  // What the decoded values mean
  // ---------------------------------------------------------------------

  /** Distance to the next larger magnitude; subnormals share it with the first normals. */
  function Ulp(exponent: nat): real {
    Pow2(if exponent == 0 then 1 else exponent) as real / 128.0 / 2048.0
  }

  lemma {:induction false} MagnitudeSteps(e: nat, f: nat)
    ensures Magnitude(e, f + 1) == Magnitude(e, f) + Ulp(e)
    ensures Magnitude(e + 1, 0) == Magnitude(e, 0x7FF) + Ulp(e)
  {
    if e == 0 {
      assert Pow2(1) == 2;
      Fractions(f);
    } else {
      var scale := Pow2(e) as real / 128.0;
      Fractions(f);
      Distribute(scale, 1.0 + f as real / 2048.0, 1.0 / 2048.0);
      Distribute(scale, 1.0 + 2047.0 / 2048.0, 1.0 / 2048.0);
      assert Pow2(e + 1) == 2 * Pow2(e);
    }
  }

  lemma {:induction false} Fractions(f: nat)
    ensures (f + 1) as real / 2048.0 == f as real / 2048.0 + 1.0 / 2048.0
  {
  }

  lemma {:induction false} Distribute(s: real, a: real, b: real)
    ensures s * (a + b) == s * a + s * b
  {
  }

  lemma {:induction false} DecodePositive(raw: nat)
    requires raw < 0x8000
    ensures DecodeE4m11(raw) == if raw < 0x7800 then Some(Magnitude(raw / 0x800, raw % 0x800)) else None
  {
  }

  lemma {:induction false} NextCode(raw: nat)
    ensures raw % 0x800 < 0x7FF ==> (raw + 1) / 0x800 == raw / 0x800 && (raw + 1) % 0x800 == raw % 0x800 + 1
    ensures raw % 0x800 == 0x7FF ==> (raw + 1) / 0x800 == raw / 0x800 + 1 && (raw + 1) % 0x800 == 0
  {
  }

  lemma {:induction false} NextMagnitude(raw: nat)
    requires raw + 1 < 0x7800
    ensures Magnitude((raw + 1) / 0x800, (raw + 1) % 0x800) == Magnitude(raw / 0x800, raw % 0x800) + Ulp(raw / 0x800)
  {
    NextCode(raw);
    MagnitudeSteps(raw / 0x800, raw % 0x800);
  }

  lemma {:induction false} ZeroCode()
    ensures DecodeE4m11(0) == Some(0.0)
  {
    assert Magnitude(0, 0) == 0.0;
  }

  /**
    Counting up from zero, the codes run through the values without a gap: each
    step adds one unit in the last place, through the subnormals and across every
    change of exponent, up to the reserved exponent.
   */
  lemma {:induction false} E4m11Steps(raw: nat)
    requires raw + 1 < 0x7800
    ensures DecodeE4m11(0) == Some(0.0)
    ensures DecodeE4m11(raw).Some? && DecodeE4m11(raw + 1) == Some(DecodeE4m11(raw).value + Ulp(raw / 0x800))
  {
    ZeroCode();
    DecodePositive(raw);
    DecodePositive(raw + 1);
    NextMagnitude(raw);
  }

  lemma {:induction false} DecodeNormal(raw: nat, e: nat, f: nat, p: nat, value: real)
    requires 0 < e < 15 && f < 0x800 && raw == 0x800 * e + f && Pow2(e) == p
    requires value == p as real / 128.0 * (1.0 + f as real / 2048.0)
    ensures DecodeE4m11(raw) == Some(value)
  {
    Parts(e, f);
    assert raw < 0x7800;
    DecodePositive(raw);
    assert Magnitude(e, f) == value;
  }

  lemma {:induction false} Parts(e: nat, f: nat)
    requires f < 0x800
    ensures (0x800 * e + f) / 0x800 == e && (0x800 * e + f) % 0x800 == f
  {
  }

  lemma {:induction false} Powers()
    ensures Pow2(3) == 8 && Pow2(5) == 32 && Pow2(6) == 64 && Pow2(7) == 128 && Pow2(8) == 256 && Pow2(11) == 2048
    ensures Pow2(14) == 16384
  {
    assert Pow2(3) == 8;
    assert Pow2(6) == 8 * Pow2(3) && Pow2(5) == 4 * Pow2(3);
    assert Pow2(8) == 4 * Pow2(6) && Pow2(7) == 2 * Pow2(6);
    assert Pow2(11) == 8 * Pow2(8);
    assert Pow2(14) == 8 * Pow2(11);
  }

  /** Values fixed by the format: a half, integers, the largest, the smallest, and a tenth as near as it gets. */
  predicate FrozenValue(raw: nat, value: real) {
    || (raw == 0x2800 && value == 0.25) || (raw == 0x3000 && value == 0.5) || (raw == 0x3800 && value == 1.0)
    || (raw == 0x4000 && value == 2.0) || (raw == 0x5C80 && value == 25.0) || (raw == 0x77FF && value == 255.9375)
    || (raw == 0x0001 && value == 1.0 / 131072.0) || (raw == 0x1CCD && value == 3277.0 / 32768.0)
  }

  lemma {:induction false} E4m11Frozen(raw: nat, value: real)
    requires FrozenValue(raw, value)
    ensures DecodeE4m11(raw) == Some(value)
  {
    Powers();
    if raw == 1 {
      DecodePositive(1);
    } else if raw == 0x2800 {
      DecodeNormal(raw, 5, 0, 32, value);
    } else if raw == 0x3000 {
      DecodeNormal(raw, 6, 0, 64, value);
    } else if raw == 0x3800 {
      DecodeNormal(raw, 7, 0, 128, value);
    } else if raw == 0x4000 {
      DecodeNormal(raw, 8, 0, 256, value);
    } else if raw == 0x5C80 {
      DecodeNormal(raw, 11, 0x480, 2048, value);
    } else if raw == 0x77FF {
      DecodeNormal(raw, 14, 0x7FF, 16384, value);
    } else if raw == 0x1CCD {
      DecodeNormal(raw, 3, 0x4CD, 8, value);
    }
  }

  /** The sign bit negates; negative zero and the reserved exponent are refused, and nothing else is. */
  lemma {:induction false} E4m11Sign(raw: nat)
    requires raw < 0x8000
    ensures DecodeE4m11(raw).Some? <==> raw < 0x7800
    ensures DecodeE4m11(raw + 0x8000) == if raw == 0 || raw >= 0x7800 then None else Some(-DecodeE4m11(raw).value)
  {
    DecodePositive(raw);
    SignedParts(raw);
  }

  lemma {:induction false} SignedParts(raw: nat)
    requires raw < 0x8000
    ensures (raw + 0x8000) / 0x8000 == 1 && (raw + 0x8000) / 0x800 % 16 == raw / 0x800
    ensures (raw + 0x8000) % 0x800 == raw % 0x800
  {
  }

  /** Larger codes are larger values, so no two canonical codes share a value. */
  lemma {:induction false} E4m11Increasing(a: nat, b: nat)
    requires a < b < 0x7800
    ensures DecodeE4m11(a).Some? && DecodeE4m11(b).Some? && DecodeE4m11(a).value < DecodeE4m11(b).value
    decreases b
  {
    E4m11Steps(b - 1);
    if a < b - 1 {
      E4m11Increasing(a, b - 1);
    }
  }

  /** Every field is the decoded half-word of its place; what must be positive is. */
  predicate Usable(v1: V1, words: Words) {
    && v1.words == words
    && v1.issuanceToken == words[1] as int + 0x1_0000_0000 * words[2] as int && v1.issuanceToken != 0
    && DecodeE4m11(Lo(words[3])) == Some(v1.factor) && v1.factor > 0.0
    && DecodeE4m11(Hi(words[3])) == Some(v1.fitRmse) && v1.fitRmse >= 0.0
    && FrictionFits(v1.friction, words)
  }

  /** Friction is a whole group of positive values, or absent when its three words are zero. */
  predicate FrictionFits(friction: Option<Friction>, words: Words) {
    if words[4] == 0 && words[5] == 0 && words[6] == 0 then friction.None?
    else friction.Some? && FrictionFrom(friction.value, words)
  }

  lemma {:induction false} FrictionIsUsable(words: Words)
    ensures DecodeFriction(words).Ok? ==> FrictionFits(DecodeFriction(words).value, words)
  {
  }

  lemma {:induction false} PayloadIsUsable(words: Words)
    ensures DecodePayload(words).Ok? ==> Usable(DecodePayload(words).value, words)
  {
    FrictionIsUsable(words);
  }

  /** Nothing half-valid is ever handed out. */
  lemma {:induction false} ValidDataIsUsable(id: Identity, words: Words)
    ensures Decode(id, words).Valid? ==> Usable(Decode(id, words).v1, words)
  {
    PayloadIsUsable(words);
  }

  predicate FrictionFrom(f: Friction, words: Words) {
    && DecodeE4m11(Lo(words[4])) == Some(f.staticPos) && f.staticPos > 0.0
    && DecodeE4m11(Hi(words[4])) == Some(f.staticNeg) && f.staticNeg > 0.0
    && DecodeE4m11(Lo(words[5])) == Some(f.kineticPos) && f.kineticPos > 0.0
    && DecodeE4m11(Hi(words[5])) == Some(f.kineticNeg) && f.kineticNeg > 0.0
    && DecodeE4m11(Lo(words[6])) == Some(f.referenceSpeed) && f.referenceSpeed > 0.0
    && DecodeE4m11(Hi(words[6])) == Some(f.temperature)
  }

  lemma {:induction false} FrictionExactly(words: Words, friction: Option<Friction>)
    ensures DecodeFriction(words) == Ok(friction) <==> FrictionFits(friction, words)
  {
  }

  lemma {:induction false} PayloadExactly(words: Words, v1: V1)
    ensures DecodePayload(words) == Ok(v1) <==> Usable(v1, words)
  {
    FrictionExactly(words, v1.friction);
  }

  /** The manifest and the checksum are right. */
  predicate Sealed(id: Identity, words: Words) {
    Hi(words[0]) == 0x0106 && Lo(words[0]) == FactoryCrc(id, words)
  }

  /** Data decode as valid, to a given calibration, exactly if they are sealed for the identity and hold it. */
  lemma {:induction false} ValidExactly(id: Identity, words: Words, v1: V1)
    ensures Decode(id, words) == Valid(v1) <==> Sealed(id, words) && Usable(v1, words)
  {
    PayloadExactly(words, v1);
  }

  /** A torque group that decodes and is usable. */
  predicate TorqueFits(words: Words) {
    var factor, rmse := DecodeE4m11(Lo(words[3])), DecodeE4m11(Hi(words[3]));
    factor.Some? && rmse.Some? && factor.value > 0.0 && rmse.value >= 0.0
  }

  /** The values of the friction group that must be positive. */
  function FrictionParts(words: Words): seq<Option<real>> {
    [DecodeE4m11(Lo(words[4])), DecodeE4m11(Hi(words[4])), DecodeE4m11(Lo(words[5])), DecodeE4m11(Hi(words[5])),
     DecodeE4m11(Lo(words[6]))]
  }

  /** Sealed data that are no calibration say why: the serial token, the torque group, then the friction group. */
  lemma {:induction false} ReasonExactly(id: Identity, words: Words, factor: real, rmse: real)
    requires Sealed(id, words)
    ensures Decode(id, words) == Missing(ZeroToken, words) <==> words[1] == 0 && words[2] == 0
    ensures Decode(id, words) == Missing(TorqueGroupInvalid(factor, rmse), words)
            <==> && !(words[1] == 0 && words[2] == 0) && (factor <= 0.0 || rmse < 0.0)
                 && DecodeE4m11(Lo(words[3])) == Some(factor) && DecodeE4m11(Hi(words[3])) == Some(rmse)
    ensures Decode(id, words) == Missing(FrictionGroupInvalid, words)
            <==> && !(words[1] == 0 && words[2] == 0) && TorqueFits(words)
                 && !(words[4] == 0 && words[5] == 0 && words[6] == 0)
                 && (forall i :: 0 <= i < 5 ==> FrictionParts(words)[i].Some?)
                 && (exists i :: 0 <= i < 5 && FrictionParts(words)[i].value <= 0.0)
  {
    SealedDecides(id, words, ZeroToken);
    SealedDecides(id, words, TorqueGroupInvalid(factor, rmse));
    SealedDecides(id, words, FrictionGroupInvalid);
    PayloadReason(words, factor, rmse);
    PartsOfFriction(words);
  }

  lemma {:induction false} SealedDecides(id: Identity, words: Words, reason: DataError)
    requires Sealed(id, words)
    ensures Decode(id, words) == Missing(reason, words) <==> DecodePayload(words) == Err(reason)
  {
  }

  lemma {:induction false} PayloadReason(words: Words, factor: real, rmse: real)
    ensures DecodePayload(words) == Err(ZeroToken) <==> words[1] == 0 && words[2] == 0
    ensures DecodePayload(words) == Err(TorqueGroupInvalid(factor, rmse))
            <==> && !(words[1] == 0 && words[2] == 0) && (factor <= 0.0 || rmse < 0.0)
                 && DecodeE4m11(Lo(words[3])) == Some(factor) && DecodeE4m11(Hi(words[3])) == Some(rmse)
    ensures DecodePayload(words) == Err(FrictionGroupInvalid)
            <==> !(words[1] == 0 && words[2] == 0) && TorqueFits(words)
                 && DecodeFriction(words) == Err(FrictionGroupInvalid)
  {
    ZeroIsToken(words[1], words[2]);
  }

  lemma {:induction false} ZeroIsToken(low: U32, high: U32)
    ensures low as int + high as int * 0x1_0000_0000 == 0 <==> low == 0 && high == 0
  {
  }

  lemma {:induction false} PartsOfFriction(words: Words)
    ensures DecodeFriction(words) == Err(FrictionGroupInvalid)
            <==> && !(words[4] == 0 && words[5] == 0 && words[6] == 0)
                 && (forall i :: 0 <= i < 5 ==> FrictionParts(words)[i].Some?)
                 && (exists i :: 0 <= i < 5 && FrictionParts(words)[i].value <= 0.0)
  {
    var parts := FrictionParts(words);
    var a, b, c, d, e := parts[0], parts[1], parts[2], parts[3], parts[4];
    if DecodeFriction(words) == Err(FrictionGroupInvalid) {
      var i := if a.value <= 0.0 then 0 else if b.value <= 0.0 then 1 else if c.value <= 0.0 then 2
               else if d.value <= 0.0 then 3 else 4;
      assert parts[i].value <= 0.0;
    }
  }

  // ---------------------------------------------------------------------
  // What the checksum guarantees
  // ---------------------------------------------------------------------

  /** Exactly one of the two half-words differs. */
  predicate OneHalfDiffers(a: U32, b: U32) {
    (Lo(a) == Lo(b)) != (Hi(a) == Hi(b))
  }

  /** The whole protected region: the identity fields that are bound to the data, and the seven words. */
  function Region(id: Identity, words: Words): (r: seq<U32>)
    ensures |r| == 10
  {
    [id.vendorId, id.productCode, id.serialNumber] + words
  }

  lemma {:induction false} LeAllAppend(x: seq<U32>, y: seq<U32>)
    ensures LeAll(x + y) == LeAll(x) + LeAll(y)
  {
    if y == [] {
      assert x + y == x;
    } else {
      var n := |y| - 1;
      assert (x + y)[..|x + y| - 1] == x + y[..n];
      LeAllAppend(x, y[..n]);
      assert LeAll(x) + LeAll(y[..n]) + Le(y[n]) == LeAll(x) + (LeAll(y[..n]) + Le(y[n]));
    }
  }

  lemma {:induction false} LeSingle(w: U32)
    ensures LeAll([w]) == Le(w)
  {
    assert [w][..0] == [];
  }

  /** The transcript around one covered word. */
  lemma {:induction false} TranscriptAround(p: seq<U32>, w: U32, s: seq<U32>)
    ensures Transcript(p + [w] + s) == CRC_DOMAIN + LeAll(p) + Le(w) + (LeAll(s) + LeHalf(MANIFEST_UPPER_V1))
  {
    LeAllAppend(p + [w], s);
    LeAllAppend(p, [w]);
    LeSingle(w);
  }

  lemma {:induction false} WordChangeDetected(p: seq<U32>, v: U32, w: U32, s: seq<U32>)
    requires OneHalfDiffers(v, w)
    ensures Checksum(INITIAL, Transcript(p + [v] + s)) != Checksum(INITIAL, Transcript(p + [w] + s))
  {
    TranscriptAround(p, v, s);
    TranscriptAround(p, w, s);
    var before, after := CRC_DOMAIN + LeAll(p), LeAll(s) + LeHalf(MANIFEST_UPPER_V1);
    if Lo(v) == Lo(w) {
      Regroup(before, LeHalf(Lo(v)), LeHalf(Hi(v)), after);
      Regroup(before, LeHalf(Lo(w)), LeHalf(Hi(w)), after);
      AdjacentBytesDetected(INITIAL, before + LeHalf(Lo(v)), LeHalf(Hi(v)), LeHalf(Hi(w)), after);
    } else {
      Regroup(before, LeHalf(Lo(v)), LeHalf(Hi(v)), after);
      Regroup(before, LeHalf(Lo(w)), LeHalf(Hi(w)), after);
      AdjacentBytesDetected(INITIAL, before, LeHalf(Lo(v)), LeHalf(Lo(w)), LeHalf(Hi(v)) + after);
    }
  }

  lemma {:induction false} Regroup(p: seq<Byte>, lo: seq<Byte>, hi: seq<Byte>, s: seq<Byte>)
    ensures p + (lo + hi) + s == (p + lo) + hi + s == p + lo + (hi + s)
  {
  }

  lemma {:induction false} ChecksumIsNumber(x: seq<Byte>, y: seq<Byte>)
    ensures ValueOf(Checksum(INITIAL, x)) == ValueOf(Checksum(INITIAL, y))
            <==> Checksum(INITIAL, x) == Checksum(INITIAL, y)
  {
    BitsOfValue(Checksum(INITIAL, x));
    BitsOfValue(Checksum(INITIAL, y));
  }

  lemma {:induction false} CoveredChangeDetected(c: seq<U32>, j: nat, v: U32)
    requires j < |c| && OneHalfDiffers(c[j], v)
    ensures ValueOf(Checksum(INITIAL, Transcript(c[j := v]))) != ValueOf(Checksum(INITIAL, Transcript(c)))
  {
    assert c[j := v] == c[..j] + [v] + c[j + 1..] && c == c[..j] + [c[j]] + c[j + 1..];
    WordChangeDetected(c[..j], c[j], v, c[j + 1..]);
    ChecksumIsNumber(Transcript(c), Transcript(c[j := v]));
  }

  lemma {:induction false} ChecksDecide(id: Identity, words: Words)
    ensures Decode(id, words).Valid? ==> Hi(words[0]) == MANIFEST_UPPER_V1 && Lo(words[0]) == FactoryCrc(id, words)
    ensures Hi(words[0]) != MANIFEST_UPPER_V1
            ==> Decode(id, words) == Missing(NotV1(Hi(words[0]), MANIFEST_UPPER_V1), words)
    ensures Hi(words[0]) == MANIFEST_UPPER_V1 && Lo(words[0]) != FactoryCrc(id, words)
            ==> Decode(id, words) == Missing(CrcMismatch(Lo(words[0]), FactoryCrc(id, words)), words)
  {
  }

  /** Outside the manifest word, a change of the region is a change of the covered words. */
  lemma {:induction false} RegionIsCovered(id: Identity, words: Words, id': Identity, words': Words, k: nat, v: U32)
    requires k < 10 && Region(id', words') == Region(id, words)[k := v]
    ensures k == 3 ==> words'[0] == v && Region(id, words)[3] == words[0] && Covered(id', words') == Covered(id, words)
    ensures k != 3 ==> words'[0] == words[0]
    ensures var j := if k < 3 then k else k - 1;
            k != 3 ==> Covered(id, words)[j] == Region(id, words)[k]
                       && Covered(id', words') == Covered(id, words)[j := v]
  {
    var r, r' := Region(id, words), Region(id', words');
    assert r[3..] == words && r'[3..] == words';
    assert r[3] == words[0] && r'[3] == words'[0];
    assert Covered(id, words) == r[..3] + r[4..] && Covered(id', words') == r'[..3] + r'[4..];
  }

  /**
    If the data decodes as valid for an identity, then changing exactly one
    half-word of any of the seven words, or of the vendor, product or serial
    number, makes it decode as missing, for the reason stated.
   */
  lemma {:induction false} HalfWordChangeDetected(id: Identity, words: Words, id': Identity, words': Words,
      k: nat, v: U32)
    requires k < 10 && OneHalfDiffers(Region(id, words)[k], v) && Region(id', words') == Region(id, words)[k := v]
    ensures var reason := if k == 3 && Hi(v) != Hi(words[0]) then NotV1(Hi(v), MANIFEST_UPPER_V1)
                          else CrcMismatch(Lo(words'[0]), FactoryCrc(id', words'));
            Decode(id, words).Valid? ==> Decode(id', words') == Missing(reason, words')
  {
    ChecksDecide(id, words);
    ChecksDecide(id', words');
    RegionIsCovered(id, words, id', words', k, v);
    if k != 3 {
      CoveredChangeDetected(Covered(id, words), if k < 3 then k else k - 1, v);
    }
  }

  lemma {:induction false} TranscriptLength(covered: seq<U32>)
    ensures |Transcript(covered)| == 25 + 4 * |covered|
  {
    if covered != [] {
      TranscriptLength(covered[..|covered| - 1]);
    }
  }

  /** The 61 bytes of the transcript as bits. */
  function TranscriptBits(id: Identity, words: Words): (r: seq<bool>)
    ensures |r| == 8 * 61
  {
    TranscriptLength(Covered(id, words));
    AllBits(Transcript(Covered(id, words)))
  }

  lemma {:induction false} CrcFollowsBits(id: Identity, words: Words, id': Identity, words': Words)
    ensures FactoryCrc(id, words) == FactoryCrc(id', words')
            <==> FeedAll(INITIAL, TranscriptBits(id, words)) == FeedAll(INITIAL, TranscriptBits(id', words'))
  {
    var t, t' := Transcript(Covered(id, words)), Transcript(Covered(id', words'));
    ChecksumIsFeed(INITIAL, t);
    ChecksumIsFeed(INITIAL, t');
    ChecksumIsNumber(t, t');
  }

  /** Flipping any odd number of covered bits is detected too. */
  lemma {:induction false} OddBitChangeDetected(id: Identity, words: Words, id': Identity, words': Words)
    requires words'[0] == words[0]
    ensures Decode(id, words).Valid? && Odd(Xor(TranscriptBits(id, words), TranscriptBits(id', words')))
            ==> FailsChecksum(id', words')
  {
    CrcFollowsBits(id, words, id', words');
    if Odd(Xor(TranscriptBits(id, words), TranscriptBits(id', words'))) {
      OddFlipsDetected(INITIAL, TranscriptBits(id, words), TranscriptBits(id', words'));
    }
    ChecksDecide(id, words);
    ChecksDecide(id', words');
  }

  predicate FailsChecksum(id: Identity, words: Words) {
    var d := Decode(id, words);
    d.Missing? && d.reason.CrcMismatch?
  }

  lemma {:induction false} PayloadKeepsChecksum(words: Words)
    ensures DecodePayload(words).Err? ==> !DecodePayload(words).error.CrcMismatch?
  {
  }

  /**
    Exactly which other identity or payload gets past the checksum: one whose
    transcript differs by a pattern with checksum zero from a zero register.
   */
  lemma {:induction false} ForeignDataPassesExactly(id: Identity, words: Words, id': Identity, words': Words)
    requires Decode(id, words).Valid? && words'[0] == words[0]
    ensures FailsChecksum(id', words')
            <==> FeedAll(ZERO, Xor(TranscriptBits(id, words), TranscriptBits(id', words'))) != ZERO
  {
    CrcFollowsBits(id, words, id', words');
    CollideExactly(INITIAL, TranscriptBits(id, words), TranscriptBits(id', words'));
    ChecksDecide(id, words);
    ChecksDecide(id', words');
    PayloadKeepsChecksum(words');
  }

  /** A firmware update changes the revision number only, and keeps the calibration. */
  lemma {:induction false} RevisionIsNotBound(id: Identity, words: Words, revision: U32)
    ensures Decode(id.(revisionNumber := revision), words) == Decode(id, words)
  {
    assert Covered(id.(revisionNumber := revision), words) == Covered(id, words);
  }
}
