/**
  One set of factory data worked out in full: the checksum of its 61 bytes and the
  calibration it decodes to.
 */
module FactoryVector {
  import opened Wrappers
  import opened ShiftRegister
  import opened Crc16
  import opened CrcValues
  import opened FactoryData

  const IDENTITY: Identity := Identity(0x0068_6578, 0x6C64_BC78, 0x0002_0000, 0x0111_B49A)
  const WORDS: Words := [0x0106_2E25, 0x89AB_CDEF, 0x0123_4567, 0x1CCD_3800, 0x3000_3000, 0x2800_2800, 0x5C80_3800]

  // ---------------------------------------------------------------------
  // The checksum
  // ---------------------------------------------------------------------

  lemma {:induction false} DomainStart() returns (bytes: seq<Byte>)
    ensures bytes == [104, 101, 120, 45, 109, 101, 111, 119, 47, 48, 120, 52]
    ensures Leads(Hex(15, 15, 15, 15), bytes, Hex(0, 7, 1, 15))
  {
    var p := LeadsFour(Hex(15, 15, 15, 15), 6, 8, Hex(0, 12, 5, 14), 6, 5, Hex(10, 3, 8, 15),
      7, 8, Hex(15, 5, 1, 6), 2, 13, Hex(5, 12, 7, 5));
    bytes := p;
    var q4 := LeadsFour(Hex(5, 12, 7, 5), 6, 13, Hex(5, 3, 7, 2), 6, 5, Hex(2, 4, 9, 5),
      6, 15, Hex(6, 12, 10, 15), 7, 7, Hex(0, 12, 5, 10));
    LeadsOn(Hex(15, 15, 15, 15), bytes, Hex(5, 12, 7, 5), q4, Hex(0, 12, 5, 10));
    bytes := bytes + q4;
    var q8 := LeadsFour(Hex(0, 12, 5, 10), 2, 15, Hex(4, 14, 0, 1), 3, 0, Hex(9, 14, 5, 9),
      7, 8, Hex(12, 4, 14, 8), 3, 4, Hex(0, 7, 1, 15));
    LeadsOn(Hex(15, 15, 15, 15), bytes, Hex(0, 12, 5, 10), q8, Hex(0, 7, 1, 15));
    bytes := bytes + q8;
  }

  lemma {:induction false} DomainEnd() returns (bytes: seq<Byte>)
    ensures bytes == [48, 48, 49, 47, 99, 114, 99, 47, 118, 49, 0]
    ensures Leads(Hex(0, 7, 1, 15), bytes, Hex(14, 9, 2, 11))
  {
    var p := LeadsFour(Hex(0, 7, 1, 15), 3, 0, Hex(5, 9, 11, 4), 3, 0, Hex(4, 9, 8, 15),
      3, 1, Hex(7, 0, 9, 15), 2, 15, Hex(3, 4, 1, 10));
    bytes := p;
    var q16 := LeadsFour(Hex(3, 4, 1, 10), 6, 3, Hex(3, 0, 1, 2), 7, 2, Hex(7, 10, 8, 6),
      6, 3, Hex(0, 5, 1, 8), 2, 15, Hex(9, 13, 2, 8));
    LeadsOn(Hex(0, 7, 1, 15), bytes, Hex(3, 4, 1, 10), q16, Hex(9, 13, 2, 8));
    bytes := bytes + q16;
    var r := LeadsTwo(Hex(9, 13, 2, 8), 7, 6, Hex(6, 4, 4, 5), 3, 1, Hex(4, 15, 5, 0));
    LeadsOn(Hex(0, 7, 1, 15), bytes, Hex(9, 13, 2, 8), r, Hex(4, 15, 5, 0));
    bytes := bytes + r;
    var s := LeadsOne(Hex(4, 15, 5, 0), 0, 0, Hex(14, 9, 2, 11));
    LeadsOn(Hex(0, 7, 1, 15), bytes, Hex(4, 15, 5, 0), s, Hex(14, 9, 2, 11));
    bytes := bytes + s;
  }

  lemma {:induction false} IdentityBytes() returns (bytes: seq<Byte>)
    ensures bytes == [120, 101, 104, 0, 120, 188, 100, 108, 154, 180, 17, 1]
    ensures Leads(Hex(14, 9, 2, 11), bytes, Hex(14, 1, 9, 8))
  {
    var p := LeadsFour(Hex(14, 9, 2, 11), 7, 8, Hex(11, 8, 9, 8), 6, 5, Hex(8, 2, 13, 0),
      6, 8, Hex(8, 12, 6, 4), 0, 0, Hex(3, 4, 0, 4));
    bytes := p;
    var q27 := LeadsFour(Hex(3, 4, 0, 4), 7, 8, Hex(8, 13, 4, 8), 11, 12, Hex(6, 14, 7, 2),
      6, 4, Hex(13, 3, 4, 10), 6, 12, Hex(1, 12, 3, 4));
    LeadsOn(Hex(14, 9, 2, 11), bytes, Hex(3, 4, 0, 4), q27, Hex(1, 12, 3, 4));
    bytes := bytes + q27;
    var q31 := LeadsFour(Hex(1, 12, 3, 4), 9, 10, Hex(12, 5, 4, 14), 11, 4, Hex(2, 0, 11, 6),
      1, 1, Hex(9, 0, 7, 2), 0, 1, Hex(14, 1, 9, 8));
    LeadsOn(Hex(14, 9, 2, 11), bytes, Hex(1, 12, 3, 4), q31, Hex(14, 1, 9, 8));
    bytes := bytes + q31;
  }

  lemma {:induction false} TokenBytes() returns (bytes: seq<Byte>)
    ensures bytes == [239, 205, 171, 137, 103, 69, 35, 1]
    ensures Leads(Hex(14, 1, 9, 8), bytes, Hex(1, 8, 3, 1))
  {
    var p := LeadsFour(Hex(14, 1, 9, 8), 14, 15, Hex(7, 9, 12, 14), 12, 13, Hex(2, 9, 5, 15),
      10, 11, Hex(14, 14, 12, 10), 8, 9, Hex(13, 6, 4, 1));
    bytes := p;
    var q39 := LeadsFour(Hex(13, 6, 4, 1), 6, 7, Hex(15, 6, 15, 10), 4, 5, Hex(6, 13, 11, 8),
      2, 3, Hex(1, 1, 0, 10), 0, 1, Hex(1, 8, 3, 1));
    LeadsOn(Hex(14, 1, 9, 8), bytes, Hex(13, 6, 4, 1), q39, Hex(1, 8, 3, 1));
    bytes := bytes + q39;
  }

  lemma {:induction false} TorqueBytes() returns (bytes: seq<Byte>)
    ensures bytes == [0, 56, 205, 28, 0, 48, 0, 48]
    ensures Leads(Hex(1, 8, 3, 1), bytes, Hex(8, 4, 5, 6))
  {
    var p := LeadsFour(Hex(1, 8, 3, 1), 0, 0, Hex(10, 2, 3, 9), 3, 8, Hex(1, 11, 15, 3),
      12, 13, Hex(5, 8, 11, 11), 1, 12, Hex(11, 3, 4, 0));
    bytes := p;
    var q47 := LeadsFour(Hex(11, 3, 4, 0), 0, 0, Hex(13, 7, 11, 8), 3, 0, Hex(3, 5, 12, 9),
      0, 0, Hex(10, 15, 15, 6), 3, 0, Hex(8, 4, 5, 6));
    LeadsOn(Hex(1, 8, 3, 1), bytes, Hex(11, 3, 4, 0), q47, Hex(8, 4, 5, 6));
    bytes := bytes + q47;
  }

  lemma {:induction false} FrictionBytes() returns (bytes: seq<Byte>)
    ensures bytes == [0, 40, 0, 40, 0, 56, 128, 92]
    ensures Leads(Hex(8, 4, 5, 6), bytes, Hex(10, 2, 7, 9))
  {
    var p := LeadsFour(Hex(8, 4, 5, 6), 0, 0, Hex(8, 7, 0, 12), 2, 8, Hex(4, 8, 0, 5),
      0, 0, Hex(12, 12, 12, 12), 2, 8, Hex(7, 1, 10, 10));
    bytes := p;
    var q55 := LeadsFour(Hex(7, 1, 10, 10), 0, 0, Hex(12, 4, 11, 6), 3, 8, Hex(9, 8, 9, 3),
      8, 0, Hex(0, 0, 3, 9), 5, 12, Hex(10, 2, 7, 9));
    LeadsOn(Hex(8, 4, 5, 6), bytes, Hex(7, 1, 10, 10), q55, Hex(10, 2, 7, 9));
    bytes := bytes + q55;
  }

  lemma {:induction false} ManifestBytes() returns (bytes: seq<Byte>)
    ensures bytes == [6, 1] && Leads(Hex(10, 2, 7, 9), bytes, Hex(2, 14, 2, 5))
  {
    bytes := LeadsTwo(Hex(10, 2, 7, 9), 0, 6, Hex(8, 12, 6, 14), 0, 1, Hex(2, 14, 2, 5));
  }

  lemma {:induction false} LeOf(w: U32, a: Byte, b: Byte, c: Byte, d: Byte)
    requires w == a + 0x100 * b + 0x1_0000 * c + 0x100_0000 * d
    ensures Le(w) == [a, b, c, d]
  {
    Halves(w, a + 0x100 * b, c + 0x100 * d);
    HalfOf(a, b);
    HalfOf(c, d);
  }

  lemma {:induction false} Halves(w: U32, lo: nat, hi: nat)
    requires lo < 0x1_0000 && w == lo + 0x1_0000 * hi
    ensures Lo(w) == lo && Hi(w) == hi
  {
  }

  lemma {:induction false} HalfOf(a: Byte, b: Byte)
    ensures LeHalf(a + 0x100 * b) == [a, b]
  {
  }

  lemma {:induction false} TwoWords(a: U32, b: U32)
    ensures LeAll([a, b]) == Le(a) + Le(b)
  {
    assert [a, b][..1] == [a];
    assert [a][..0] == [];
    assert LeAll([a]) == Le(a);
  }

  /** The bytes of the words, grouped as above. */
  lemma {:induction false} CoveredBytes(covered: seq<U32>)
    requires covered == Covered(IDENTITY, WORDS)
    ensures LeAll(covered)
            == [120, 101, 104, 0, 120, 188, 100, 108, 154, 180, 17, 1]
            + [239, 205, 171, 137, 103, 69, 35, 1]
            + [0, 56, 205, 28, 0, 48, 0, 48]
            + [0, 40, 0, 40, 0, 56, 128, 92]
  {
    LeOf(covered[0], 120, 101, 104, 0);
    LeOf(covered[1], 120, 188, 100, 108);
    LeOf(covered[2], 154, 180, 17, 1);
    LeOf(covered[3], 239, 205, 171, 137);
    LeOf(covered[4], 103, 69, 35, 1);
    LeOf(covered[5], 0, 56, 205, 28);
    LeOf(covered[6], 0, 48, 0, 48);
    LeOf(covered[7], 0, 40, 0, 40);
    LeOf(covered[8], 0, 56, 128, 92);
    Grouped(covered);
  }

  lemma {:induction false} Grouped(c: seq<U32>)
    requires |c| == 9
    ensures LeAll(c)
            == (Le(c[0]) + Le(c[1]) + Le(c[2])) + (Le(c[3]) + Le(c[4])) + (Le(c[5]) + Le(c[6])) + (Le(c[7]) + Le(c[8]))
  {
    assert c == [c[0], c[1], c[2]] + [c[3], c[4]] + [c[5], c[6]] + [c[7], c[8]];
    LeAllAppend([c[0], c[1], c[2]] + [c[3], c[4]] + [c[5], c[6]], [c[7], c[8]]);
    LeAllAppend([c[0], c[1], c[2]] + [c[3], c[4]], [c[5], c[6]]);
    LeAllAppend([c[0], c[1], c[2]], [c[3], c[4]]);
    ThreeFields(c[0], c[1], c[2]);
    TwoWords(c[3], c[4]);
    TwoWords(c[5], c[6]);
    TwoWords(c[7], c[8]);
  }

  /** The golden checksum: these words carry the checksum of these words. */
  lemma {:induction false} VectorChecksum()
    ensures FactoryCrc(IDENTITY, WORDS) == 0x2E25
  {
    var bytes := TranscriptBytes();
    ResultIs(bytes, 2, 14, 2, 5);
  }

  lemma {:induction false} TranscriptBytes() returns (bytes: seq<Byte>)
    ensures bytes == Transcript(Covered(IDENTITY, WORDS)) && Leads(Hex(15, 15, 15, 15), bytes, Hex(2, 14, 2, 5))
  {
    var start := DomainBytes();
    var end := CoveredRun();
    var last := ManifestBytes();
    CoveredBytes(Covered(IDENTITY, WORDS));
    LeadsOn(Hex(15, 15, 15, 15), start, Hex(14, 9, 2, 11), end, Hex(10, 2, 7, 9));
    LeadsOn(Hex(15, 15, 15, 15), start + end, Hex(10, 2, 7, 9), last, Hex(2, 14, 2, 5));
    bytes := start + end + last;
  }

  lemma {:induction false} DomainBytes() returns (bytes: seq<Byte>)
    ensures bytes == CRC_DOMAIN && Leads(Hex(15, 15, 15, 15), bytes, Hex(14, 9, 2, 11))
  {
    var p := DomainStart();
    var q := DomainEnd();
    LeadsOn(Hex(15, 15, 15, 15), p, Hex(0, 7, 1, 15), q, Hex(14, 9, 2, 11));
    bytes := p + q;
  }

  lemma {:induction false} CoveredRun() returns (bytes: seq<Byte>)
    ensures bytes
            == [120, 101, 104, 0, 120, 188, 100, 108, 154, 180, 17, 1]
            + [239, 205, 171, 137, 103, 69, 35, 1]
            + [0, 56, 205, 28, 0, 48, 0, 48]
            + [0, 40, 0, 40, 0, 56, 128, 92]
    ensures Leads(Hex(14, 9, 2, 11), bytes, Hex(10, 2, 7, 9))
  {
    var a := IdentityBytes();
    var b := TokenBytes();
    var c := TorqueBytes();
    var d := FrictionBytes();
    LeadsOn(Hex(14, 9, 2, 11), a, Hex(14, 1, 9, 8), b, Hex(1, 8, 3, 1));
    LeadsOn(Hex(14, 9, 2, 11), a + b, Hex(1, 8, 3, 1), c, Hex(8, 4, 5, 6));
    LeadsOn(Hex(14, 9, 2, 11), a + b + c, Hex(8, 4, 5, 6), d, Hex(10, 2, 7, 9));
    bytes := a + b + c + d;
  }

  // ---------------------------------------------------------------------
  // The calibration
  // ---------------------------------------------------------------------

  lemma {:induction false} FrictionDecodes(words: Words, f: Friction)
    requires words[4] != 0
    requires DecodeE4m11(Lo(words[4])) == Some(f.staticPos) && DecodeE4m11(Hi(words[4])) == Some(f.staticNeg)
    requires DecodeE4m11(Lo(words[5])) == Some(f.kineticPos) && DecodeE4m11(Hi(words[5])) == Some(f.kineticNeg)
    requires DecodeE4m11(Lo(words[6])) == Some(f.referenceSpeed) && DecodeE4m11(Hi(words[6])) == Some(f.temperature)
    requires f.staticPos > 0.0 && f.staticNeg > 0.0 && f.kineticPos > 0.0 && f.kineticNeg > 0.0
    requires f.referenceSpeed > 0.0
    ensures DecodeFriction(words) == Ok(Some(f))
  {
  }

  lemma {:induction false} AllDecodes(id: Identity, words: Words, v1: V1)
    requires Hi(words[0]) == MANIFEST_UPPER_V1 && Lo(words[0]) == FactoryCrc(id, words)
    requires v1.words == words && v1.issuanceToken == words[1] as int + words[2] as int * 0x1_0000_0000 != 0
    requires DecodeE4m11(Lo(words[3])) == Some(v1.factor) && DecodeE4m11(Hi(words[3])) == Some(v1.fitRmse)
    requires v1.factor > 0.0 && v1.fitRmse >= 0.0 && DecodeFriction(words) == Ok(v1.friction)
    ensures Decode(id, words) == Valid(v1)
  {
    assert DecodePayload(words) == Ok(v1);
  }

  lemma {:induction false} HalvesOf(words: Words)
    requires words == WORDS
    ensures Hi(words[0]) == 0x0106 && Lo(words[0]) == 0x2E25
    ensures Hi(words[3]) == 0x1CCD && Lo(words[3]) == 0x3800
    ensures Hi(words[4]) == 0x3000 && Lo(words[4]) == 0x3000 && Hi(words[5]) == 0x2800 && Lo(words[5]) == 0x2800
    ensures Hi(words[6]) == 0x5C80 && Lo(words[6]) == 0x3800
  {
    Halves(words[0], 0x2E25, 0x0106);
    Halves(words[3], 0x3800, 0x1CCD);
    Halves(words[4], 0x3000, 0x3000);
    Halves(words[5], 0x2800, 0x2800);
    Halves(words[6], 0x3800, 0x5C80);
  }

  const CALIBRATION: V1 := V1(WORDS, 0x0123_4567_89AB_CDEF, 1.0, 3277.0 / 32768.0,
                              Some(Friction(0.5, 0.5, 0.25, 0.25, 1.0, 25.0)))

  /** The words decode as valid, to the calibration they were issued for. */
  lemma {:induction false} VectorDecodes()
    ensures Decode(IDENTITY, WORDS) == Valid(CALIBRATION)
  {
    VectorChecksum();
    HalvesOf(WORDS);
    E4m11Frozen(0x3800, 1.0);
    E4m11Frozen(0x1CCD, 3277.0 / 32768.0);
    E4m11Frozen(0x3000, 0.5);
    E4m11Frozen(0x2800, 0.25);
    E4m11Frozen(0x5C80, 25.0);
    FrictionDecodes(WORDS, CALIBRATION.friction.value);
    AllDecodes(IDENTITY, WORDS, CALIBRATION);
  }
}
