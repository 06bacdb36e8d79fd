/**
  The SDO write lists of src/canopen/tpdo_config.rs and src/canopen/rpdo_config.rs.
 */
module PdoConfig {
  import opened Wrappers

  type U8 = n: nat | n < 0x100
  type U16 = n: nat | n < 0x1_0000
  type U32 = n: nat | n < 0x1_0000_0000

  /** One object mapped into a PDO. */
  datatype Entry = Entry(index: U16, subindex: U8, bitLen: U8)

  /** The 32-bit encoding of a mapping entry; the three fields do not overlap. */
  function Packed(e: Entry): U32 {
    e.index * 0x1_0000 + e.subindex * 0x100 + e.bitLen
  }

  lemma {:induction false} PackedInjective(a: Entry, b: Entry)
    ensures Packed(a) == Packed(b) <==> a == b
  {
    if Packed(a) == Packed(b) {
      SplitByte(a.index * 0x100 + a.subindex, a.bitLen, b.index * 0x100 + b.subindex, b.bitLen);
      SplitByte(a.index, a.subindex, b.index, b.subindex);
    }
  }

  lemma {:induction false} SplitByte(x: nat, low: U8, y: nat, low': U8)
    requires x * 0x100 + low == y * 0x100 + low'
    ensures x == y && low == low'
  {
  }

  function PackedAll(es: seq<Entry>): (r: seq<U32>)
    ensures |r| == |es| && forall i :: 0 <= i < |es| ==> r[i] == Packed(es[i])
  {
    seq(|es|, i requires 0 <= i < |es| => Packed(es[i]))
  }

  lemma {:induction false} PackedAllInjective(a: seq<Entry>, b: seq<Entry>)
    ensures PackedAll(a) == PackedAll(b) <==> a == b
  {
    if PackedAll(a) == PackedAll(b) {
      forall i | 0 <= i < |a|
        ensures a[i] == b[i]
      {
        assert PackedAll(a)[i] == PackedAll(b)[i];
        PackedInjective(a[i], b[i]);
      }
    }
  }

  function TotalBits(es: seq<Entry>): nat {
    if es == [] then 0 else TotalBits(es[..|es| - 1]) + es[|es| - 1].bitLen
  }

  datatype CommParams = CommParams(transmissionType: U8, inhibitTime: U16, eventTimer: U16)

  datatype TpdoRecipe = TpdoRecipe(tpdoIndex: U8, cobId: U16, entries: seq<Entry>, comm: CommParams)

  datatype RpdoRecipe = RpdoRecipe(rpdoIndex: U8, cobId: U16, entries: seq<Entry>, transmissionType: U8)

  datatype RecipeError = InvalidIndex | NoEntries | TooManyEntries | TooManyBits | InvalidCobId

  function Validate(index: nat, entries: seq<Entry>, cobId: nat): Option<RecipeError> {
    if index > 3 then Some(InvalidIndex)
    else if entries == [] then Some(NoEntries)
    else if |entries| > 64 then Some(TooManyEntries)
    else if TotalBits(entries) > 512 then Some(TooManyBits)
    else if cobId > 0x7FF then Some(InvalidCobId)
    else None
  }

  datatype SdoWrite = SdoWrite(index: nat, subindex: nat, data: seq<U8>)

  /** Little-endian bytes of v. */
  function LeBytes(v: nat, n: nat): seq<U8> {
    if n == 0 then [] else [v % 256] + LeBytes(v / 256, n - 1)
  }

  function Pow256(n: nat): nat {
    if n == 0 then 1 else 256 * Pow256(n - 1)
  }

  function LeValue(bytes: seq<U8>): (v: nat)
    ensures v < Pow256(|bytes|)
  {
    if bytes == [] then 0 else bytes[0] + 256 * LeValue(bytes[1..])
  }

  function WriteU8(index: nat, sub: nat, v: U8): SdoWrite {
    SdoWrite(index, sub, LeBytes(v, 1))
  }

  function WriteU16(index: nat, sub: nat, v: U16): SdoWrite {
    SdoWrite(index, sub, LeBytes(v, 2))
  }

  function WriteU32(index: nat, sub: nat, v: U32): SdoWrite {
    SdoWrite(index, sub, LeBytes(v, 4))
  }

  /** The bytes on the wire carry the value. */
  lemma {:induction false} LeRoundTrip(v: nat, n: nat)
    requires v < Pow256(n)
    ensures |LeBytes(v, n)| == n && LeValue(LeBytes(v, n)) == v
    decreases n
  {
    if n > 0 {
      assert LeBytes(v, n)[1..] == LeBytes(v / 256, n - 1);
      LeRoundTrip(v / 256, n - 1);
    }
  }

  /** They are those of to_le_bytes, lowest first. */
  lemma {:induction false} LowestFirst(v: nat)
    ensures LeBytes(v, 1) == [v % 0x100]
    ensures LeBytes(v, 2) == [v % 0x100, v / 0x100 % 0x100]
    ensures LeBytes(v, 4) == [v % 0x100, v / 0x100 % 0x100, v / 0x1_0000 % 0x100, v / 0x100_0000 % 0x100]
  {
    BytesStep(v, 0);
    BytesStep(v, 1);
    BytesStep(v, 3);
    BytesStep(v / 0x100, 0);
    BytesStep(v / 0x100, 2);
    BytesStep(v / 0x100 / 0x100, 1);
    BytesStep(v / 0x100 / 0x100 / 0x100, 0);
    assert v / 0x100 / 0x100 == v / 0x1_0000 && v / 0x1_0000 / 0x100 == v / 0x100_0000;
  }

  lemma {:induction false} BytesStep(v: nat, n: nat)
    ensures LeBytes(v, n + 1) == [v % 0x100] + LeBytes(v / 0x100, n) && LeBytes(v, 0) == []
  {
  }

  lemma {:induction false} WriteCarries(index: nat, sub: nat, v: nat)
    ensures v < 0x100 ==> |WriteU8(index, sub, v).data| == 1 && LeValue(WriteU8(index, sub, v).data) == v
    ensures v < 0x1_0000 ==> |WriteU16(index, sub, v).data| == 2 && LeValue(WriteU16(index, sub, v).data) == v
    ensures v < 0x1_0000_0000 ==> |WriteU32(index, sub, v).data| == 4 && LeValue(WriteU32(index, sub, v).data) == v
  {
    assert Pow256(2) == 0x1_0000 && Pow256(4) == 0x1_0000_0000;
    if v < 0x100 {
      LeRoundTrip(v, 1);
    }
    if v < 0x1_0000 {
      LeRoundTrip(v, 2);
    }
    if v < 0x1_0000_0000 {
      LeRoundTrip(v, 4);
    }
  }

  // ---------------------------------------------------------------------
  // The builders
  // ---------------------------------------------------------------------

  function EntryWrites(mapIndex: nat, entries: seq<Entry>): (r: seq<SdoWrite>)
    ensures |r| == |entries|
  {
    seq(|entries|, i requires 0 <= i < |entries| => WriteU32(mapIndex, (i + 1) % 0x100, Packed(entries[i])))
  }

  function TpdoWrites(r: TpdoRecipe): seq<SdoWrite> {
    var comm, map_ := 0x1800 + r.tpdoIndex, 0x1A00 + r.tpdoIndex;
    [WriteU32(comm, 1, 0xC000_0000 + r.cobId), WriteU8(map_, 0, 0)]
    + EntryWrites(map_, r.entries)
    + [WriteU8(map_, 0, |r.entries| % 0x100), WriteU8(comm, 2, r.comm.transmissionType),
       WriteU16(comm, 3, r.comm.inhibitTime), WriteU16(comm, 5, r.comm.eventTimer),
       WriteU32(comm, 1, 0x4000_0000 + r.cobId)]
  }

  function RpdoWrites(r: RpdoRecipe): seq<SdoWrite> {
    var comm, map_ := 0x1400 + r.rpdoIndex, 0x1600 + r.rpdoIndex;
    [WriteU32(comm, 1, 0x8000_0000 + r.cobId), WriteU8(comm, 2, r.transmissionType), WriteU8(map_, 0, 0)]
    + EntryWrites(map_, r.entries)
    + [WriteU8(map_, 0, |r.entries| % 0x100), WriteU32(comm, 1, r.cobId)]
  }

  /** The mapping entries, one write each. */
  method AppendEntries(written: seq<SdoWrite>, mapIndex: nat, entries: seq<Entry>) returns (writes: seq<SdoWrite>)
    ensures writes == written + EntryWrites(mapIndex, entries)
  {
    writes := written;
    for i := 0 to |entries|
      invariant writes == written + EntryWrites(mapIndex, entries)[..i]
    {
      writes := writes + [WriteU32(mapIndex, (i + 1) % 0x100, Packed(entries[i]))];
    }
    assert EntryWrites(mapIndex, entries)[..|entries|] == EntryWrites(mapIndex, entries);
  }

  method BuildTpdoConfigWrites(r: TpdoRecipe) returns (result: Result<seq<SdoWrite>, RecipeError>)
    ensures var problem := Validate(r.tpdoIndex, r.entries, r.cobId);
            result == if problem.Some? then Err(problem.value) else Ok(TpdoWrites(r))
    ensures result.Ok? <==>
              r.tpdoIndex <= 3 && 1 <= |r.entries| <= 64 && TotalBits(r.entries) <= 512 && r.cobId <= 0x7FF
  {
    var problem := Validate(r.tpdoIndex, r.entries, r.cobId);
    if problem.Some? {
      return Err(problem.value);
    }
    var commIndex, mapIndex := 0x1800 + r.tpdoIndex, 0x1A00 + r.tpdoIndex;
    var writes := [];
    writes := writes + [WriteU32(commIndex, 1, 0xC000_0000 + r.cobId)];
    writes := writes + [WriteU8(mapIndex, 0, 0)];
    writes := AppendEntries(writes, mapIndex, r.entries);
    writes := writes + [WriteU8(mapIndex, 0, |r.entries| % 0x100)];
    writes := writes + [WriteU8(commIndex, 2, r.comm.transmissionType)];
    writes := writes + [WriteU16(commIndex, 3, r.comm.inhibitTime)];
    writes := writes + [WriteU16(commIndex, 5, r.comm.eventTimer)];
    writes := writes + [WriteU32(commIndex, 1, 0x4000_0000 + r.cobId)];
    assert writes == TpdoWrites(r);
    return Ok(writes);
  }

  method BuildRpdoConfigWrites(r: RpdoRecipe) returns (result: Result<seq<SdoWrite>, RecipeError>)
    ensures var problem := Validate(r.rpdoIndex, r.entries, r.cobId);
            result == if problem.Some? then Err(problem.value) else Ok(RpdoWrites(r))
    ensures result.Ok? <==>
              r.rpdoIndex <= 3 && 1 <= |r.entries| <= 64 && TotalBits(r.entries) <= 512 && r.cobId <= 0x7FF
  {
    var problem := Validate(r.rpdoIndex, r.entries, r.cobId);
    if problem.Some? {
      return Err(problem.value);
    }
    var commIndex, mapIndex := 0x1400 + r.rpdoIndex, 0x1600 + r.rpdoIndex;
    var writes := [];
    writes := writes + [WriteU32(commIndex, 1, 0x8000_0000 + r.cobId)];
    writes := writes + [WriteU8(commIndex, 2, r.transmissionType)];
    writes := writes + [WriteU8(mapIndex, 0, 0)];
    writes := AppendEntries(writes, mapIndex, r.entries);
    writes := writes + [WriteU8(mapIndex, 0, |r.entries| % 0x100)];
    writes := writes + [WriteU32(commIndex, 1, r.cobId)];
    assert writes == RpdoWrites(r);
    return Ok(writes);
  }
}
