/**
  Running the write lists against a whole device, and the ensure_*_recipe
  procedures of src/meow_motor/manager.rs over an unreliable SDO channel.
 */
module PdoReconfiguration {
  import opened Wrappers
  import opened PdoConfig
  import opened PdoDevice

  datatype DeviceState = DeviceState(tpdos: seq<Pdo>, rpdos: seq<Pdo>, strict: bool,
                                     tpdoMappable: set<U32>, rpdoMappable: set<U32>)

  type Device = d: DeviceState | |d.tpdos| == 4 && |d.rpdos| == 4
    witness DeviceState(seq(4, _ => PdoState(0x8000_0000, 0, 0, 0, 0, seq(64, _ => 0))),
                        seq(4, _ => PdoState(0x8000_0000, 0, 0, 0, 0, seq(64, _ => 0))), false, {}, {})

  /** The device insists that TPDOs refuse remote frames. */
  function TpdoRules(d: Device): Rules {
    Rules(true, d.strict, d.tpdoMappable)
  }

  function RpdoRules(d: Device): Rules {
    Rules(false, d.strict, d.rpdoMappable)
  }

  function CommOp(sub: nat, data: seq<U8>): Option<Op> {
    assert Pow256(2) == 0x1_0000 && Pow256(4) == 0x1_0000_0000;
    if sub == 1 && |data| == 4 then Some(SetCob(LeValue(data)))
    else if sub == 2 && |data| == 1 then Some(SetType(data[0]))
    else if sub == 3 && |data| == 2 then Some(SetInhibit(LeValue(data)))
    else if sub == 5 && |data| == 2 then Some(SetTimer(LeValue(data)))
    else None
  }

  function MapOp(sub: nat, data: seq<U8>): Option<Op> {
    assert Pow256(4) == 0x1_0000_0000;
    if sub == 0 && |data| == 1 then Some(SetCount(data[0]))
    else if sub > 0 && |data| == 4 then Some(SetEntry(sub, LeValue(data)))
    else None
  }

  /** Which PDO a write addresses. */
  datatype Target = Target(tpdo: bool, k: nat, op: Option<Op>)

  function Route(w: SdoWrite): Option<Target> {
    if 0x1800 <= w.index < 0x1804 then Some(Target(true, w.index - 0x1800, CommOp(w.subindex, w.data)))
    else if 0x1A00 <= w.index < 0x1A04 then Some(Target(true, w.index - 0x1A00, MapOp(w.subindex, w.data)))
    else if 0x1400 <= w.index < 0x1404 then Some(Target(false, w.index - 0x1400, CommOp(w.subindex, w.data)))
    else if 0x1600 <= w.index < 0x1604 then Some(Target(false, w.index - 0x1600, MapOp(w.subindex, w.data)))
    else None
  }

  /** The device after an accepted write, or None for an abort, which changes nothing. */
  function DeviceWrite(d: Device, w: SdoWrite): Option<Device> {
    var target := Route(w);
    if target.None? || target.value.op.None? || target.value.k > 3 then None
    else
      var k, op := target.value.k, target.value.op.value;
      if target.value.tpdo then
        var p := Accept(TpdoRules(d), d.tpdos[k], op);
        if p.None? then None else Some(d.(tpdos := d.tpdos[k := p.value]))
      else
        var p := Accept(RpdoRules(d), d.rpdos[k], op);
        if p.None? then None else Some(d.(rpdos := d.rpdos[k := p.value]))
  }

  function Run(d: Device, ws: seq<SdoWrite>): Option<Device> {
    if ws == [] then Some(d)
    else
      var e := Run(d, ws[..|ws| - 1]);
      if e.None? then None else DeviceWrite(e.value, ws[|ws| - 1])
  }

  // ---------------------------------------------------------------------
  // The lists address one PDO only
  // ---------------------------------------------------------------------

  predicate Addresses(w: SdoWrite, tpdo: bool, k: nat, op: Op) {
    Route(w) == Some(Target(tpdo, k, Some(op)))
  }

  ghost predicate AllAddress(ws: seq<SdoWrite>, tpdo: bool, k: nat, ops: seq<Op>) {
    |ws| == |ops| && forall i :: 0 <= i < |ws| ==> Addresses(ws[i], tpdo, k, ops[i])
  }

  lemma {:induction false} AddressConcat(a: seq<SdoWrite>, b: seq<SdoWrite>, tpdo: bool, k: nat, x: seq<Op>, y: seq<Op>)
    requires AllAddress(a, tpdo, k, x) && AllAddress(b, tpdo, k, y)
    ensures AllAddress(a + b, tpdo, k, x + y)
  {
  }

  function WithPdo(d: Device, tpdo: bool, k: nat, p: Pdo): Device
    requires k < 4
  {
    if tpdo then d.(tpdos := d.tpdos[k := p]) else d.(rpdos := d.rpdos[k := p])
  }

  function PdoAt(d: Device, tpdo: bool, k: nat): Pdo
    requires k < 4
  {
    if tpdo then d.tpdos[k] else d.rpdos[k]
  }

  function RulesFor(d: Device, tpdo: bool): Rules {
    if tpdo then TpdoRules(d) else RpdoRules(d)
  }

  lemma {:induction false} RoutedRun(d: Device, ws: seq<SdoWrite>, tpdo: bool, k: nat, ops: seq<Op>)
    requires k < 4 && AllAddress(ws, tpdo, k, ops)
    ensures var q := RunOps(RulesFor(d, tpdo), PdoAt(d, tpdo, k), ops);
            Run(d, ws) == if q.None? then None else Some(WithPdo(d, tpdo, k, q.value))
  {
    if ws == [] {
      assert WithPdo(d, tpdo, k, PdoAt(d, tpdo, k)) == d;
    } else {
      var n := |ws| - 1;
      RoutedRun(d, ws[..n], tpdo, k, ops[..n]);
      var q := RunOps(RulesFor(d, tpdo), PdoAt(d, tpdo, k), ops[..n]);
      if q.Some? {
        assert Addresses(ws[n], tpdo, k, ops[n]);
        RoutedWrite(d, q.value, ws[n], tpdo, k, ops[n]);
      }
    }
  }

  lemma {:induction false} RoutedWrite(d: Device, p: Pdo, w: SdoWrite, tpdo: bool, k: nat, op: Op)
    requires k < 4 && Addresses(w, tpdo, k, op)
    ensures var q := Accept(RulesFor(d, tpdo), p, op);
            DeviceWrite(WithPdo(d, tpdo, k, p), w) == if q.None? then None else Some(WithPdo(d, tpdo, k, q.value))
  {
    var e := WithPdo(d, tpdo, k, p);
    assert RulesFor(e, tpdo) == RulesFor(d, tpdo) && PdoAt(e, tpdo, k) == p;
    var q := Accept(RulesFor(d, tpdo), p, op);
    if q.Some? {
      assert d.tpdos[k := p][k := q.value] == d.tpdos[k := q.value];
      assert d.rpdos[k := p][k := q.value] == d.rpdos[k := q.value];
    }
  }

  lemma {:induction false} CommAddresses(tpdo: bool, k: nat, v: nat)
    requires k < 4
    ensures var index := (if tpdo then 0x1800 else 0x1400) + k;
            && (v < 0x1_0000_0000 ==> Addresses(WriteU32(index, 1, v), tpdo, k, SetCob(v)))
            && (v < 0x100 ==> Addresses(WriteU8(index, 2, v), tpdo, k, SetType(v)))
            && (v < 0x1_0000 ==> Addresses(WriteU16(index, 3, v), tpdo, k, SetInhibit(v)))
            && (v < 0x1_0000 ==> Addresses(WriteU16(index, 5, v), tpdo, k, SetTimer(v)))
  {
    var index := (if tpdo then 0x1800 else 0x1400) + k;
    WriteCarries(index, 1, v);
    WriteCarries(index, 2, v);
    WriteCarries(index, 3, v);
    WriteCarries(index, 5, v);
  }

  lemma {:induction false} MapAddresses(tpdo: bool, k: nat, sub: nat, v: nat)
    requires k < 4
    ensures var index := (if tpdo then 0x1A00 else 0x1600) + k;
            && (v < 0x100 ==> Addresses(WriteU8(index, 0, v), tpdo, k, SetCount(v)))
            && (v < 0x1_0000_0000 && sub > 0 ==> Addresses(WriteU32(index, sub, v), tpdo, k, SetEntry(sub, v)))
  {
    var index := (if tpdo then 0x1A00 else 0x1600) + k;
    WriteCarries(index, 0, v);
    WriteCarries(index, sub, v);
  }

  lemma {:induction false} EntriesAddress(tpdo: bool, k: nat, es: seq<Entry>)
    requires k < 4 && |es| <= 64
    ensures AllAddress(EntryWrites((if tpdo then 0x1A00 else 0x1600) + k, es), tpdo, k, EntryOps(es))
  {
    forall i | 0 <= i < |es|
      ensures Addresses(EntryWrites((if tpdo then 0x1A00 else 0x1600) + k, es)[i], tpdo, k, EntryOps(es)[i])
    {
      EntryAddresses(tpdo, k, es, i);
    }
  }

  lemma {:induction false} EntryAddresses(tpdo: bool, k: nat, es: seq<Entry>, i: nat)
    requires k < 4 && |es| <= 64 && i < |es|
    ensures Addresses(EntryWrites((if tpdo then 0x1A00 else 0x1600) + k, es)[i], tpdo, k, EntryOps(es)[i])
  {
    var index, sub: nat := (if tpdo then 0x1A00 else 0x1600) + k, (i + 1) % 0x100;
    assert sub == i + 1;
    assert EntryWrites(index, es)[i] == WriteU32(index, sub, Packed(es[i]));
    assert EntryOps(es)[i] == SetEntry(sub, Packed(es[i]));
    MapAddresses(tpdo, k, sub, Packed(es[i]));
  }

  lemma {:induction false} TpdoAddresses(r: TpdoRecipe)
    requires Valid(r.tpdoIndex, r.entries, r.cobId)
    ensures AllAddress(TpdoWrites(r), true, r.tpdoIndex, TpdoOps(r))
  {
    assert |r.entries| <= 64;
    var k: nat, n: U8 := r.tpdoIndex, |r.entries|;
    var comm, map_ := 0x1800 + k, 0x1A00 + k;
    CommAddresses(true, k, 0xC000_0000 + r.cobId);
    MapAddresses(true, k, 0, 0);
    EntriesAddress(true, k, r.entries);
    MapAddresses(true, k, 0, n);
    CommAddresses(true, k, r.comm.transmissionType);
    CommAddresses(true, k, r.comm.inhibitTime);
    CommAddresses(true, k, r.comm.eventTimer);
    CommAddresses(true, k, 0x4000_0000 + r.cobId);
    var head, headOps := [WriteU32(comm, 1, 0xC000_0000 + r.cobId), WriteU8(map_, 0, 0)],
                         [SetCob(0xC000_0000 + r.cobId), SetCount(0)];
    AddressConcat(head, EntryWrites(map_, r.entries), true, k, headOps, EntryOps(r.entries));
    AddressConcat(head + EntryWrites(map_, r.entries),
      [WriteU8(map_, 0, n), WriteU8(comm, 2, r.comm.transmissionType), WriteU16(comm, 3, r.comm.inhibitTime),
       WriteU16(comm, 5, r.comm.eventTimer), WriteU32(comm, 1, 0x4000_0000 + r.cobId)],
      true, k, headOps + EntryOps(r.entries),
      [SetCount(n), SetType(r.comm.transmissionType), SetInhibit(r.comm.inhibitTime), SetTimer(r.comm.eventTimer),
       SetCob(0x4000_0000 + r.cobId)]);
  }

  lemma {:induction false} RpdoAddresses(r: RpdoRecipe)
    requires Valid(r.rpdoIndex, r.entries, r.cobId)
    ensures AllAddress(RpdoWrites(r), false, r.rpdoIndex, RpdoOps(r))
  {
    assert |r.entries| <= 64;
    var k: nat, n: U8 := r.rpdoIndex, |r.entries|;
    var comm, map_ := 0x1400 + k, 0x1600 + k;
    CommAddresses(false, k, 0x8000_0000 + r.cobId);
    CommAddresses(false, k, r.transmissionType);
    MapAddresses(false, k, 0, 0);
    EntriesAddress(false, k, r.entries);
    MapAddresses(false, k, 0, n);
    CommAddresses(false, k, r.cobId);
    var head, headOps := [WriteU32(comm, 1, 0x8000_0000 + r.cobId), WriteU8(comm, 2, r.transmissionType),
                           WriteU8(map_, 0, 0)],
                         [SetCob(0x8000_0000 + r.cobId), SetType(r.transmissionType), SetCount(0)];
    AddressConcat(head, EntryWrites(map_, r.entries), false, k, headOps, EntryOps(r.entries));
    AddressConcat(head + EntryWrites(map_, r.entries), [WriteU8(map_, 0, n), WriteU32(comm, 1, r.cobId)],
      false, k, headOps + EntryOps(r.entries), [SetCount(n), SetCob(r.cobId)]);
  }

  // ---------------------------------------------------------------------
  // What the lists achieve
  // ---------------------------------------------------------------------

  /** The device is configured exactly as the recipe says, and the PDO is switched on. */
  ghost predicate TpdoConfigured(d: Device, r: TpdoRecipe) {
    r.tpdoIndex < 4 && |r.entries| <= 64
    && var p := d.tpdos[r.tpdoIndex];
       && p.cob == 0x4000_0000 + r.cobId
       && p.count == |r.entries| && p.mapping[..|r.entries|] == PackedAll(r.entries)
       && p.transmissionType == r.comm.transmissionType
       && p.inhibitTime == r.comm.inhibitTime && p.eventTimer == r.comm.eventTimer
  }

  ghost predicate RpdoConfigured(d: Device, r: RpdoRecipe) {
    r.rpdoIndex < 4 && |r.entries| <= 64
    && var p := d.rpdos[r.rpdoIndex];
       && p.cob == r.cobId
       && p.count == |r.entries| && p.mapping[..|r.entries|] == PackedAll(r.entries)
       && p.transmissionType == r.transmissionType
  }

  /** A device configuration is that of at most one recipe per PDO: the encoding loses nothing. */
  lemma {:induction false} ConfigurationIsUnique(d: Device, r: TpdoRecipe, s: TpdoRecipe)
    requires TpdoConfigured(d, r) && TpdoConfigured(d, s) && r.tpdoIndex == s.tpdoIndex
    ensures r == s
  {
    PackedAllInjective(r.entries, s.entries);
  }

  /** Nothing but PDO k of the given kind differs. */
  predicate OnlyChanges(d: Device, e: Device, tpdo: bool, k: nat)
    requires k < 4
  {
    e == WithPdo(d, tpdo, k, PdoAt(e, tpdo, k))
  }

  /**
    From any device state the whole TPDO list is accepted exactly when the
    device supports the entries and lets the PDO be switched off; it then leaves
    exactly the recipe, switched on, and touches no other PDO.
   */
  lemma {:induction false} TpdoListConfigures(d: Device, r: TpdoRecipe)
    requires Valid(r.tpdoIndex, r.entries, r.cobId)
    ensures var e := Run(d, TpdoWrites(r));
            && (e.Some? <==> TpdoAcceptable(d, r))
            && (e.Some? ==> TpdoConfigured(e.value, r) && OnlyChanges(d, e.value, true, r.tpdoIndex))
            && (e.Some? ==> var p := e.value.tpdos[r.tpdoIndex];
                            && p.cob == 0x4000_0000 + r.cobId && p.transmissionType == r.comm.transmissionType
                            && p.inhibitTime == r.comm.inhibitTime && p.eventTimer == r.comm.eventTimer)
  {
    var k, rules := r.tpdoIndex, TpdoRules(d);
    var p := d.tpdos[k];
    TpdoAddresses(r);
    RoutedRun(d, TpdoWrites(r), true, k, TpdoOps(r));
    TpdoRunWhole(rules, p, r);
    OverwrittenPrefix(p.mapping, r.entries);
  }

  lemma {:induction false} TpdoRunWhole(rules: Rules, p: Pdo, r: TpdoRecipe)
    requires Valid(r.tpdoIndex, r.entries, r.cobId)
    ensures var q := RunOps(rules, p, TpdoOps(r));
            && (q.Some? <==> AllMappable(rules, r.entries) && MayDisable(rules, p, r.cobId))
            && (q.Some? ==> q.value == TpdoStage(p, r, |r.entries| + 7))
  {
    var m := |r.entries| + 7;
    assert TpdoOps(r)[..m] == TpdoOps(r);
    TpdoRun(rules, p, r, m);
    var allowed := TpdoAllowed(rules, p, r);
    assert allowed[..m] == allowed;
    if AllTrue(allowed) {
      assert allowed[0] && allowed[|r.entries| + 2];
    }
  }

  /**
    Every proper non-empty prefix of the list, whatever the device answers to
    its last write, leaves the PDO switched off: it never runs half configured.
   */
  lemma {:induction false} TpdoPrefixDisabled(d: Device, r: TpdoRecipe, j: nat)
    requires Valid(r.tpdoIndex, r.entries, r.cobId) && 0 < j < |TpdoWrites(r)|
    ensures var e := Run(d, TpdoWrites(r)[..j]);
            e.Some? ==> !Enabled(e.value.tpdos[r.tpdoIndex].cob) && OnlyChanges(d, e.value, true, r.tpdoIndex)
  {
    TpdoAddresses(r);
    RoutedRun(d, TpdoWrites(r)[..j], true, r.tpdoIndex, TpdoOps(r)[..j]);
    TpdoRun(TpdoRules(d), d.tpdos[r.tpdoIndex], r, j);
  }

  lemma {:induction false} RpdoListConfigures(d: Device, r: RpdoRecipe)
    requires Valid(r.rpdoIndex, r.entries, r.cobId)
    ensures var e := Run(d, RpdoWrites(r));
            && (e.Some? <==> RpdoAcceptable(d, r))
            && (e.Some? ==> RpdoConfigured(e.value, r) && OnlyChanges(d, e.value, false, r.rpdoIndex))
            && (e.Some? ==> var p := e.value.rpdos[r.rpdoIndex];
                            p.cob == r.cobId && p.transmissionType == r.transmissionType)
  {
    var k, rules := r.rpdoIndex, RpdoRules(d);
    var p := d.rpdos[k];
    RpdoAddresses(r);
    RoutedRun(d, RpdoWrites(r), false, k, RpdoOps(r));
    RpdoRunWhole(rules, p, r);
    OverwrittenPrefix(p.mapping, r.entries);
  }

  lemma {:induction false} RpdoRunWhole(rules: Rules, p: Pdo, r: RpdoRecipe)
    requires Valid(r.rpdoIndex, r.entries, r.cobId) && !rules.noRtr
    ensures var q := RunOps(rules, p, RpdoOps(r));
            && (q.Some? <==> AllMappable(rules, r.entries) && MayDisable(rules, p, r.cobId))
            && (q.Some? ==> q.value == RpdoStage(p, r, |r.entries| + 5))
  {
    var m := |r.entries| + 5;
    assert RpdoOps(r)[..m] == RpdoOps(r);
    RpdoRun(rules, p, r, m);
    var allowed := RpdoAllowed(rules, p, r);
    assert allowed[..m] == allowed;
    if AllTrue(allowed) {
      assert allowed[0] && allowed[|r.entries| + 3];
    }
  }

  lemma {:induction false} RpdoPrefixDisabled(d: Device, r: RpdoRecipe, j: nat)
    requires Valid(r.rpdoIndex, r.entries, r.cobId) && 0 < j < |RpdoWrites(r)|
    ensures var e := Run(d, RpdoWrites(r)[..j]);
            e.Some? ==> !Enabled(e.value.rpdos[r.rpdoIndex].cob) && OnlyChanges(d, e.value, false, r.rpdoIndex)
  {
    RpdoAddresses(r);
    RoutedRun(d, RpdoWrites(r)[..j], false, r.rpdoIndex, RpdoOps(r)[..j]);
    RpdoRun(RpdoRules(d), d.rpdos[r.rpdoIndex], r, j);
  }

  // ---------------------------------------------------------------------
  // ensure_*_recipe over an unreliable channel
  // ---------------------------------------------------------------------

  /** Width and value of an object as an SDO upload would return it. */
  function Read(d: Device, index: nat, sub: nat): Option<(nat, nat)> {
    if 0x1800 <= index < 0x1804 then ReadComm(d.tpdos[index - 0x1800], sub)
    else if 0x1A00 <= index < 0x1A04 then ReadMap(d.tpdos[index - 0x1A00], sub)
    else if 0x1400 <= index < 0x1404 then ReadComm(d.rpdos[index - 0x1400], sub)
    else if 0x1600 <= index < 0x1604 then ReadMap(d.rpdos[index - 0x1600], sub)
    else None
  }

  function ReadComm(p: Pdo, sub: nat): Option<(nat, nat)> {
    match sub
    case 1 => Some((4, p.cob))
    case 2 => Some((1, p.transmissionType))
    case 3 => Some((2, p.inhibitTime))
    case 5 => Some((2, p.eventTimer))
    case _ => None
  }

  function ReadMap(p: Pdo, sub: nat): Option<(nat, nat)> {
    if sub == 0 then Some((1, p.count)) else if sub <= 64 then Some((4, p.mapping[sub - 1])) else None
  }

  /** One node on the bus; any transfer may fail, and a failed download may have taken effect. */
  class Node {
    var device: Device

    /** No transfer fails by itself, and the identity token stays current. */
    const undisturbed: bool

    constructor (d: Device, calm: bool)
      ensures device == d && undisturbed == calm
    {
      device, undisturbed := d, calm;
    }

    method Upload(index: nat, sub: nat, width: nat) returns (value: Option<nat>)
      ensures value.Some? ==> Read(device, index, sub) == Some((width, value.value))
      ensures undisturbed && Read(device, index, sub).Some? && Read(device, index, sub).value.0 == width ==> value.Some?
    {
      var stored := Read(device, index, sub);
      var answered: bool := *;
      if (answered || undisturbed) && stored.Some? && stored.value.0 == width {
        return Some(stored.value.1);
      }
      return None;
    }

    method Download(w: SdoWrite) returns (ok: bool)
      modifies this
      ensures ok ==> DeviceWrite(old(device), w) == Some(device)
      ensures !ok ==> device == old(device) || DeviceWrite(old(device), w) == Some(device)
      ensures undisturbed ==> (ok <==> DeviceWrite(old(device), w).Some?)
    {
      var delivered: bool := *;
      var answered: bool := *;
      var next := DeviceWrite(device, w);
      if (delivered || undisturbed) && next.Some? {
        device := next.value;
        return answered || undisturbed;
      }
      return false;
    }

    /** None when a transfer fails; otherwise whether the mapping entries read back as wanted. */
    method MappingMatches(mapIndex: nat, entries: seq<Entry>) returns (same: Option<bool>)
      ensures same == Some(true) ==> forall i :: 0 <= i < |entries| ==> EntryReads(device, mapIndex, i, entries[i])
      ensures same == Some(false) ==> exists i :: 0 <= i < |entries| && !EntryReads(device, mapIndex, i, entries[i])
      ensures undisturbed && |entries| <= 64 && IsMapping(mapIndex) ==> same.Some?
    {
      for offset := 0 to |entries|
        invariant forall i :: 0 <= i < offset ==> EntryReads(device, mapIndex, i, entries[i])
      {
        var v := Upload(mapIndex, (offset + 1) % 0x100, 4);
        if v.None? {
          return None;
        }
        if v.value != Packed(entries[offset]) {
          assert !EntryReads(device, mapIndex, offset, entries[offset]);
          return Some(false);
        }
      }
      return Some(true);
    }

    method TpdoRecipeMatches(r: TpdoRecipe) returns (same: Option<bool>)
      ensures same.Some? && |r.entries| <= 64 && r.tpdoIndex < 4 ==> (same.value <==> TpdoConfigured(device, r))
      ensures same == Some(true) ==> TpdoConfigured(device, r)
      ensures undisturbed && |r.entries| <= 64 && r.tpdoIndex < 4 ==> same.Some?
    {
      var commIndex: nat, mapIndex: nat := 0x1800 + r.tpdoIndex as nat, 0x1A00 + r.tpdoIndex as nat;
      var cob := Upload(commIndex, 1, 4);
      if cob.None? {
        return None;
      }
      if cob.value != 0x4000_0000 + r.cobId {
        return Some(false);
      }
      var count := Upload(mapIndex, 0, 1);
      if count.None? {
        return None;
      }
      if count.value != |r.entries| % 0x100 {
        return Some(false);
      }
      var mapped := MappingMatches(mapIndex, r.entries);
      if mapped != Some(true) {
        MismatchIsReal(device, r.tpdoIndex, true, r.entries);
        return mapped;
      }
      MappingIsReal(device, r.tpdoIndex, true, r.entries);
      var transmissionType := Upload(commIndex, 2, 1);
      if transmissionType.None? {
        return None;
      }
      if transmissionType.value != r.comm.transmissionType {
        return Some(false);
      }
      var inhibitTime := Upload(commIndex, 3, 2);
      if inhibitTime.None? {
        return None;
      }
      if inhibitTime.value != r.comm.inhibitTime {
        return Some(false);
      }
      var eventTimer := Upload(commIndex, 5, 2);
      if eventTimer.None? {
        return None;
      }
      return Some(eventTimer.value == r.comm.eventTimer);
    }

    method RpdoRecipeMatches(r: RpdoRecipe) returns (same: Option<bool>)
      ensures same.Some? && |r.entries| <= 64 && r.rpdoIndex < 4 ==> (same.value <==> RpdoConfigured(device, r))
      ensures same == Some(true) ==> RpdoConfigured(device, r)
      ensures undisturbed && |r.entries| <= 64 && r.rpdoIndex < 4 ==> same.Some?
    {
      var commIndex: nat, mapIndex: nat := 0x1400 + r.rpdoIndex as nat, 0x1600 + r.rpdoIndex as nat;
      var cob := Upload(commIndex, 1, 4);
      if cob.None? {
        return None;
      }
      if cob.value != r.cobId {
        return Some(false);
      }
      var transmissionType := Upload(commIndex, 2, 1);
      if transmissionType.None? {
        return None;
      }
      if transmissionType.value != r.transmissionType {
        return Some(false);
      }
      var count := Upload(mapIndex, 0, 1);
      if count.None? {
        return None;
      }
      if count.value != |r.entries| % 0x100 {
        return Some(false);
      }
      var mapped := MappingMatches(mapIndex, r.entries);
      if mapped == Some(true) {
        MappingIsReal(device, r.rpdoIndex, false, r.entries);
      } else {
        MismatchIsReal(device, r.rpdoIndex, false, r.entries);
      }
      return mapped;
    }

    /** Writes the list in order, checking the identity token before each write and at the end. */
    method WriteAll(writes: seq<SdoWrite>) returns (ok: bool, ghost reached: nat)
      modifies this
      ensures reached <= |writes| && Run(old(device), writes[..reached]) == Some(device)
      ensures ok ==> reached == |writes|
      ensures undisturbed && Run(old(device), writes).Some? ==> ok
    {
      reached := 0;
      for i := 0 to |writes|
        invariant reached == i && Run(old(device), writes[..i]) == Some(device)
      {
        var tokenCurrent: bool := *;
        if !tokenCurrent && !undisturbed {
          return false, i;
        }
        RunPrefix(old(device), writes, i + 1);
        assert writes[..i + 1][..i] == writes[..i];
        ghost var before := device;
        ok := Download(writes[i]);
        if !ok {
          reached := if device == before then i else i + 1;
          return;
        }
        reached := i + 1;
      }
      ok := *;
      ok := ok || undisturbed;
    }

    /**
      Ok means the device holds exactly the recipe. After a failure the PDO is
      as it was, switched off, or configured as the recipe says. No other PDO changes,
      and a device that holds the recipe already is not written to. Left undisturbed, the
      call succeeds exactly for a device that holds the recipe, or supports a valid one
      and lets the PDO be switched off.
     */
    method EnsureTpdoRecipe(r: TpdoRecipe) returns (ok: bool)
      modifies this
      ensures ok ==> TpdoConfigured(device, r)
      ensures TpdoUntorn(old(device), device, r)
      ensures TpdoConfigured(old(device), r) ==> device == old(device)
      ensures undisturbed ==> (ok <==> TpdoConfigured(old(device), r) || TpdoAcceptable(old(device), r))
    {
      var same := TpdoRecipeMatches(r);
      if same != Some(false) {
        return same == Some(true);
      }
      var list := BuildTpdoConfigWrites(r);
      if list.Err? {
        return false;
      }
      ghost var reached: nat;
      TpdoListConfigures(device, r);
      ok, reached := WriteAll(list.value);
      TpdoPartialRun(old(device), r, reached);
      assert list.value[..|list.value|] == list.value;
      if ok {
        same := TpdoRecipeMatches(r);
        ok := same == Some(true);
      }
    }

    method EnsureRpdoRecipe(r: RpdoRecipe) returns (ok: bool)
      modifies this
      ensures ok ==> RpdoConfigured(device, r)
      ensures RpdoUntorn(old(device), device, r)
      ensures RpdoConfigured(old(device), r) ==> device == old(device)
      ensures undisturbed ==> (ok <==> RpdoConfigured(old(device), r) || RpdoAcceptable(old(device), r))
    {
      var same := RpdoRecipeMatches(r);
      if same != Some(false) {
        return same == Some(true);
      }
      var list := BuildRpdoConfigWrites(r);
      if list.Err? {
        return false;
      }
      ghost var reached: nat;
      RpdoListConfigures(device, r);
      ok, reached := WriteAll(list.value);
      RpdoPartialRun(old(device), r, reached);
      assert list.value[..|list.value|] == list.value;
      if ok {
        same := RpdoRecipeMatches(r);
        ok := same == Some(true);
      }
    }
  }

  /** What a device must allow for its TPDO to be rewritten as the recipe says. */
  ghost predicate TpdoAcceptable(d: Device, r: TpdoRecipe) {
    && r.tpdoIndex <= 3 && 1 <= |r.entries| <= 64 && TotalBits(r.entries) <= 512 && r.cobId <= 0x7FF
    && (forall i :: 0 <= i < |r.entries| ==> Packed(r.entries[i]) in d.tpdoMappable)
    && (var cob := d.tpdos[r.tpdoIndex].cob; d.strict && cob < 0x8000_0000 ==> cob % 0x4000_0000 == r.cobId)
  }

  ghost predicate RpdoAcceptable(d: Device, r: RpdoRecipe) {
    && r.rpdoIndex <= 3 && 1 <= |r.entries| <= 64 && TotalBits(r.entries) <= 512 && r.cobId <= 0x7FF
    && (forall i :: 0 <= i < |r.entries| ==> Packed(r.entries[i]) in d.rpdoMappable)
    && (var cob := d.rpdos[r.rpdoIndex].cob; d.strict && cob < 0x8000_0000 ==> cob % 0x4000_0000 == r.cobId)
  }

  predicate IsMapping(index: nat) {
    0x1A00 <= index < 0x1A04 || 0x1600 <= index < 0x1604
  }

  /** A list is accepted only if every part of it from its start is. */
  lemma {:induction false} RunPrefix(d: Device, ws: seq<SdoWrite>, n: nat)
    requires n <= |ws|
    ensures Run(d, ws).Some? ==> Run(d, ws[..n]).Some?
    decreases |ws|
  {
    if n < |ws| {
      RunPrefix(d, ws[..|ws| - 1], n);
      assert ws[..|ws| - 1][..n] == ws[..n];
    } else {
      assert ws[..n] == ws;
    }
  }

  /** The PDO is as before, or switched off, or configured as the recipe says; no other PDO changed. */
  ghost predicate TpdoUntorn(before: Device, after: Device, r: TpdoRecipe) {
    || after == before
    || (r.tpdoIndex < 4 && OnlyChanges(before, after, true, r.tpdoIndex)
        && (TpdoConfigured(after, r) || !Enabled(after.tpdos[r.tpdoIndex].cob)))
  }

  ghost predicate RpdoUntorn(before: Device, after: Device, r: RpdoRecipe) {
    || after == before
    || (r.rpdoIndex < 4 && OnlyChanges(before, after, false, r.rpdoIndex)
        && (RpdoConfigured(after, r) || !Enabled(after.rpdos[r.rpdoIndex].cob)))
  }

  predicate EntryReads(d: Device, mapIndex: nat, i: nat, e: Entry) {
    Read(d, mapIndex, (i + 1) % 0x100) == Some((4, Packed(e) as nat))
  }

  lemma {:induction false} EntryReadsExactly(d: Device, k: nat, tpdo: bool, i: nat, e: Entry)
    requires k < 4 && i < 64
    ensures EntryReads(d, (if tpdo then 0x1A00 else 0x1600) + k, i, e) <==> PdoAt(d, tpdo, k).mapping[i] == Packed(e)
  {
  }

  lemma {:induction false} NoEntryBeyond(d: Device, k: nat, tpdo: bool, e: Entry)
    requires k < 4
    ensures !EntryReads(d, (if tpdo then 0x1A00 else 0x1600) + k, 64, e)
  {
  }

  lemma {:induction false} MappingIsReal(d: Device, k: nat, tpdo: bool, es: seq<Entry>)
    requires forall i :: 0 <= i < |es| ==> EntryReads(d, (if tpdo then 0x1A00 else 0x1600) + k, i, es[i])
    requires k < 4 && PdoAt(d, tpdo, k).count == |es| % 0x100
    ensures |es| <= 64 && PdoAt(d, tpdo, k).mapping[..|es|] == PackedAll(es) && PdoAt(d, tpdo, k).count == |es|
  {
    if |es| > 64 {
      NoEntryBeyond(d, k, tpdo, es[64]);
    }
    forall i | 0 <= i < |es|
      ensures PdoAt(d, tpdo, k).mapping[i] == Packed(es[i])
    {
      EntryReadsExactly(d, k, tpdo, i, es[i]);
    }
  }

  lemma {:induction false} MismatchIsReal(d: Device, k: nat, tpdo: bool, es: seq<Entry>)
    ensures k < 4 && |es| <= 64
            && (exists i :: 0 <= i < |es| && !EntryReads(d, (if tpdo then 0x1A00 else 0x1600) + k, i, es[i]))
            ==> PdoAt(d, tpdo, k).mapping[..|es|] != PackedAll(es)
  {
    if k < 4 && |es| <= 64 && PdoAt(d, tpdo, k).mapping[..|es|] == PackedAll(es) {
      forall i | 0 <= i < |es|
        ensures EntryReads(d, (if tpdo then 0x1A00 else 0x1600) + k, i, es[i])
      {
        assert PdoAt(d, tpdo, k).mapping[..|es|][i] == PackedAll(es)[i];
        EntryReadsExactly(d, k, tpdo, i, es[i]);
      }
    }
  }

  lemma {:induction false} TpdoPartialRun(d: Device, r: TpdoRecipe, j: nat)
    requires Valid(r.tpdoIndex, r.entries, r.cobId) && j <= |TpdoWrites(r)|
    ensures var e := Run(d, TpdoWrites(r)[..j]);
            e.Some? ==> TpdoUntorn(d, e.value, r)
  {
    if j == |TpdoWrites(r)| {
      assert TpdoWrites(r)[..j] == TpdoWrites(r);
      TpdoListConfigures(d, r);
    } else if j > 0 {
      TpdoPrefixDisabled(d, r, j);
    } else {
      assert TpdoWrites(r)[..0] == [];
    }
  }

  lemma {:induction false} RpdoPartialRun(d: Device, r: RpdoRecipe, j: nat)
    requires Valid(r.rpdoIndex, r.entries, r.cobId) && j <= |RpdoWrites(r)|
    ensures var e := Run(d, RpdoWrites(r)[..j]);
            e.Some? ==> RpdoUntorn(d, e.value, r)
  {
    if j == |RpdoWrites(r)| {
      assert RpdoWrites(r)[..j] == RpdoWrites(r);
      RpdoListConfigures(d, r);
    } else if j > 0 {
      RpdoPrefixDisabled(d, r, j);
    } else {
      assert RpdoWrites(r)[..0] == [];
    }
  }
}
