/**
  The device-settings write plans of src/cia402/device_can.rs (dialects 0x2001
  and 0x2100) and src/meow_motor/settings.rs (dialect 0x2001).
 */
module SettingsPlan {
  import opened Wrappers
  import opened PdoConfig

  /** Communication settings; Classic-CAN-only devices have neither a data bitrate nor a BRS flag. */
  datatype Config = Config(nodeId: U8, nominal: U32, data: Option<U32>, brs: Option<bool>)

  /** Object 0x2001 keeps a RAM copy and saves on request (0x1010, sub-index as given); 0x2100 writes through. */
  datatype Dialect = Object2001(saveSub: nat) | Object2100

  const STORE_SIGNATURE: U32 := 0x6576_6173

  datatype FieldOp = SetNominal(nominal: U32) | SetData(data: U32) | SetBrs(brs: bool) | SetNode(nodeId: U8) | Save

  /** What each plan entry means. */
  function Encode(dialect: Dialect, op: FieldOp): SdoWrite {
    match dialect
    case Object2001(saveSub) => (
      match op
      case SetNode(n) => WriteU8(0x2001, 1, n)
      case SetNominal(v) => WriteU32(0x2001, 2, v)
      case SetData(v) => WriteU32(0x2001, 3, v)
      case SetBrs(b) => WriteU8(0x2001, 4, if b then 1 else 0)
      case Save => WriteU32(0x1010, saveSub, STORE_SIGNATURE))
    case Object2100 => (
      match op
      case SetNominal(v) => WriteU32(0x2100, 1, v)
      case SetData(v) => WriteU32(0x2100, 2, v)
      case SetBrs(b) => WriteU8(0x2100, 3, if b then 1 else 0)
      case SetNode(n) => WriteU8(0x2101, 0, n)
      case Save => WriteU32(0x1010, 1, STORE_SIGNATURE))
  }

  /** One byte to the given object. */
  predicate IsByte(w: SdoWrite, index: nat, sub: nat, v: U8) {
    w == SdoWrite(index, sub, [v])
  }

  /** A u32 to the given object, lowest byte first. */
  predicate IsWord(w: SdoWrite, index: nat, sub: nat, v: U32) {
    w == SdoWrite(index, sub, [v % 0x100, v / 0x100 % 0x100, v / 0x1_0000 % 0x100, v / 0x100_0000 % 0x100])
  }

  /** Which object each setting is written to, byte by byte; the save request spells "save". */
  lemma {:induction false} EncodesExactly(saveSub: nat, nominal: U32, data: U32, brs: bool, node: U8)
    ensures IsByte(Encode(Object2001(saveSub), SetNode(node)), 0x2001, 1, node)
    ensures IsWord(Encode(Object2001(saveSub), SetNominal(nominal)), 0x2001, 2, nominal)
    ensures IsWord(Encode(Object2001(saveSub), SetData(data)), 0x2001, 3, data)
    ensures IsByte(Encode(Object2001(saveSub), SetBrs(brs)), 0x2001, 4, if brs then 1 else 0)
    ensures IsWord(Encode(Object2100, SetNominal(nominal)), 0x2100, 1, nominal)
    ensures IsWord(Encode(Object2100, SetData(data)), 0x2100, 2, data)
    ensures IsByte(Encode(Object2100, SetBrs(brs)), 0x2100, 3, if brs then 1 else 0)
    ensures IsByte(Encode(Object2100, SetNode(node)), 0x2101, 0, node)
    ensures Encode(Object2001(saveSub), Save) == SdoWrite(0x1010, saveSub, [0x73, 0x61, 0x76, 0x65])
  {
    LowestFirst(node);
    LowestFirst(if brs then 1 else 0);
    LowestFirst(nominal);
    LowestFirst(data);
    LowestFirst(STORE_SIGNATURE);
  }

  function EncodeAll(dialect: Dialect, ops: seq<FieldOp>): (r: seq<SdoWrite>)
    ensures |r| == |ops|
  {
    seq(|ops|, i requires 0 <= i < |ops| => Encode(dialect, ops[i]))
  }

  lemma {:induction false} EncodeConcat(dialect: Dialect, a: seq<FieldOp>, b: seq<FieldOp>)
    ensures EncodeAll(dialect, a + b) == EncodeAll(dialect, a) + EncodeAll(dialect, b)
  {
  }

  // ---------------------------------------------------------------------
  // Plans as operations
  // ---------------------------------------------------------------------

  // 0x2001 writes the fields that differ, 0x2100 writes every field.

  function NominalOps(dialect: Dialect, current: Config, target: Config): seq<FieldOp> {
    if dialect.Object2100? || current.nominal != target.nominal then [SetNominal(target.nominal)] else []
  }

  function DataOps(dialect: Dialect, current: Config, target: Config): seq<FieldOp> {
    if target.data.Some? && (dialect.Object2100? || current.data != target.data)
      then [SetData(target.data.value)] else []
  }

  function BrsOps(dialect: Dialect, current: Config, target: Config): seq<FieldOp> {
    if target.brs.Some? && (dialect.Object2100? || current.brs != target.brs) then [SetBrs(target.brs.value)] else []
  }

  function NodeOps(dialect: Dialect, current: Config, target: Config): seq<FieldOp> {
    if dialect.Object2100? || current.nodeId != target.nodeId then [SetNode(target.nodeId)] else []
  }

  /** The field writes without the node ID. */
  function BodyOps(dialect: Dialect, current: Config, target: Config): seq<FieldOp> {
    NominalOps(dialect, current, target) + DataOps(dialect, current, target) + BrsOps(dialect, current, target)
  }

  /** All field writes, node ID last. */
  function FieldOps(dialect: Dialect, current: Config, target: Config): seq<FieldOp> {
    BodyOps(dialect, current, target) + NodeOps(dialect, current, target)
  }

  /** 0x2001 saves once, after all fields, even when no field had to change. */
  function PlanOps(dialect: Dialect, current: Config, target: Config): seq<FieldOp> {
    FieldOps(dialect, current, target) + if dialect.Object2001? then [Save] else []
  }

  // ---------------------------------------------------------------------
  // The planners
  // ---------------------------------------------------------------------

  datatype PlanError =
    | NominalRejected | DataRejected | DataRequired | BrsRequired | SnapshotLacksData | SnapshotLacksBrs
    | ClassicShape | FdShape | InconsistentShape

  datatype Outcome = Outcome(changed: bool, restartRequired: bool,
      persistencePending: bool, brsAppliedImmediately: bool)

  datatype Plan = Plan(writes: seq<SdoWrite>, outcome: Outcome)

  predicate DataRateSupported(v: U32) {
    v == 1_000_000 || v == 2_000_000 || v == 4_000_000 || v == 5_000_000
  }

  predicate IsFd(c: Config) {
    c.data.Some? && c.brs.Some?
  }

  predicate IsClassic(c: Config) {
    c.data.None? && c.brs.None?
  }

  method BuildDeviceSettingsPlan(dialect: Dialect, current: Config, target: Config) returns (r: Result<Plan, PlanError>)
    ensures r.Ok? <==>
              && target.nominal == 1_000_000
              && (target.data.Some? ==> target.data.value in {1_000_000, 2_000_000, 4_000_000, 5_000_000})
              && ((IsFd(current) && IsFd(target)) || (dialect.Object2100? && IsClassic(current) && IsClassic(target)))
    ensures r == Err(NominalRejected) <==> target.nominal != 1_000_000
    ensures r.Ok? ==> r.value.writes == EncodeAll(dialect, PlanOps(dialect, current, target))
    ensures r.Ok? ==> (r.value.outcome.changed <==> current != target)
    ensures r.Ok? ==> r.value.outcome.restartRequired && r.value.outcome.persistencePending == dialect.Object2100?
    ensures r.Ok? ==> (r.value.outcome.brsAppliedImmediately <==> dialect.Object2100? && current.brs != target.brs)
  {
    if target.nominal != 1_000_000 {
      return Err(NominalRejected);
    }
    if target.data.Some? && !DataRateSupported(target.data.value) {
      return Err(DataRejected);
    }
    match dialect {
      case Object2001(_) => r := BuildObject2001Plan(dialect, current, target);
      case Object2100 => r := BuildObject2100Plan(current, target);
    }
  }

  method BuildObject2001Plan(dialect: Dialect, current: Config, target: Config) returns (r: Result<Plan, PlanError>)
    requires dialect.Object2001?
    ensures r.Ok? <==> IsFd(current) && IsFd(target)
    ensures r.Err? ==> r.error == if target.data.None? then DataRequired else if target.brs.None? then BrsRequired
                                  else if current.data.None? then SnapshotLacksData else SnapshotLacksBrs
    ensures r.Ok? ==> r.value.writes == EncodeAll(dialect, PlanOps(dialect, current, target))
    ensures r.Ok? ==> r.value.outcome == Outcome(current != target, true, false, false)
  {
    if target.data.None? {
      return Err(DataRequired);
    }
    if target.brs.None? {
      return Err(BrsRequired);
    }
    if current.data.None? {
      return Err(SnapshotLacksData);
    }
    if current.brs.None? {
      return Err(SnapshotLacksBrs);
    }
    var writes, changed := FieldWrites(dialect, current, target);
    EncodeConcat(dialect, FieldOps(dialect, current, target), [Save]);
    writes := writes + [Encode(dialect, Save)];
    return Ok(Plan(writes, Outcome(changed, true, false, false)));
  }

  method FieldWrites(dialect: Dialect, current: Config, target: Config) returns (writes: seq<SdoWrite>, changed: bool)
    requires dialect.Object2001? && IsFd(current) && IsFd(target)
    ensures writes == EncodeAll(dialect, FieldOps(dialect, current, target))
    ensures changed <==> current != target
  {
    ghost var ops := NominalOps(dialect, current, target);
    writes := [];
    if current.nominal != target.nominal {
      writes := writes + [Encode(dialect, SetNominal(target.nominal))];
    }
    assert writes == EncodeAll(dialect, ops);
    if current.data.value != target.data.value {
      EncodeAppend(dialect, ops, SetData(target.data.value));
      writes := writes + [Encode(dialect, SetData(target.data.value))];
    }
    ops := ops + DataOps(dialect, current, target);
    assert writes == EncodeAll(dialect, ops);
    if current.brs.value != target.brs.value {
      EncodeAppend(dialect, ops, SetBrs(target.brs.value));
      writes := writes + [Encode(dialect, SetBrs(target.brs.value))];
    }
    ops := ops + BrsOps(dialect, current, target);
    assert writes == EncodeAll(dialect, ops);
    if current.nodeId != target.nodeId {
      EncodeAppend(dialect, ops, SetNode(target.nodeId));
      writes := writes + [Encode(dialect, SetNode(target.nodeId))];
    }
    changed := |writes| > 0;
  }

  lemma {:induction false} EncodeAppend(dialect: Dialect, ops: seq<FieldOp>, op: FieldOp)
    ensures EncodeAll(dialect, ops + [op]) == EncodeAll(dialect, ops) + [Encode(dialect, op)]
  {
  }

  method BuildObject2100Plan(current: Config, target: Config) returns (r: Result<Plan, PlanError>)
    ensures r.Ok? <==> (IsFd(current) && IsFd(target)) || (IsClassic(current) && IsClassic(target))
    ensures r.Err? ==> r.error == if IsClassic(current) then ClassicShape else if IsFd(current) then FdShape
                                  else InconsistentShape
    ensures r.Ok? ==> r.value.writes == EncodeAll(Object2100, PlanOps(Object2100, current, target))
    ensures r.Ok? ==> r.value.outcome == Outcome(current != target, true, true, current.brs != target.brs)
  {
    var writes := [Encode(Object2100, SetNominal(target.nominal))];
    var dataChanged, brsChanged := false, false;
    if IsClassic(current) && IsClassic(target) {
      dataChanged, brsChanged := false, false;
    } else if IsFd(current) && IsFd(target) {
      dataChanged := current.data.value != target.data.value;
      brsChanged := current.brs.value != target.brs.value;
      writes := writes + [Encode(Object2100, SetData(target.data.value))];
      writes := writes + [Encode(Object2100, SetBrs(target.brs.value))];
    } else if IsClassic(current) {
      return Err(ClassicShape);
    } else if IsFd(current) {
      return Err(FdShape);
    } else {
      return Err(InconsistentShape);
    }
    var nodeChanged := current.nodeId != target.nodeId;
    writes := writes + [Encode(Object2100, SetNode(target.nodeId))];
    var nominalChanged := current.nominal != target.nominal;
    var changed := nominalChanged || dataChanged || brsChanged || nodeChanged;
    assert writes == EncodeAll(Object2100, PlanOps(Object2100, current, target));
    return Ok(Plan(writes, Outcome(changed, true, true, brsChanged)));
  }
}
