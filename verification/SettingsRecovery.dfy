/**
  Interrupted settings transactions: what a device holds after any sequence of
  attempts that stopped anywhere, lost power or lost an answer.
 */
module SettingsRecovery {
  import opened Wrappers
  import opened PdoConfig
  import opened SettingsPlan

  /** The working copy a device reports, and the copy it restarts with. */
  datatype Device = Device(ram: Config, stored: Config)

  function WithField(c: Config, op: FieldOp): Config {
    match op
    case SetNominal(v) => c.(nominal := v)
    case SetData(v) => c.(data := Some(v))
    case SetBrs(b) => c.(brs := Some(b))
    case SetNode(n) => c.(nodeId := n)
    case Save => c
  }

  /** 0x2001 changes RAM until saved; 0x2100 writes through. */
  function ApplyOp(dialect: Dialect, d: Device, op: FieldOp): Device {
    match dialect
    case Object2001(_) => if op.Save? then d.(stored := d.ram) else d.(ram := WithField(d.ram, op))
    case Object2100 => Device(WithField(d.ram, op), WithField(d.stored, op))
  }

  function Apply(dialect: Dialect, d: Device, ops: seq<FieldOp>): Device {
    if ops == [] then d else ApplyOp(dialect, Apply(dialect, d, ops[..|ops| - 1]), ops[|ops| - 1])
  }

  /** How a device reads an SDO write; None is an abort. */
  function Decode(dialect: Dialect, w: SdoWrite): Option<FieldOp> {
    assert Pow256(4) == 0x1_0000_0000;
    match dialect
    case Object2001(saveSub) =>
      if w.index == 0x2001 && w.subindex == 1 && |w.data| == 1 then Some(SetNode(w.data[0]))
      else if w.index == 0x2001 && w.subindex == 2 && |w.data| == 4 then Some(SetNominal(LeValue(w.data)))
      else if w.index == 0x2001 && w.subindex == 3 && |w.data| == 4 then Some(SetData(LeValue(w.data)))
      else if w.index == 0x2001 && w.subindex == 4 && |w.data| == 1 && w.data[0] <= 1 then Some(SetBrs(w.data[0] == 1))
      else if w.index == 0x1010 && w.subindex == saveSub && w.data == [0x73, 0x61, 0x76, 0x65] then Some(Save)
      else None
    case Object2100 =>
      if w.index == 0x2100 && w.subindex == 1 && |w.data| == 4 then Some(SetNominal(LeValue(w.data)))
      else if w.index == 0x2100 && w.subindex == 2 && |w.data| == 4 then Some(SetData(LeValue(w.data)))
      else if w.index == 0x2100 && w.subindex == 3 && |w.data| == 1 && w.data[0] <= 1 then Some(SetBrs(w.data[0] == 1))
      else if w.index == 0x2101 && w.subindex == 0 && |w.data| == 1 then Some(SetNode(w.data[0]))
      else None
  }

  /** Every planned write means to the device what the plan meant. */
  lemma {:induction false} DecodeEncode(dialect: Dialect, op: FieldOp)
    requires dialect.Object2100? ==> !op.Save?
    ensures Decode(dialect, Encode(dialect, op)) == Some(op)
  {
    match op
    case SetNode(n) => ByteCarries(n);
    case SetNominal(v) => WordCarries(v);
    case SetData(v) => WordCarries(v);
    case SetBrs(b) => ByteCarries(if b then 1 else 0);
    case Save => EncodesExactly(if dialect.Object2001? then dialect.saveSub else 0, 0, 0, false, 0);
  }

  lemma {:induction false} ByteCarries(v: U8)
    ensures LeBytes(v, 1) == [v]
  {
  }

  lemma {:induction false} WordCarries(v: U32)
    ensures |LeBytes(v, 4)| == 4 && LeValue(LeBytes(v, 4)) == v
  {
    assert Pow256(4) == 0x1_0000_0000;
    LeRoundTrip(v, 4);
  }

  /** What an SDO write does to the device; one it cannot read does nothing. */
  function Receive(dialect: Dialect, d: Device, w: SdoWrite): Device {
    var op := Decode(dialect, w);
    if op.None? then d else ApplyOp(dialect, d, op.value)
  }

  function ReceiveAll(dialect: Dialect, d: Device, ws: seq<SdoWrite>): Device {
    if ws == [] then d else Receive(dialect, ReceiveAll(dialect, d, ws[..|ws| - 1]), ws[|ws| - 1])
  }

  /** The device does what the plan meant with the bytes it is sent. */
  lemma {:induction false} ReceivedAsMeant(dialect: Dialect, d: Device, ops: seq<FieldOp>)
    requires dialect.Object2100? ==> NoSave(ops)
    ensures ReceiveAll(dialect, d, EncodeAll(dialect, ops)) == Apply(dialect, d, ops)
  {
    if ops != [] {
      var n := |ops| - 1;
      assert EncodeAll(dialect, ops)[..n] == EncodeAll(dialect, ops[..n]);
      ReceivedAsMeant(dialect, d, ops[..n]);
      DecodeEncode(dialect, ops[n]);
    }
  }

  // ---------------------------------------------------------------------
  // One attempt
  // ---------------------------------------------------------------------

  /** The device has the fields of its dialect, and the target supplies them. */
  predicate Suits(dialect: Dialect, d: Device, target: Config) {
    FitsShape(dialect, d.ram, target) && FitsShape(dialect, d.stored, target)
  }

  predicate FitsShape(dialect: Dialect, c: Config, target: Config) {
    (IsFd(target) && IsFd(c)) || (dialect.Object2100? && IsClassic(target) && IsClassic(c))
  }

  /** What one write of a plan may have left behind in one copy of the settings. */
  predicate PartWay(before: Config, now: Config, target: Config) {
    && (now.nominal == before.nominal || now.nominal == target.nominal)
    && (now.data == before.data || now.data == target.data)
    && (now.brs == before.brs || now.brs == target.brs)
    && (now.nodeId == before.nodeId || now == target)
  }

  /** All fields but the node ID are written. */
  predicate AllButNode(now: Config, target: Config) {
    now == target.(nodeId := now.nodeId)
  }

  function Fields(ops: seq<FieldOp>, c: Config): Config {
    if ops == [] then c else WithField(Fields(ops[..|ops| - 1], c), ops[|ops| - 1])
  }

  predicate NoSave(ops: seq<FieldOp>) {
    forall i :: 0 <= i < |ops| ==> !ops[i].Save?
  }

  /** Field writes act on each copy separately. */
  lemma {:induction false} ApplyFields(dialect: Dialect, d: Device, ops: seq<FieldOp>)
    requires NoSave(ops)
    ensures Apply(dialect, d, ops)
         == if dialect.Object2001? then d.(ram := Fields(ops, d.ram))
            else Device(Fields(ops, d.ram), Fields(ops, d.stored))
  {
    if ops != [] {
      ApplyFields(dialect, d, ops[..|ops| - 1]);
    }
  }

  lemma {:induction false} NeverSaves(dialect: Dialect, current: Config, target: Config)
    ensures NoSave(FieldOps(dialect, current, target))
  {
  }

  predicate ToTarget(op: FieldOp, target: Config) {
    match op
    case SetNominal(v) => v == target.nominal
    case SetData(v) => Some(v) == target.data
    case SetBrs(b) => Some(b) == target.brs
    case SetNode(_) => false
    case Save => false
  }

  /** Body writes move fields to their targets and leave the node ID alone. */
  lemma {:induction false} BodyPartWay(ops: seq<FieldOp>, c: Config, target: Config)
    requires forall i :: 0 <= i < |ops| ==> ToTarget(ops[i], target)
    ensures var now := Fields(ops, c);
            && now.nodeId == c.nodeId
            && (now.nominal == c.nominal || now.nominal == target.nominal)
            && (now.data == c.data || now.data == target.data)
            && (now.brs == c.brs || now.brs == target.brs)
  {
    if ops != [] {
      BodyPartWay(ops[..|ops| - 1], c, target);
      assert ToTarget(ops[|ops| - 1], target);
    }
  }

  lemma {:induction false} BodyToTarget(dialect: Dialect, current: Config, target: Config)
    ensures forall i :: 0 <= i < |BodyOps(dialect, current, target)|
                ==> ToTarget(BodyOps(dialect, current, target)[i], target)
  {
  }

  /** The whole body leaves only the node ID to do. */
  lemma {:induction false} BodyComplete(dialect: Dialect, current: Config, c: Config, target: Config)
    requires FitsShape(dialect, c, target) && (dialect.Object2001? ==> c == current)
    ensures AllButNode(Fields(BodyOps(dialect, current, target), c), target)
  {
    var x, y, z := NominalOps(dialect, current, target), DataOps(dialect, current, target),
                   BrsOps(dialect, current, target);
    FieldsConcat(x + y, z, c);
    FieldsConcat(x, y, c);
    var c1 := c.(nominal := target.nominal);
    var c2 := c1.(data := target.data);
    FieldsDone(dialect, current, c, c1, c2, target);
  }

  lemma {:induction false} FieldsDone(dialect: Dialect, current: Config, c: Config, c1: Config, c2: Config,
      target: Config)
    requires FitsShape(dialect, c, target) && (dialect.Object2001? ==> c == current)
    requires c1 == c.(nominal := target.nominal) && c2 == c1.(data := target.data)
    ensures Fields(NominalOps(dialect, current, target), c) == c1
    ensures Fields(DataOps(dialect, current, target), c1) == c2
    ensures Fields(BrsOps(dialect, current, target), c2) == c2.(brs := target.brs)
  {
    OneField(NominalOps(dialect, current, target), c);
    OneField(DataOps(dialect, current, target), c1);
    OneField(BrsOps(dialect, current, target), c2);
  }

  lemma {:induction false} FieldsConcat(a: seq<FieldOp>, b: seq<FieldOp>, c: Config)
    ensures Fields(a + b, c) == Fields(b, Fields(a, c))
  {
    if b == [] {
      assert a + b == a;
    } else {
      assert (a + b)[..|a + b| - 1] == a + b[..|b| - 1];
      FieldsConcat(a, b[..|b| - 1], c);
    }
  }

  lemma {:induction false} OneField(ops: seq<FieldOp>, c: Config)
    requires |ops| <= 1
    ensures Fields(ops, c) == if ops == [] then c else WithField(c, ops[0])
  {
    if ops != [] {
      assert ops[..0] == [];
    }
  }

  /**
    After any prefix of the field writes, a copy is part way to the target; its
    node ID changes only once every other field has its target value.
   */
  lemma {:induction false} PrefixPartWay(dialect: Dialect, current: Config, c: Config, target: Config, j: nat)
    requires FitsShape(dialect, c, target) && (dialect.Object2001? ==> c == current)
    requires j <= |FieldOps(dialect, current, target)|
    ensures PartWay(c, Fields(FieldOps(dialect, current, target)[..j], c), target)
    ensures j == |FieldOps(dialect, current, target)| ==> Fields(FieldOps(dialect, current, target)[..j], c) == target
  {
    var body, node := BodyOps(dialect, current, target), NodeOps(dialect, current, target);
    BodyToTarget(dialect, current, target);
    BodyComplete(dialect, current, c, target);
    BodyPartWay(body, c, target);
    if j <= |body| {
      assert (body + node)[..j] == body[..j];
      BodyPartWay(body[..j], c, target);
      if j == |body| {
        assert body[..j] == body;
      }
    } else {
      assert (body + node)[..j] == body + node;
      FieldsConcat(body, node, c);
      OneField(node, Fields(body, c));
    }
  }

  /** What an attempt that stopped after any number of writes may leave behind. */
  predicate Interrupted(dialect: Dialect, d: Device, e: Device, target: Config) {
    && PartWay(d.ram, e.ram, target)
    && (match dialect
        case Object2001(_) => e.stored == d.stored || e.stored == target
        case Object2100 => PartWay(d.stored, e.stored, target))
  }

  lemma {:induction false} AttemptEffect(dialect: Dialect, d: Device, target: Config, j: nat)
    requires Suits(dialect, d, target) && j <= |PlanOps(dialect, d.ram, target)|
    ensures var e := Apply(dialect, d, PlanOps(dialect, d.ram, target)[..j]);
            && Interrupted(dialect, d, e, target)
            && (j == |PlanOps(dialect, d.ram, target)| ==> e == Device(target, target))
  {
    var fields, all := FieldOps(dialect, d.ram, target), PlanOps(dialect, d.ram, target);
    NeverSaves(dialect, d.ram, target);
    if j <= |fields| {
      assert all[..j] == fields[..j];
      ApplyFields(dialect, d, fields[..j]);
      PrefixPartWay(dialect, d.ram, d.ram, target, j);
      if dialect.Object2100? {
        PrefixPartWay(dialect, d.ram, d.stored, target, j);
      }
    } else {
      assert all[..j] == fields + [Save];
      assert fields == fields[..|fields|];
      assert (fields + [Save])[..|fields|] == fields;
      ApplyFields(dialect, d, fields);
      PrefixPartWay(dialect, d.ram, d.ram, target, |fields|);
    }
  }

  /** Without the save, 0x2001 leaves the stored copy alone, and all field writes leave the target in RAM. */
  lemma {:induction false} FieldsReach(dialect: Dialect, d: Device, target: Config, j: nat)
    requires dialect.Object2001? && Suits(dialect, d, target) && j <= |FieldOps(dialect, d.ram, target)|
    ensures var e := Apply(dialect, d, FieldOps(dialect, d.ram, target)[..j]);
            && Interrupted(dialect, d, e, target) && e.stored == d.stored
            && (j == |FieldOps(dialect, d.ram, target)| ==> e.ram == target)
  {
    NeverSaves(dialect, d.ram, target);
    ApplyFields(dialect, d, FieldOps(dialect, d.ram, target)[..j]);
    PrefixPartWay(dialect, d.ram, d.ram, target, j);
  }

  // ---------------------------------------------------------------------
  // Any number of interrupted attempts
  // ---------------------------------------------------------------------

  /** One attempt: perhaps after a power cycle, re-read the device, plan, deliver some of the writes. */
  datatype Attempt = Attempt(powerCycled: bool, delivered: nat)

  function PowerUp(d: Device, powerCycled: bool): Device {
    if powerCycled then d.(ram := d.stored) else d
  }

  /** The SDO writes of the plan for what the device reports. */
  function PlanWrites(dialect: Dialect, d: Device, target: Config): seq<SdoWrite> {
    EncodeAll(dialect, PlanOps(dialect, d.ram, target))
  }

  /** The device after the first `count` writes of the plan. */
  function Delivered(dialect: Dialect, d: Device, target: Config, count: nat): Device {
    var writes := PlanWrites(dialect, d, target);
    ReceiveAll(dialect, d, writes[..if count < |writes| then count else |writes|])
  }

  lemma {:induction false} DeliveredAsMeant(dialect: Dialect, d: Device, target: Config, j: nat)
    requires j <= |PlanOps(dialect, d.ram, target)|
    ensures ReceiveAll(dialect, d, PlanWrites(dialect, d, target)[..j])
            == Apply(dialect, d, PlanOps(dialect, d.ram, target)[..j])
  {
    var ops := PlanOps(dialect, d.ram, target);
    NeverSaves(dialect, d.ram, target);
    assert EncodeAll(dialect, ops)[..j] == EncodeAll(dialect, ops[..j]);
    ReceivedAsMeant(dialect, d, ops[..j]);
  }

  function AfterAttempts(dialect: Dialect, d: Device, target: Config, attempts: seq<Attempt>): Device {
    if attempts == [] then d
    else
      var last := attempts[|attempts| - 1];
      var before := AfterAttempts(dialect, d, target, attempts[..|attempts| - 1]);
      Delivered(dialect, PowerUp(before, last.powerCycled), target, last.delivered)
  }

  /** The persisted copy of a 0x2001 device is the old one or the target, never a mixture. */
  predicate StoredUnmixed(dialect: Dialect, d: Device, e: Device, target: Config) {
    dialect.Object2001? ==> e.stored == d.stored || e.stored == target
  }

  lemma {:induction false} PartWayFits(dialect: Dialect, before: Config, now: Config, target: Config)
    requires FitsShape(dialect, before, target) && PartWay(before, now, target)
    ensures FitsShape(dialect, now, target)
  {
  }

  /**
    Whatever was interrupted, and wherever: the stored copy of a 0x2001 device is
    unmixed at every moment.
   */
  lemma {:induction false} StoredNeverMixed(dialect: Dialect, d: Device, target: Config, attempts: seq<Attempt>)
    requires Suits(dialect, d, target)
    ensures var e := AfterAttempts(dialect, d, target, attempts);
            Suits(dialect, e, target) && StoredUnmixed(dialect, d, e, target)
  {
    if attempts != [] {
      var n := |attempts| - 1;
      StoredNeverMixed(dialect, d, target, attempts[..n]);
      var before := PowerUp(AfterAttempts(dialect, d, target, attempts[..n]), attempts[n].powerCycled);
      DeliveredEffect(dialect, before, target, attempts[n].delivered);
    }
  }

  lemma {:induction false} DeliveredEffect(dialect: Dialect, d: Device, target: Config, count: nat)
    requires Suits(dialect, d, target)
    ensures var e := Delivered(dialect, d, target, count);
            && Suits(dialect, e, target) && Interrupted(dialect, d, e, target)
            && (count >= |PlanOps(dialect, d.ram, target)| ==> e == Device(target, target))
  {
    var ops := PlanOps(dialect, d.ram, target);
    var j := if count < |ops| then count else |ops|;
    DeliveredAsMeant(dialect, d, target, j);
    AttemptEffect(dialect, d, target, j);
    var e := Delivered(dialect, d, target, count);
    PartWayFits(dialect, d.ram, e.ram, target);
    if dialect.Object2100? {
      PartWayFits(dialect, d.stored, e.stored, target);
    }
  }

  /**
    Any sequence of interrupted attempts followed by one that completes leaves
    the device, working copy and stored copy alike, exactly at the target.
   */
  lemma {:induction false} InterruptedAttemptsConverge(dialect: Dialect, d: Device, target: Config,
                                                      attempts: seq<Attempt>, powerCycled: bool)
    requires Suits(dialect, d, target)
    ensures var before := PowerUp(AfterAttempts(dialect, d, target, attempts), powerCycled);
            ReceiveAll(dialect, before, PlanWrites(dialect, before, target)) == Device(target, target)
  {
    StoredNeverMixed(dialect, d, target, attempts);
    var before := PowerUp(AfterAttempts(dialect, d, target, attempts), powerCycled);
    var writes := PlanWrites(dialect, before, target);
    assert writes[..|writes|] == writes;
    DeliveredEffect(dialect, before, target, |writes|);
  }

  /** In any attempt the node ID changes only once every other field has reached its target. */
  lemma {:induction false} NodeIdChangesLast(dialect: Dialect, d: Device, target: Config, count: nat)
    requires Suits(dialect, d, target)
    ensures var e := Delivered(dialect, d, target, count);
            && (e.ram.nodeId != d.ram.nodeId ==> e.ram == target)
            && (e.stored.nodeId != d.stored.nodeId ==> e.stored == target)
  {
    DeliveredEffect(dialect, d, target, count);
  }
}
