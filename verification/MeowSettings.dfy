/**
  apply_can_settings of src/meow_motor/manager.rs, with the plan of
  src/meow_motor/settings.rs, against a device reached over an unreliable channel.
 */
module MeowSettings {
  import opened Wrappers
  import opened PdoConfig
  import opened SettingsPlan
  import opened SettingsRecovery

  /** Meow motors save 0x2001 through 0x1010:04. */
  const DIALECT: Dialect := Object2001(4)

  datatype SettingsError = InvalidNodeId | UnsupportedNominalBitrate | UnsupportedDataBitrate

  function ValidateSettings(c: Config): Option<SettingsError>
    requires IsFd(c)
  {
    if !(1 <= c.nodeId <= 127) then Some(InvalidNodeId)
    else if c.nominal !in {125_000, 250_000, 500_000, 800_000, 1_000_000} then Some(UnsupportedNominalBitrate)
    else if !DataRateSupported(c.data.value) then Some(UnsupportedDataBitrate)
    else None
  }

  /** The settings a Meow motor may be given. */
  predicate Usable(c: Config)
    requires IsFd(c)
  {
    && 1 <= c.nodeId <= 127
    && (c.nominal == 125_000 || c.nominal == 250_000 || c.nominal == 500_000 || c.nominal == 800_000
        || c.nominal == 1_000_000)
    && (c.data.value == 1_000_000 || c.data.value == 2_000_000 || c.data.value == 4_000_000
        || c.data.value == 5_000_000)
  }

  datatype UpdatePlan = UpdatePlan(target: Config, fieldWrites: seq<SdoWrite>, saveWrite: SdoWrite, changed: bool)

  method BuildSettingsUpdatePlan(current: Config, target: Config) returns (r: Result<UpdatePlan, SettingsError>)
    requires IsFd(current) && IsFd(target)
    ensures r.Ok? <==>
              && 1 <= current.nodeId <= 127 && 1 <= target.nodeId <= 127
              && current.nominal in {125_000, 250_000, 500_000, 800_000, 1_000_000}
              && target.nominal in {125_000, 250_000, 500_000, 800_000, 1_000_000}
              && current.data.value in {1_000_000, 2_000_000, 4_000_000, 5_000_000}
              && target.data.value in {1_000_000, 2_000_000, 4_000_000, 5_000_000}
    ensures r.Ok? ==> r.value == UpdatePlan(target, EncodeAll(DIALECT, FieldOps(DIALECT, current, target)),
                                            Encode(DIALECT, Save), current != target)
    ensures r.Ok? ==> r.value.saveWrite == SdoWrite(0x1010, 4, [0x73, 0x61, 0x76, 0x65])
  {
    var problem := ValidateSettings(current);
    if problem.Some? {
      return Err(problem.value);
    }
    problem := ValidateSettings(target);
    if problem.Some? {
      return Err(problem.value);
    }
    var writes, changed := FieldWrites(DIALECT, current, target);
    EncodesExactly(4, 0, 0, false, 0);
    return Ok(UpdatePlan(target, writes, Encode(DIALECT, Save), changed));
  }

  class Node {
    var device: Device

    /** The call is admitted, no transfer fails, the node stays in its session and its
        configurable state, and it reports that it can save. */
    const undisturbed: bool

    constructor (d: Device, calm: bool)
      ensures device == d && undisturbed == calm
    {
      device, undisturbed := d, calm;
    }

    method ReadSettings() returns (c: Option<Config>)
      ensures c.Some? ==> c.value == device.ram
      ensures undisturbed ==> c.Some?
    {
      var answered: bool := *;
      return if answered || undisturbed then Some(device.ram) else None;
    }

    /** A failed download may or may not have reached the device. */
    method Download(w: SdoWrite) returns (ok: bool)
      modifies this
      ensures var op := Decode(DIALECT, w);
              device == old(device) || (op.Some? && device == ApplyOp(DIALECT, old(device), op.value))
      ensures ok ==> Decode(DIALECT, w).Some? && device == ApplyOp(DIALECT, old(device), Decode(DIALECT, w).value)
      ensures undisturbed ==> (ok <==> Decode(DIALECT, w).Some?)
    {
      var delivered: bool := *;
      var answered: bool := *;
      var op := Decode(DIALECT, w);
      if (delivered || undisturbed) && op.Some? {
        device := ApplyOp(DIALECT, device, op.value);
        return answered || undisturbed;
      }
      return false;
    }

    /** Writes fields in order; after a failure some prefix of them has been delivered. */
    method WriteFields(writes: seq<SdoWrite>, ghost ops: seq<FieldOp>) returns (ok: bool, ghost reached: nat)
      requires writes == EncodeAll(DIALECT, ops)
      modifies this
      ensures reached <= |ops| && device == Apply(DIALECT, old(device), ops[..reached])
      ensures ok ==> reached == |ops|
      ensures undisturbed ==> ok
    {
      reached := 0;
      for i := 0 to |writes|
        invariant reached == i && device == Apply(DIALECT, old(device), ops[..i])
      {
        var stateCurrent: bool := *;
        if !stateCurrent && !undisturbed {
          return false, i;
        }
        DecodeEncode(DIALECT, ops[i]);
        assert ops[..i + 1][..i] == ops[..i];
        ghost var before := device;
        ok := Download(writes[i]);
        if !ok {
          reached := if device == before then i else i + 1;
          return;
        }
        reached := i + 1;
      }
      ok := true;
    }

    /** Checks the target, plans, writes the fields and reads them back. */
    method WriteSettings(target: Config) returns (changed: Option<bool>)
      requires IsFd(target) && IsFd(device.ram) && IsFd(device.stored)
      modifies this
      ensures changed.Some? ==> device == old(device).(ram := target) && (changed.value <==> old(device.ram) != target)
      ensures Interrupted(DIALECT, old(device), device, target) && device.stored == old(device.stored)
      ensures undisturbed ==> (changed.Some? <==> Usable(old(device).ram) && Usable(target))
    {
      FieldsReach(DIALECT, device, target, 0);
      if ValidateSettings(target).Some? {
        return None;
      }
      var admitted: bool := *;
      if !admitted && !undisturbed {
        return None;
      }
      var current := ReadSettings();
      if current.None? {
        return None;
      }
      var planned := BuildSettingsUpdatePlan(current.value, target);
      if planned.Err? {
        return None;
      }
      ghost var ops := FieldOps(DIALECT, current.value, target);
      var ok: bool;
      ghost var reached: nat;
      ok, reached := WriteFields(planned.value.fieldWrites, ops);
      FieldsReach(DIALECT, old(device), target, reached);
      if !ok {
        return None;
      }
      var readBack := ReadSettings();
      return if readBack == Some(target) then Some(planned.value.changed) else None;
    }

    /** Saves the working copy. */
    method Save() returns (ok: bool)
      modifies this
      ensures device == old(device) || device == Device(old(device).ram, old(device).ram)
      ensures ok ==> device == Device(old(device).ram, old(device).ram)
      ensures undisturbed ==> ok
    {
      var saveSupported: bool := *;
      if !saveSupported && !undisturbed {
        return false;
      }
      DecodeEncode(DIALECT, FieldOp.Save);
      ok := Download(Encode(DIALECT, FieldOp.Save));
      var stateCurrent: bool := *;
      ok := ok && (stateCurrent || undisturbed);
    }

    /**
      Success means both copies hold the target, and reports whether any field
      had differed. A failure leaves the stored copy as it was or at the target,
      and the working copy part way with the node ID last. Left undisturbed, the call
      succeeds exactly if the settings read and the target are both usable.
     */
    method ApplyCanSettings(target: Config) returns (changed: Option<bool>)
      requires IsFd(target) && IsFd(device.ram) && IsFd(device.stored)
      modifies this
      ensures changed.Some? ==> device == Device(target, target) && (changed.value <==> old(device.ram) != target)
      ensures Interrupted(DIALECT, old(device), device, target)
      ensures undisturbed ==> (changed.Some? <==> Usable(old(device).ram) && Usable(target))
    {
      changed := WriteSettings(target);
      if changed.Some? {
        var saved := Save();
        if !saved {
          return None;
        }
      }
    }
  }
}
