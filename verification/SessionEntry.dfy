/**
  The per-node session record of src/cia402/motor_entry.rs and every locked
  region that changes it (src/cia402/discovery.rs, device_can.rs, initialize.rs,
  manager.rs, tpdo_listener.rs), one function per region.
 */
module SessionEntry {
  import opened Wrappers
  import SP = SettingsPlan

  const U64_MAX: nat := 0xFFFF_FFFF_FFFF_FFFF

  function Bump(n: nat): nat {
    if n >= U64_MAX then 0 else n + 1
  }

  datatype Nmt = BootUp | Stopped | Operational | PreOperational

  datatype Lifecycle = Unknown | Identified | Initializing | Initialized | NeedsReinit

  /** Vendor, product, revision and serial number, and the optional product name. */
  datatype Identity = Identity(stable: nat, productName: nat)

  datatype CanConfig = Pending | Unsupported | ReadFailed | Available(config: SP.Config)

  datatype Entry = Entry(
    epoch: nat, nmtRevision: nat, bootupRevision: nat, autoReady: bool, identity: Option<Identity>,
    canConfig: CanConfig,
    lifecycle: Lifecycle, online: bool, heartbeatSeen: bool, nmt: Option<Nmt>, tpdo2Revision: nat, tpdo2Clean: bool)

  const NEW_ENTRY: Entry := Entry(0, 0, 0, true, None, Pending, Unknown, false, false, None, 0, false)

  /** A new device session: nothing learned about the old one survives. */
  function Invalidated(e: Entry): Entry {
    e.(epoch := Bump(e.epoch), autoReady := true, identity := None, canConfig := Pending, lifecycle := Unknown,
       tpdo2Clean := false)
  }

  function WithNmt(e: Entry, state: Nmt): Entry {
    e.(heartbeatSeen := true, nmt := Some(state),
       nmtRevision := if e.nmt == Some(state) then e.nmtRevision else Bump(e.nmtRevision))
  }

  /** An inbound heartbeat. */
  function HeardHeartbeat(e: Entry, state: Nmt): Entry {
    var e1 := WithNmt(e, state);
    var e2 := if state.BootUp? then Invalidated(e1.(bootupRevision := Bump(e1.bootupRevision))) else e1;
    e2.(online := true,
        lifecycle := if e2.lifecycle.Initialized? && !state.Operational? then NeedsReinit else e2.lifecycle)
  }

  /** Discovery may start the one automatic identification of this session. */
  predicate WantsIdentify(e: Entry) {
    e.lifecycle.Unknown? && e.autoReady
  }

  /** The liveness monitor finds a node silent for too long. */
  function WentOffline(e: Entry): Entry {
    if !e.online then e
    else
      var e1 := Invalidated(e.(online := false));
      e1.(nmtRevision := Bump(e1.nmtRevision), nmt := None)
  }

  /** A TPDO; a decoded TPDO2 says whether the drive reports no fault. */
  function HeardTpdo(e: Entry, tpdo2: bool, clean: bool): Entry {
    var e1 := e.(online := true);
    if tpdo2 then e1.(tpdo2Revision := Bump(e1.tpdo2Revision), tpdo2Clean := clean) else e1
  }

  function Marked(e: Entry, epoch: nat): Entry {
    if e.epoch == epoch && WantsIdentify(e) then e.(autoReady := false) else e
  }

  function BegunRead(e: Entry, epoch: nat, identity: Identity): Option<Entry> {
    if e.epoch != epoch then None
    else Some(e.(identity := Some(identity), canConfig := Pending,
                 lifecycle := if e.lifecycle.Unknown? then Identified else e.lifecycle))
  }

  function FinishedRead(e: Entry, epoch: nat, status: CanConfig): Option<Entry> {
    if e.epoch != epoch then None else Some(e.(canConfig := status))
  }

  function EnteredInitialize(e: Entry): Option<Entry> {
    if e.lifecycle.Initializing? || e.identity.None? then None
    else Some(e.(lifecycle := Initializing, tpdo2Clean := false))
  }

  /** The initialization still runs in the context it started in; the revision is checked once it is fenced. */
  predicate ContextHolds(e: Entry, epoch: nat, identity: Identity, revision: Option<nat>, heartbeatFresh: bool) {
    && e.epoch == epoch && e.identity == Some(identity) && e.lifecycle.Initializing? && e.online
    && e.nmt == Some(Operational)
    && (revision.Some? ==> e.nmtRevision == revision.value && e.heartbeatSeen && heartbeatFresh)
  }

  function CommittedInitialize(e: Entry, epoch: nat, identity: Identity, revision: nat, heartbeatFresh: bool)
    : Option<Entry>
  {
    if ContextHolds(e, epoch, identity, Some(revision), heartbeatFresh)
      then Some(e.(lifecycle := Initialized)) else None
  }

  function RolledBack(e: Entry): Entry {
    if e.lifecycle.Initializing? then e.(lifecycle := if e.identity.Some? then Identified else Unknown) else e
  }

  /** What a settings transaction pins down at its start. */
  datatype Token = Token(epoch: nat, revision: nat, nmt: Nmt)

  predicate Configurable(nmt: Option<Nmt>) {
    nmt == Some(PreOperational) || nmt == Some(Stopped)
  }

  function CapturedSession(e: Entry): Option<Token> {
    if e.online && e.heartbeatSeen && Configurable(e.nmt)
      then Some(Token(e.epoch, e.nmtRevision, e.nmt.value)) else None
  }

  predicate SessionHolds(e: Entry, token: Token) {
    && e.online && e.heartbeatSeen && e.epoch == token.epoch
    && e.nmtRevision == token.revision && e.nmt == Some(token.nmt) && Configurable(e.nmt)
  }

  function CachedSettings(e: Entry, token: Token, target: SP.Config): Option<Entry> {
    if !e.online || e.epoch != token.epoch || e.nmtRevision != token.revision || e.nmt != Some(token.nmt) then None
    else Some(e.(canConfig := Available(target)))
  }

  /** A TPDO2 newer than the given revision shows no fault. */
  predicate FreshAndClean(e: Entry, baseline: nat) {
    e.tpdo2Revision != baseline && e.tpdo2Clean
  }

  class MotorEntry {
    var epoch: nat
    var nmtRevision: nat
    var bootupRevision: nat
    var autoReady: bool
    var identity: Option<Identity>
    var canConfig: CanConfig
    var lifecycle: Lifecycle
    var online: bool
    var heartbeatSeen: bool
    var nmt: Option<Nmt>
    var tpdo2Revision: nat
    var tpdo2Clean: bool

    function State(): Entry
      reads this
    {
      Entry(epoch, nmtRevision, bootupRevision, autoReady, identity, canConfig, lifecycle, online, heartbeatSeen, nmt,
            tpdo2Revision, tpdo2Clean)
    }

    constructor ()
      ensures State() == NEW_ENTRY
      ensures epoch == nmtRevision == bootupRevision == tpdo2Revision == 0 && autoReady && !online && !heartbeatSeen
      ensures !tpdo2Clean && identity == None && canConfig == Pending && lifecycle == Unknown && nmt == None
    {
      epoch, nmtRevision, bootupRevision, tpdo2Revision := 0, 0, 0, 0;
      autoReady, online, heartbeatSeen, tpdo2Clean := true, false, false, false;
      identity, canConfig, lifecycle, nmt := None, Pending, Unknown, None;
    }

    method InvalidateForNewDeviceSession()
      modifies this
      ensures State() == Invalidated(old(State()))
      ensures epoch == Bump(old(epoch)) && autoReady && identity == None && canConfig == Pending
      ensures lifecycle == Unknown && !tpdo2Clean
      ensures unchanged(`nmtRevision, `bootupRevision, `online, `heartbeatSeen, `nmt, `tpdo2Revision)
    {
      epoch := Bump(epoch);
      autoReady := true;
      identity := None;
      canConfig := Pending;
      lifecycle := Unknown;
      tpdo2Clean := false;
    }

    method NoteNmt(state: Nmt)
      modifies this
      ensures State() == WithNmt(old(State()), state)
    {
      heartbeatSeen := true;
      if nmt != Some(state) {
        nmtRevision := Bump(nmtRevision);
      }
      nmt := Some(state);
    }

    /** Returns the session in which discovery should start the automatic identification, if any. */
    method HandleInboundHeartbeat(state: Nmt) returns (attempt: Option<nat>)
      modifies this
      ensures State() == HeardHeartbeat(old(State()), state)
      ensures attempt == if WantsIdentify(State()) then Some(State().epoch) else None
      ensures attempt == if lifecycle == Unknown && autoReady then Some(epoch) else None
      ensures online && heartbeatSeen && nmt == Some(state) && tpdo2Revision == old(tpdo2Revision)
      ensures nmtRevision == if old(nmt) == Some(state) then old(nmtRevision) else Bump(old(nmtRevision))
      ensures state == BootUp ==>
                && epoch == Bump(old(epoch)) && bootupRevision == Bump(old(bootupRevision)) && autoReady
                && identity == None && canConfig == Pending && lifecycle == Unknown && !tpdo2Clean
      ensures state != BootUp ==>
                && unchanged(`epoch, `bootupRevision, `autoReady, `identity, `canConfig, `tpdo2Clean)
                && lifecycle == if old(lifecycle) == Initialized && state != Operational then NeedsReinit
                                else old(lifecycle)
    {
      NoteNmt(state);
      if state.BootUp? {
        bootupRevision := Bump(bootupRevision);
        InvalidateForNewDeviceSession();
      }
      online := true;
      if lifecycle.Initialized? && !state.Operational? {
        lifecycle := NeedsReinit;
      }
      attempt := if lifecycle.Unknown? && autoReady then Some(epoch) else None;
    }

    method MarkAttempted(started: nat)
      modifies this
      ensures State() == Marked(old(State()), started)
      ensures autoReady <==> old(autoReady) && !(old(epoch) == started && old(lifecycle) == Unknown)
      ensures unchanged(`epoch, `nmtRevision, `bootupRevision, `identity, `canConfig, `lifecycle)
      ensures unchanged(`online, `heartbeatSeen, `nmt, `tpdo2Revision, `tpdo2Clean)
    {
      if epoch == started && lifecycle.Unknown? && autoReady {
        autoReady := false;
      }
    }

    method CheckLiveness(seenRecently: bool) returns (wentOffline: bool)
      modifies this
      ensures State() == if seenRecently then old(State()) else WentOffline(old(State()))
      ensures wentOffline <==> old(online) && !seenRecently
      ensures !wentOffline ==> unchanged(this)
      ensures wentOffline ==>
                && !online && nmt == None && nmtRevision == Bump(old(nmtRevision)) && epoch == Bump(old(epoch))
                && autoReady && identity == None && canConfig == Pending && lifecycle == Unknown && !tpdo2Clean
                && unchanged(`bootupRevision, `heartbeatSeen, `tpdo2Revision)
    {
      if !online {
        return false;
      }
      online := seenRecently;
      wentOffline := !online;
      if wentOffline {
        InvalidateForNewDeviceSession();
        nmtRevision := Bump(nmtRevision);
        nmt := None;
      }
    }

    method ReceiveTpdo(tpdo2: bool, clean: bool)
      modifies this
      ensures State() == HeardTpdo(old(State()), tpdo2, clean)
      ensures online && tpdo2Clean == if tpdo2 then clean else old(tpdo2Clean)
      ensures tpdo2Revision == if tpdo2 then Bump(old(tpdo2Revision)) else old(tpdo2Revision)
      ensures unchanged(`epoch, `nmtRevision, `bootupRevision, `autoReady, `identity, `canConfig, `lifecycle)
      ensures unchanged(`heartbeatSeen, `nmt)
    {
      online := true;
      if tpdo2 {
        tpdo2Clean := clean;
        tpdo2Revision := Bump(tpdo2Revision);
      }
    }

    method BeginDeviceCanConfigRead(expectedEpoch: nat, found: Identity) returns (ok: bool)
      modifies this
      ensures ok <==> BegunRead(old(State()), expectedEpoch, found).Some?
      ensures State() == if ok then BegunRead(old(State()), expectedEpoch, found).value else old(State())
      ensures ok <==> old(epoch) == expectedEpoch
      ensures ok ==>
                && identity == Some(found) && canConfig == Pending
                && lifecycle == if old(lifecycle) == Unknown then Identified else old(lifecycle)
      ensures !ok ==> unchanged(this)
      ensures unchanged(`epoch, `nmtRevision, `bootupRevision, `autoReady, `online, `heartbeatSeen, `nmt)
      ensures unchanged(`tpdo2Revision, `tpdo2Clean)
    {
      if epoch != expectedEpoch {
        return false;
      }
      identity := Some(found);
      canConfig := Pending;
      if lifecycle.Unknown? {
        lifecycle := Identified;
      }
      return true;
    }

    method FinishDeviceCanConfigRead(expectedEpoch: nat, status: CanConfig) returns (ok: bool)
      modifies this
      ensures ok <==> FinishedRead(old(State()), expectedEpoch, status).Some?
      ensures State() == if ok then FinishedRead(old(State()), expectedEpoch, status).value else old(State())
      ensures ok <==> old(epoch) == expectedEpoch
      ensures State() == if ok then old(State()).(canConfig := status) else old(State())
    {
      if epoch != expectedEpoch {
        return false;
      }
      canConfig := status;
      return true;
    }

    method EnterInitialize() returns (context: Option<(nat, Identity)>)
      modifies this
      ensures context.Some? <==> EnteredInitialize(old(State())).Some?
      ensures State() == if context.Some? then EnteredInitialize(old(State())).value else old(State())
      ensures context.Some? ==> context.value.0 == epoch && Some(context.value.1) == identity
      ensures context.Some? <==> old(lifecycle) != Initializing && old(identity).Some?
      ensures State() == if context.None? then old(State())
                         else old(State()).(lifecycle := Initializing, tpdo2Clean := false)
    {
      if lifecycle.Initializing? || identity.None? {
        return None;
      }
      lifecycle := Initializing;
      tpdo2Clean := false;
      return Some((epoch, identity.value));
    }

    method CommitInitialize(expectedEpoch: nat, expected: Identity, revision: nat, heartbeatFresh: bool)
      returns (ok: bool)
      modifies this
      ensures ok <==> CommittedInitialize(old(State()), expectedEpoch, expected, revision, heartbeatFresh).Some?
      ensures State()
              == if ok then CommittedInitialize(old(State()), expectedEpoch, expected, revision, heartbeatFresh).value
                         else old(State())
      ensures ok <==>
                && old(epoch) == expectedEpoch && old(identity) == Some(expected) && old(nmtRevision) == revision
                && old(lifecycle) == Initializing && old(online) && old(nmt) == Some(Operational)
                && old(heartbeatSeen) && heartbeatFresh
      ensures State() == if ok then old(State()).(lifecycle := Initialized) else old(State())
    {
      if epoch != expectedEpoch || identity != Some(expected) || !lifecycle.Initializing? || !online
         || nmt != Some(Operational) || nmtRevision != revision || !heartbeatSeen || !heartbeatFresh {
        return false;
      }
      lifecycle := Initialized;
      return true;
    }

    /** Runs when an initialization that has not committed is dropped, for whatever reason. */
    method RollBack()
      modifies this
      ensures State() == RolledBack(old(State()))
      ensures State() == old(State()).(lifecycle := lifecycle)
      ensures old(lifecycle) != Initializing ==> lifecycle == old(lifecycle)
      ensures old(lifecycle) == Initializing ==> lifecycle == if identity == None then Unknown else Identified
    {
      if lifecycle.Initializing? {
        lifecycle := if identity.Some? then Identified else Unknown;
      }
    }

    method CacheAppliedSettings(token: Token, target: SP.Config) returns (ok: bool)
      modifies this
      ensures ok <==> CachedSettings(old(State()), token, target).Some?
      ensures State() == if ok then CachedSettings(old(State()), token, target).value else old(State())
      ensures ok <==>
                && old(online) && old(epoch) == token.epoch && old(nmtRevision) == token.revision
                && old(nmt) == Some(token.nmt)
      ensures State() == if ok then old(State()).(canConfig := Available(target)) else old(State())
    {
      if !online || epoch != token.epoch || nmtRevision != token.revision || nmt != Some(token.nmt) {
        return false;
      }
      canConfig := Available(target);
      return true;
    }
  }
}
