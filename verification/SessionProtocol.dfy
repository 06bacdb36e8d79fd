/**
  Everything that runs beside one node of the CiA 402 manager: heartbeats, TPDOs
  and liveness ticks, automatic and requested identification, initialization with
  its communication reset, and settings transactions. Each locked region of the
  source is one atomic step; a task may fail or be cancelled at any step.

  `sessions` and `nmtChanges` count, without wrapping, what the u64 counters of
  the entry count.
 */
module SessionProtocol {
  import opened Wrappers
  import opened SessionEntry
  import SP = SettingsPlan

  // ---------------------------------------------------------------------
  // Tasks
  // ---------------------------------------------------------------------

  datatype ReadPhase = Fresh | Reading | Found(identity: Identity) | Configuring | HaveConfig(status: CanConfig)

  /** One identification: how far it got, and the session it belongs to. */
  datatype Reader = Reader(phase: ReadPhase, epoch: nat)

  datatype Observation = Observation(fault: bool, code: nat)

  datatype InitPhase =
    | Admit | Enter | Configure | Fence | Attempt | Converge(baseline: nat) | Commit | Exhausted | Unwind
    | ResetReady | ResetSend(bootup: nat) | BootWait(bootup: nat) | Reidentify(reader: Reader)

  /** One call of initialize, with at most two passes of run_initialize. */
  datatype InitRun = InitRun(
    phase: InitPhase, second: bool, sticky: bool, firstEpoch: nat, expected: Identity, epoch: nat, identity: Identity,
    revision: nat, attempts: nat, tried: nat, last: Option<Observation>)

  datatype SetPhase = Capture | Prepare | Before(i: nat) | Cleared(i: nat) | Issued(i: nat) | Cache

  datatype SetRun = SetRun(phase: SetPhase, token: Token, writes: nat, target: SP.Config)

  datatype Task = Other | Leaving | Identifying(reader: Reader) | Setting(run: SetRun) | Initing(init: InitRun)

  /** Discovery handles one heartbeat at a time, in up to three locked regions. */
  datatype Discovery = Idle | WantSpawn(epoch: nat) | WantMark(epoch: nat)

  datatype System = System(
    entry: Entry, busy: bool, tasks: seq<Task>, discovery: Discovery, sessions: nat, nmtChanges: nat)

  const INITIAL: System := System(NEW_ENTRY, false, [], Idle, 0, 0)

  /** What the bus and the clock answer to the step a task takes. */
  datatype Input = Nothing | Fails | GotIdentity(identity: Identity) | GotConfig(status: CanConfig)
                 | Observed(observation: Option<Observation>) | Waits(ok: bool)

  datatype Request = AnyOther | Identify | Initialize(attempts: nat) | ApplySettings(writes: nat, target: SP.Config)

  datatype Action =
    | Heartbeat(state: Nmt) | Spawn | Mark | Liveness(silent: bool) | Tpdo(tpdo2: bool, clean: bool)
    | Start(request: Request) | Advance(i: nat, input: Input)

  // ---------------------------------------------------------------------
  // Steps of one task
  // ---------------------------------------------------------------------

  datatype Effect = Effect(entry: Entry, task: Task)

  function Unchanged(s: System, t: Task): Effect {
    Effect(s.entry, t)
  }

  /** Dropping a task: an initialization inside run_initialize rolls back first. */
  function Dropped(t: Task): Task {
    if t.Initing? && Armed(t.init) then Initing(t.init.(phase := Unwind, sticky := false)) else Leaving
  }

  predicate Armed(r: InitRun) {
    r.phase.Configure? || r.phase.Fence? || r.phase.Attempt? || r.phase.Converge? || r.phase.Commit?
    || r.phase.Exhausted?
    || r.phase.Unwind?
  }

  datatype ReadResult = Continues(reader: Reader) | Finished | Abandoned

  datatype ReadEffect = ReadEffect(entry: Entry, result: ReadResult)

  function ReadStep(s: System, r: Reader, input: Input): ReadEffect {
    var same := ReadEffect(s.entry, Abandoned);
    match r.phase
    case Fresh => same.(result := Continues(Reader(Reading, s.entry.epoch)))
    case Reading => if input.GotIdentity? then same.(result := Continues(r.(phase := Found(input.identity)))) else same
    case Found(identity) =>
      var begun := BegunRead(s.entry, r.epoch, identity);
      if begun.None? then same else ReadEffect(begun.value, Continues(r.(phase := Configuring)))
    case Configuring =>
      if input.GotConfig? then same.(result := Continues(r.(phase := HaveConfig(input.status)))) else same
    case HaveConfig(status) =>
      var finished := FinishedRead(s.entry, r.epoch, status);
      if finished.None? then same else ReadEffect(finished.value, Finished)
  }

  function IdentifyStep(s: System, r: Reader, input: Input): Effect {
    var step := ReadStep(s, r, input);
    Effect(step.entry, if step.result.Continues? then Identifying(step.result.reader) else Leaving)
  }

  function SettingsStep(s: System, r: SetRun, input: Input): Effect {
    match r.phase
    case Capture =>
      var token := CapturedSession(s.entry);
      if token.None? then Unchanged(s, Leaving)
      else Unchanged(s, Setting(r.(phase := Prepare, token := token.value)))
    case Prepare => Unchanged(s, if SessionHolds(s.entry, r.token) then Setting(r.(phase := Before(0))) else Leaving)
    case Before(i) =>
      Unchanged(s, if !SessionHolds(s.entry, r.token) then Leaving
                   else Setting(r.(phase := if i < r.writes then Cleared(i) else Cache)))
    case Cleared(i) => Unchanged(s, Setting(r.(phase := Issued(i))))
    case Issued(i) =>
      Unchanged(s, if SessionHolds(s.entry, r.token) then Setting(r.(phase := Before(i + 1))) else Leaving)
    case Cache =>
      var cached := CachedSettings(s.entry, r.token, r.target);
      if cached.None? then Unchanged(s, Leaving)
      else Effect(cached.value, Leaving)
  }

  predicate Clean(o: Observation) {
    !o.fault && o.code == 0
  }

  /** The one observation that warrants a communication reset. */
  predicate Sticky(o: Option<Observation>) {
    o == Some(Observation(false, 0x8130))
  }

  /** After an attempt that did not clear the fault. */
  function NextAttempt(r: InitRun): InitRun {
    r.(phase := if r.tried < r.attempts then Attempt else Exhausted)
  }

  function InitStep(s: System, r: InitRun, input: Input): Effect {
    var e := s.entry;
    match r.phase
    case Admit =>
      if e.lifecycle.Unknown? || e.identity.None? then Unchanged(s, Leaving)
      else Unchanged(s, Initing(r.(phase := Enter, firstEpoch := e.epoch, expected := e.identity.value)))
    case Enter =>
      var entered := EnteredInitialize(e);
      if entered.None? then Unchanged(s, Leaving)
      else Effect(entered.value,
                  Initing(r.(phase := Configure, epoch := e.epoch, identity := e.identity.value,
                             tried := 0, last := None,
                             sticky := false)))
    case Configure => Unchanged(s, if e.nmt == Some(Operational) then Initing(r.(phase := Fence)) else Initing(r))
    case Fence =>
      Unchanged(s, if ContextHolds(e, r.epoch, r.identity, None, true)
                   then Initing(r.(phase := Attempt, revision := e.nmtRevision))
                   else Dropped(Initing(r)))
    case Attempt =>
      if !input.Observed? then Unchanged(s, Dropped(Initing(r)))
      else
        var r' := r.(tried := r.tried + 1, last := input.observation);
        Unchanged(s, Initing(if input.observation.Some? && Clean(input.observation.value)
                             then r'.(phase := Converge(e.tpdo2Revision)) else NextAttempt(r')))
    case Converge(baseline) =>
      if input == Waits(true) then
        Unchanged(s, Initing(if FreshAndClean(e, baseline) then r.(phase := Commit) else r))
      else Unchanged(s, Initing(NextAttempt(r)))
    case Commit =>
      var committed := CommittedInitialize(e, r.epoch, r.identity, r.revision, input == Waits(true));
      if committed.None? then Unchanged(s, Dropped(Initing(r)))
      else Effect(committed.value, Leaving)
    case Exhausted =>
      Unchanged(s, if Sticky(r.last) && ContextHolds(e, r.epoch, r.identity, Some(r.revision), input == Waits(true))
                   then Initing(r.(phase := Unwind, sticky := true)) else Dropped(Initing(r)))
    case Unwind => Effect(RolledBack(e), if r.sticky && !r.second then Initing(r.(phase := ResetReady)) else Leaving)
    case ResetReady =>
      Unchanged(s, if e.epoch == r.firstEpoch && e.identity.Some? && e.identity.value.stable == r.expected.stable
                   then Initing(r.(phase := ResetSend(e.bootupRevision))) else Leaving)
    case ResetSend(bootup) => Unchanged(s, Initing(r.(phase := BootWait(bootup))))
    case BootWait(bootup) =>
      Unchanged(s, if e.bootupRevision != bootup && e.epoch != r.firstEpoch && e.online && e.nmt == Some(PreOperational)
                   then Initing(r.(phase := Reidentify(Reader(Reading, e.epoch)))) else Initing(r))
    case Reidentify(reader) =>
      if reader.phase.Found? && reader.phase.identity.stable != r.expected.stable then Unchanged(s, Leaving)
      else
        var step := ReadStep(s, reader, input);
        Effect(step.entry,
               match step.result
               case Continues(reader') => Initing(r.(phase := Reidentify(reader')))
               case Finished => Initing(r.(phase := Enter, second := true))
               case Abandoned => Leaving)
  }

  function TaskStep(s: System, t: Task, input: Input): Effect {
    if input.Fails? && !(t.Initing? && t.init.phase.Unwind?) then Unchanged(s, Dropped(t))
    else
      match t
      case Other => Unchanged(s, Leaving)
      case Leaving => Unchanged(s, Leaving)
      case Identifying(r) => IdentifyStep(s, r, input)
      case Setting(r) => SettingsStep(s, r, input)
      case Initing(r) => InitStep(s, r, input)
  }

  // ---------------------------------------------------------------------
  // Steps of the system
  // ---------------------------------------------------------------------

  const NO_TOKEN: Token := Token(0, 0, BootUp)

  /** At least one attempt is made. */
  function Attempts(configured: nat): nat {
    if configured == 0 then 1 else configured
  }

  function Begun(request: Request): Task {
    match request
    case AnyOther => Other
    case Identify => Identifying(Reader(Fresh, 0))
    case ApplySettings(writes, target) => Setting(SetRun(Capture, NO_TOKEN, writes, target))
    case Initialize(attempts) =>
      Initing(InitRun(Admit, false, false, 0, Identity(0, 0), 0, Identity(0, 0), 0, Attempts(attempts), 0, None))
  }

  function Next(s: System, a: Action): System {
    match a
    case Heartbeat(state) =>
      if !s.discovery.Idle? then s
      else
        var e := HeardHeartbeat(s.entry, state);
        s.(entry := e, sessions := if state.BootUp? then s.sessions + 1 else s.sessions,
           nmtChanges := if s.entry.nmt == Some(state) then s.nmtChanges else s.nmtChanges + 1,
           discovery := if WantsIdentify(e) then WantSpawn(e.epoch) else Idle)
    case Spawn =>
      if !s.discovery.WantSpawn? then s
      else if s.busy then s.(discovery := Idle)
      else
        s.(busy := true, tasks := s.tasks + [Identifying(Reader(Reading, s.discovery.epoch))],
           discovery := WantMark(s.discovery.epoch))
    case Mark =>
      if !s.discovery.WantMark? then s else s.(entry := Marked(s.entry, s.discovery.epoch), discovery := Idle)
    case Liveness(silent) =>
      if !silent || !s.entry.online then s
      else s.(entry := WentOffline(s.entry), sessions := s.sessions + 1, nmtChanges := s.nmtChanges + 1)
    case Tpdo(tpdo2, clean) => s.(entry := HeardTpdo(s.entry, tpdo2, clean))
    case Start(request) => if s.busy then s else s.(busy := true, tasks := s.tasks + [Begun(request)])
    case Advance(i, input) =>
      if i >= |s.tasks| then s
      else if s.tasks[i].Leaving? then s.(busy := false, tasks := s.tasks[..i] + s.tasks[i + 1..])
      else
        var effect := TaskStep(s, s.tasks[i], input);
        s.(entry := effect.entry, tasks := s.tasks[i := effect.task])
  }

  function Run(actions: seq<Action>): System {
    if actions == [] then INITIAL else Next(Run(actions[..|actions| - 1]), actions[|actions| - 1])
  }

  // ---------------------------------------------------------------------
  // Invariants
  // ---------------------------------------------------------------------

  /** A node has an identity exactly when it is not Unknown, and Initialized means online and Operational. */
  predicate LifecycleOk(e: Entry) {
    && (e.identity.Some? <==> !e.lifecycle.Unknown?)
    && (e.lifecycle.Initialized? ==> e.online && e.nmt == Some(Operational) && e.identity.Some?)
  }

  /** The counters of the entry count what happened; every Boot-Up starts a session. */
  predicate Counted(s: System) {
    s.entry.epoch == s.sessions && s.entry.nmtRevision == s.nmtChanges && s.entry.bootupRevision <= s.sessions
  }

  predicate Exclusive(s: System) {
    |s.tasks| == if s.busy then 1 else 0
  }

  /** Initializing is never left behind: a task that will commit or roll back is still running. */
  predicate Attended(s: System) {
    s.entry.lifecycle.Initializing? ==> |s.tasks| == 1 && s.tasks[0].Initing? && Armed(s.tasks[0].init)
  }

  predicate InitRunOk(r: InitRun) {
    && r.attempts >= 1
    && (r.phase.Configure? || r.phase.Fence? ==> r.tried == 0)
    && (r.phase.Attempt? ==> r.tried < r.attempts)
    && (r.phase.Converge? || r.phase.Exhausted? ==> 0 < r.tried <= r.attempts)
    && (r.phase.Exhausted? ==> r.tried == r.attempts)
    && (r.phase.Converge? || r.phase.Commit? ==> r.last.Some? && Clean(r.last.value))
    && ((r.phase.Unwind? && r.sticky) || r.phase.ResetReady? || r.phase.ResetSend? ==>
          Sticky(r.last) && r.tried == r.attempts)
    && (r.phase.ResetReady? || r.phase.ResetSend? || r.phase.BootWait? || r.phase.Reidentify? ==> !r.second)
    && (r.phase.Reidentify? ==> !r.phase.reader.phase.Fresh?)
  }

  /** While a call runs, the node is unidentified or the device the call found at its admission. */
  predicate SameDevice(e: Entry, r: InitRun) {
    !r.phase.Admit? && e.identity.Some? ==> e.identity.value.stable == r.expected.stable
  }

  predicate TaskOk(e: Entry, t: Task) {
    t.Initing? ==> InitRunOk(t.init) && SameDevice(e, t.init)
  }

  ghost predicate TasksOk(s: System) {
    forall i :: 0 <= i < |s.tasks| ==> TaskOk(s.entry, s.tasks[i])
  }

  /** Discovery works on the present session or on an earlier one. */
  predicate DiscoveryOk(s: System) {
    !s.discovery.Idle? ==> s.discovery.epoch <= s.sessions
  }

  ghost predicate Inv(s: System) {
    LifecycleOk(s.entry) && Counted(s) && Exclusive(s) && Attended(s) && TasksOk(s) && DiscoveryOk(s)
  }

  /** The u64 counters have room for one more change. */
  predicate Room(s: System) {
    s.sessions < U64_MAX && s.nmtChanges < U64_MAX
  }
}
