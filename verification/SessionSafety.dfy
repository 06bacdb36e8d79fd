/**
  Safety of the session protocol over every interleaving: the invariants of
  SessionProtocol hold in every reachable state.
 */
module SessionSafety {
  import opened Wrappers
  import opened SessionEntry
  import opened SessionProtocol

  /** What a task finds when it takes a step. */
  predicate Ready(s: System, t: Task) {
    && LifecycleOk(s.entry) && Counted(s) && TaskOk(s.entry, t)
    && (s.entry.lifecycle.Initializing? ==> t.Initing? && Armed(t.init))
  }

  /** What it leaves. */
  predicate Kept(s: System, f: Effect) {
    && LifecycleOk(f.entry) && SameCounters(s.entry, f.entry) && TaskOk(f.entry, f.task)
    && (f.entry.lifecycle.Initializing? ==> f.task.Initing? && Armed(f.task.init))
    && (WantsIdentify(f.entry) ==> WantsIdentify(s.entry))
  }

  predicate SameCounters(e: Entry, e': Entry) {
    e'.epoch == e.epoch && e'.nmtRevision == e.nmtRevision && e'.bootupRevision == e.bootupRevision
  }

  lemma {:induction false} DroppedKept(s: System, t: Task)
    requires Ready(s, t)
    ensures Kept(s, Unchanged(s, Dropped(t)))
  {
  }

  /** The identity is as before, or the one the reader has found. */
  predicate ReadKept(s: System, r: Reader, f: ReadEffect) {
    && LifecycleOk(f.entry) && SameCounters(s.entry, f.entry)
    && f.entry.lifecycle.Initializing? == s.entry.lifecycle.Initializing?
    && (f.entry.identity == s.entry.identity || (r.phase.Found? && f.entry.identity == Some(r.phase.identity)))
    && (f.result.Continues? ==> !f.result.reader.phase.Fresh?)
    && (WantsIdentify(f.entry) ==> WantsIdentify(s.entry))
  }

  lemma {:induction false} ReadStepKept(s: System, r: Reader, input: Input)
    requires LifecycleOk(s.entry)
    ensures ReadKept(s, r, ReadStep(s, r, input))
  {
  }

  lemma {:induction false} SettingsStepKept(s: System, r: SetRun, input: Input)
    requires Ready(s, Setting(r))
    ensures Kept(s, SettingsStep(s, r, input))
  {
  }

  lemma {:induction false} EnterKept(s: System, r: InitRun, input: Input)
    requires Ready(s, Initing(r)) && (r.phase.Admit? || r.phase.Enter? || r.phase.Configure? || r.phase.Fence?)
    ensures Kept(s, InitStep(s, r, input))
  {
  }

  lemma {:induction false} AttemptKept(s: System, r: InitRun, input: Input)
    requires Ready(s, Initing(r)) && (r.phase.Attempt? || r.phase.Converge? || r.phase.Exhausted?)
    ensures Kept(s, InitStep(s, r, input))
  {
  }

  lemma {:induction false} CommitKept(s: System, r: InitRun, input: Input)
    requires Ready(s, Initing(r)) && (r.phase.Commit? || r.phase.Unwind?)
    ensures Kept(s, InitStep(s, r, input))
  {
  }

  lemma {:induction false} ResetKept(s: System, r: InitRun, input: Input)
    requires Ready(s, Initing(r)) && (r.phase.ResetReady? || r.phase.ResetSend? || r.phase.BootWait?)
    ensures Kept(s, InitStep(s, r, input))
  {
  }

  lemma {:induction false} ReidentifyKept(s: System, r: InitRun, input: Input)
    requires Ready(s, Initing(r)) && r.phase.Reidentify?
    ensures Kept(s, InitStep(s, r, input))
  {
    ReadStepKept(s, r.phase.reader, input);
  }

  lemma {:induction false} InitStepKept(s: System, r: InitRun, input: Input)
    requires Ready(s, Initing(r))
    ensures Kept(s, InitStep(s, r, input))
  {
    match r.phase
    case Admit => EnterKept(s, r, input);
    case Enter => EnterKept(s, r, input);
    case Configure => EnterKept(s, r, input);
    case Fence => EnterKept(s, r, input);
    case Attempt => AttemptKept(s, r, input);
    case Converge(_) => AttemptKept(s, r, input);
    case Exhausted => AttemptKept(s, r, input);
    case Commit => CommitKept(s, r, input);
    case Unwind => CommitKept(s, r, input);
    case ResetReady => ResetKept(s, r, input);
    case ResetSend(_) => ResetKept(s, r, input);
    case BootWait(_) => ResetKept(s, r, input);
    case Reidentify(_) => ReidentifyKept(s, r, input);
  }

  lemma {:induction false} TaskStepKept(s: System, t: Task, input: Input)
    requires Ready(s, t)
    ensures Kept(s, TaskStep(s, t, input))
  {
    if input.Fails? && !(t.Initing? && t.init.phase.Unwind?) {
      DroppedKept(s, t);
    } else {
      match t
      case Other =>
      case Leaving =>
      case Identifying(r) => ReadStepKept(s, r, input);
      case Setting(r) => SettingsStepKept(s, r, input);
      case Initing(r) => InitStepKept(s, r, input);
    }
  }

  // ---------------------------------------------------------------------
  // Steps of the system
  // ---------------------------------------------------------------------

  /** What the environment does to the entry: it may forget the identity, but learns none. */
  predicate Disturbed(s: System, s': System) {
    && LifecycleOk(s'.entry) && Counted(s')
    && s.sessions <= s'.sessions <= s.sessions + 1 && s.nmtChanges <= s'.nmtChanges <= s.nmtChanges + 1
    && (s'.entry.lifecycle.Initializing? ==> s.entry.lifecycle.Initializing?)
    && (s'.entry.identity.Some? ==> s'.entry.identity == s.entry.identity)
    && (s'.sessions == s.sessions && WantsIdentify(s'.entry) ==> WantsIdentify(s.entry))
    && s'.tasks == s.tasks && s'.busy == s.busy
  }

  lemma {:induction false} HeartbeatDisturbs(s: System, state: Nmt)
    requires LifecycleOk(s.entry) && Counted(s) && Room(s) && s.discovery.Idle?
    ensures Disturbed(s, Next(s, Heartbeat(state))) && DiscoveryOk(Next(s, Heartbeat(state)))
  {
  }

  lemma {:induction false} LivenessDisturbs(s: System, silent: bool)
    requires LifecycleOk(s.entry) && Counted(s) && Room(s)
    ensures Disturbed(s, Next(s, Liveness(silent)))
  {
  }

  lemma {:induction false} TpdoDisturbs(s: System, tpdo2: bool, clean: bool)
    requires LifecycleOk(s.entry) && Counted(s)
    ensures Disturbed(s, Next(s, Tpdo(tpdo2, clean)))
  {
  }

  lemma {:induction false} MarkDisturbs(s: System)
    requires LifecycleOk(s.entry) && Counted(s)
    ensures Disturbed(s, Next(s, Mark))
  {
  }

  lemma {:induction false} DisturbedKeeps(s: System, s': System)
    requires Inv(s) && Disturbed(s, s') && DiscoveryOk(s')
    ensures Inv(s')
  {
    forall i | 0 <= i < |s'.tasks|
      ensures TaskOk(s'.entry, s'.tasks[i])
    {
      assert TaskOk(s.entry, s.tasks[i]);
    }
  }

  lemma {:induction false} SpawnKeeps(s: System)
    requires Inv(s) && s.discovery.WantSpawn?
    ensures Inv(Next(s, Spawn))
  {
    if s.busy {
      DisturbedKeeps(s, Next(s, Spawn));
    } else {
      assert s.tasks == [];
    }
  }

  lemma {:induction false} StartKeeps(s: System, request: Request)
    requires Inv(s)
    ensures Inv(Next(s, Start(request)))
  {
    if !s.busy {
      assert s.tasks == [];
      assert TaskOk(s.entry, Begun(request));
    }
  }

  lemma {:induction false} LeaveKeeps(s: System, i: nat, input: Input)
    requires Inv(s) && i < |s.tasks| && s.tasks[i].Leaving?
    ensures Inv(Next(s, Advance(i, input)))
  {
    assert Next(s, Advance(i, input)).tasks == [];
  }

  lemma {:induction false} AdvanceKeeps(s: System, i: nat, input: Input)
    requires Inv(s) && i < |s.tasks| && !s.tasks[i].Leaving?
    ensures Inv(Next(s, Advance(i, input)))
  {
    var t := s.tasks[i];
    assert i == 0 && TaskOk(s.entry, t);
    TaskStepKept(s, t, input);
    AdvanceKeepsRest(s, input, TaskStep(s, t, input));
  }

  lemma {:induction false} AdvanceKeepsRest(s: System, input: Input, f: Effect)
    requires Inv(s) && |s.tasks| == 1 && Kept(s, f)
    ensures Inv(s.(entry := f.entry, tasks := s.tasks[0 := f.task]))
  {
  }

  /** One step of anything keeps every invariant. */
  lemma {:induction false} NextKeeps(s: System, a: Action)
    requires Inv(s) && Room(s)
    ensures Inv(Next(s, a))
    ensures Next(s, a).sessions <= s.sessions + 1 && Next(s, a).nmtChanges <= s.nmtChanges + 1
  {
    match a
    case Heartbeat(state) =>
      if s.discovery.Idle? {
        HeartbeatDisturbs(s, state);
        DisturbedKeeps(s, Next(s, a));
      }
    case Spawn => if s.discovery.WantSpawn? { SpawnKeeps(s); }
    case Mark =>
      MarkDisturbs(s);
      DisturbedKeeps(s, Next(s, a));
    case Liveness(silent) =>
      LivenessDisturbs(s, silent);
      DisturbedKeeps(s, Next(s, a));
    case Tpdo(tpdo2, clean) =>
      TpdoDisturbs(s, tpdo2, clean);
      DisturbedKeeps(s, Next(s, a));
    case Start(request) => StartKeeps(s, request);
    case Advance(i, input) =>
      if i < |s.tasks| {
        if s.tasks[i].Leaving? {
          LeaveKeeps(s, i, input);
        } else {
          AdvanceKeeps(s, i, input);
        }
      }
  }

  /** Every state any interleaving can reach, short of 2^64 changes, satisfies all invariants. */
  lemma {:induction false} ReachableSafe(actions: seq<Action>)
    requires |actions| <= U64_MAX
    ensures Inv(Run(actions)) && Run(actions).sessions <= |actions| && Run(actions).nmtChanges <= |actions|
  {
    if actions != [] {
      ReachableSafe(actions[..|actions| - 1]);
      NextKeeps(Run(actions[..|actions| - 1]), actions[|actions| - 1]);
    }
  }
}
