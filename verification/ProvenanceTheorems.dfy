/**
  Where the cached identity and configuration of a node come from, over every
  interleaving: the steps of the run that read or committed them, and the session
  those steps belong to.
 */
module ProvenanceTheorems {
  import opened Wrappers
  import opened SessionEntry
  import opened SessionProtocol
  import opened SessionSafety
  import opened SessionTheorems
  import SP = SettingsPlan

  // ---------------------------------------------------------------------
  // The identification under way
  // ---------------------------------------------------------------------

  function ReaderOfTask(t: Task): Option<Reader> {
    match t
    case Identifying(r) => if r.phase.Fresh? then None else Some(r)
    case Initing(r) => if r.phase.Reidentify? then Some(r.phase.reader) else None
    case _ => None
  }

  /** The identification that is talking to the device, if any. */
  function ReaderOf(s: System): Option<Reader> {
    if |s.tasks| == 1 then ReaderOfTask(s.tasks[0]) else None
  }

  /** A task begins to read: a requested identification, or the one after a communication reset. */
  predicate BeginsReadTask(t: Task) {
    (t.Identifying? && t.reader.phase.Fresh?) || (t.Initing? && t.init.phase.BootWait?)
  }

  predicate BeginsRead(s: System, a: Action) {
    StartsAutomatic(s, a) || (Advances(a) && |s.tasks| == 1 && BeginsReadTask(s.tasks[0]))
  }

  /** The session in which it began or, for the automatic one, in which it was asked for. */
  function SessionRead(s: System, a: Action): nat {
    if a.Spawn? && s.discovery.WantSpawn? then s.discovery.epoch else s.entry.epoch
  }

  /** The device answers the identity read. */
  predicate ReadsIdentity(s: System, a: Action, x: Identity) {
    ReaderOf(s).Some? && ReaderOf(s).value.phase.Reading? && Advances(a) && a.input == GotIdentity(x)
  }

  /** The configuration read ends with this status. */
  predicate ReadsConfig(s: System, a: Action, status: CanConfig) {
    ReaderOf(s).Some? && ReaderOf(s).value.phase.Configuring? && Advances(a) && a.input == GotConfig(status)
  }

  /** The reader, holding an identity of the present session, puts it in the cache. */
  predicate StoresIdentity(s: System, a: Action, x: Identity) {
    ReaderOf(s).Some? && ReaderOf(s).value == Reader(Found(x), s.entry.epoch) && Advances(a)
  }

  predicate StoresConfig(s: System, a: Action, status: CanConfig) {
    ReaderOf(s).Some? && ReaderOf(s).value == Reader(HaveConfig(status), s.entry.epoch) && Advances(a)
  }

  // ---------------------------------------------------------------------
  // What one step does to the reader and to the cache
  // ---------------------------------------------------------------------

  /** A step of a reader goes one phase on, with what the device answered. */
  predicate ReaderMoves(r: Reader, input: Input, r': Reader) {
    && r'.epoch == r.epoch && !r'.phase.Fresh? && !r'.phase.Reading?
    && (r'.phase.Found? ==> r.phase.Reading? && input == GotIdentity(r'.phase.identity))
    && (r'.phase.HaveConfig? ==> r.phase.Configuring? && input == GotConfig(r'.phase.status))
  }

  lemma {:induction false} ReadStepMoves(s: System, r: Reader, input: Input)
    requires !r.phase.Fresh? && ReadStep(s, r, input).result.Continues?
    ensures ReaderMoves(r, input, ReadStep(s, r, input).result.reader)
  {
  }

  lemma {:induction false} InitStepReader(s: System, r: InitRun, input: Input)
    requires ReaderOfTask(InitStep(s, r, input).task).Some?
    ensures var r' := ReaderOfTask(InitStep(s, r, input).task).value;
            if r.phase.Reidentify? then ReadStep(s, r.phase.reader, input).result == Continues(r')
            else r.phase.BootWait? && r' == Reader(Reading, s.entry.epoch)
  {
  }

  lemma {:induction false} TaskStepReader(s: System, t: Task, input: Input)
    requires TaskOk(s.entry, t) && ReaderOfTask(TaskStep(s, t, input).task).Some?
    ensures var r' := ReaderOfTask(TaskStep(s, t, input).task).value;
            if ReaderOfTask(t).Some? then ReaderMoves(ReaderOfTask(t).value, input, r')
            else BeginsReadTask(t) && r' == Reader(Reading, s.entry.epoch)
  {
    match t
    case Identifying(r) => if !r.phase.Fresh? { ReadStepMoves(s, r, input); }
    case Initing(r) =>
      InitStepReader(s, r, input);
      if r.phase.Reidentify? {
        ReadStepMoves(s, r.phase.reader, input);
      }
    case _ =>
  }

  /** Whoever talks to the device after a step began in it, or went on. */
  predicate ReaderStepped(s: System, a: Action, r': Reader) {
    if ReaderOf(s).None? then
      BeginsRead(s, a) && r'.phase.Reading? && r'.epoch == SessionRead(s, a) && r'.epoch <= s.sessions
    else if Advances(a) then ReaderMoves(ReaderOf(s).value, a.input, r')
    else r' == ReaderOf(s).value
  }

  lemma {:induction false} ReaderStep(s: System, a: Action)
    requires Inv(s) && ReaderOf(Next(s, a)).Some?
    ensures ReaderStepped(s, a, ReaderOf(Next(s, a)).value)
  {
    if |s.tasks| == 1 {
      if Advances(a) {
        assert TaskOk(s.entry, s.tasks[0]);
        TaskStepReader(s, s.tasks[0], a.input);
      } else {
        OthersLeaveTask(s, a);
      }
    } else {
      FirstTaskReads(s, a);
    }
  }

  lemma {:induction false} FirstTaskReads(s: System, a: Action)
    requires Inv(s) && |s.tasks| != 1 && ReaderOf(Next(s, a)).Some?
    ensures StartsAutomatic(s, a) && ReaderOf(Next(s, a)).value == Reader(Reading, s.discovery.epoch)
  {
    assert s.tasks == [];
  }

  lemma {:induction false} ReadStepCache(s: System, r: Reader, input: Input)
    ensures var e := ReadStep(s, r, input).entry;
            && (e.identity == s.entry.identity
                || (r.phase.Found? && r.epoch == s.entry.epoch && e.identity == Some(r.phase.identity)))
            && (|| e.canConfig == s.entry.canConfig || e.canConfig.Pending?
                || (r.phase.HaveConfig? && r.epoch == s.entry.epoch && e.canConfig == r.phase.status))
  {
  }

  lemma {:induction false} InitStepCache(s: System, r: InitRun, input: Input)
    requires !r.phase.Reidentify?
    ensures InitStep(s, r, input).entry.identity == s.entry.identity
    ensures InitStep(s, r, input).entry.canConfig == s.entry.canConfig
  {
  }

  lemma {:induction false} SettingsStepCache(s: System, r: SetRun, input: Input)
    ensures var e := SettingsStep(s, r, input).entry;
            && e.identity == s.entry.identity
            && (e.canConfig == s.entry.canConfig
                || (r.phase.Cache? && CachedSettings(s.entry, r.token, r.target).Some?
                    && e.canConfig == Available(r.target)))
  {
  }

  /** The cached values after a step of task t. */
  predicate TaskCaches(s: System, t: Task, input: Input, e: Entry) {
    var r := ReaderOfTask(t);
    && (|| e.identity == s.entry.identity
        || (r.Some? && r.value.phase.Found? && r.value.epoch == s.entry.epoch
            && e.identity == Some(r.value.phase.identity)))
    && (|| e.canConfig == s.entry.canConfig || e.canConfig.Pending?
        || (r.Some? && r.value.phase.HaveConfig? && r.value.epoch == s.entry.epoch
            && e.canConfig == r.value.phase.status)
        || (t.Setting? && t.run.phase.Cache? && !input.Fails?
            && CachedSettings(s.entry, t.run.token, t.run.target).Some?
            && e.canConfig == Available(t.run.target)))
  }

  lemma {:induction false} TaskStepCache(s: System, t: Task, input: Input)
    ensures TaskCaches(s, t, input, TaskStep(s, t, input).entry)
  {
    match t
    case Identifying(r) => ReadStepCache(s, r, input);
    case Setting(r) => SettingsStepCache(s, r, input);
    case Initing(r) =>
      if r.phase.Reidentify? {
        ReadStepCache(s, r.phase.reader, input);
      } else {
        InitStepCache(s, r, input);
      }
    case _ =>
  }

  /** An identity is stored by a reader of this session, or was there in this session already. */
  lemma {:induction false} IdentityStep(s: System, a: Action)
    requires Inv(s) && Room(s) && Next(s, a).entry.identity.Some?
    ensures Next(s, a).sessions == s.sessions
    ensures Next(s, a).entry.identity == s.entry.identity || StoresIdentity(s, a, Next(s, a).entry.identity.value)
  {
    if a.Advance? && a.i < |s.tasks| && !s.tasks[a.i].Leaving? {
      TaskStepCache(s, s.tasks[a.i], a.input);
    }
  }

  /** A configuration that is not Pending is stored, committed, or was there in this session already. */
  lemma {:induction false} ConfigStep(s: System, a: Action)
    requires Inv(s) && Room(s) && !Next(s, a).entry.canConfig.Pending?
    ensures Next(s, a).sessions == s.sessions
    ensures var config := Next(s, a).entry.canConfig;
            || config == s.entry.canConfig || StoresConfig(s, a, config)
            || (CommitsSettings(s, a) && config == Available(s.tasks[0].run.target))
  {
    if a.Advance? && a.i < |s.tasks| && !s.tasks[a.i].Leaving? {
      TaskStepCache(s, s.tasks[a.i], a.input);
    }
  }

  // ---------------------------------------------------------------------
  // The history of an identification
  // ---------------------------------------------------------------------

  ghost predicate ReadsSince(actions: seq<Action>, b: nat, m: nat)
    requires m <= |actions|
  {
    forall k :: b < k <= m ==> ReaderOf(At(actions, k)).Some?
  }

  /** The identification under way at m began at step b. */
  ghost predicate BeganAt(actions: seq<Action>, m: nat, r: Reader, b: nat)
    requires m <= |actions|
  {
    && b < m && BeginsRead(At(actions, b), actions[b]) && ReadsSince(actions, b, m)
    && r.epoch == SessionRead(At(actions, b), actions[b]) && r.epoch <= At(actions, b).sessions
  }

  /** Where an identification began, and where the device answered its two reads. */
  datatype Answers = Answers(begin: nat, identity: nat, config: nat)

  ghost predicate AnsweredAt(actions: seq<Action>, m: nat, r: Reader, h: Answers)
    requires m <= |actions|
  {
    && BeganAt(actions, m, r, h.begin)
    && (r.phase.Found? ==>
         h.begin < h.identity < m && ReadsIdentity(At(actions, h.identity), actions[h.identity], r.phase.identity))
    && (r.phase.HaveConfig? ==>
         h.begin < h.config < m && ReadsConfig(At(actions, h.config), actions[h.config], r.phase.status))
  }

  lemma {:induction false} AnswersGrow(actions: seq<Action>, n: nat, r: Reader, r': Reader, h: Answers)
    returns (h': Answers)
    requires n < |actions| && AnsweredAt(actions, n, r, h)
    requires ReaderOf(At(actions, n)) == Some(r) && ReaderOf(At(actions, n + 1)) == Some(r')
    requires ReaderStepped(At(actions, n), actions[n], r')
    ensures AnsweredAt(actions, n + 1, r', h')
  {
    h' := h;
    if Advances(actions[n]) {
      h' := h.(identity := if r'.phase.Found? then n else h.identity,
               config := if r'.phase.HaveConfig? then n else h.config);
    }
  }

  /** Whatever is read at m, there are steps where the reading began and where the device answered. */
  lemma {:induction false} ReaderHasHistory(actions: seq<Action>, m: nat) returns (h: Answers)
    requires m <= |actions| <= U64_MAX && ReaderOf(At(actions, m)).Some?
    ensures AnsweredAt(actions, m, ReaderOf(At(actions, m)).value, h)
  {
    h := Answers(0, 0, 0);
    if m > 0 {
      var n := m - 1;
      ReaderStepAt(actions, n);
      if ReaderOf(At(actions, n)).None? {
        h := Answers(n, 0, 0);
        AnswersBegin(actions, n, ReaderOf(At(actions, m)).value);
      } else {
        h := ReaderHasHistory(actions, n);
        h := AnswersGrow(actions, n, ReaderOf(At(actions, n)).value, ReaderOf(At(actions, m)).value, h);
      }
    }
  }

  lemma {:induction false} AnswersBegin(actions: seq<Action>, n: nat, r': Reader)
    requires n < |actions| && ReaderOf(At(actions, n)).None? && ReaderOf(At(actions, n + 1)) == Some(r')
    requires ReaderStepped(At(actions, n), actions[n], r')
    ensures AnsweredAt(actions, n + 1, r', Answers(n, 0, 0))
  {
  }

  lemma {:induction false} ReaderStepAt(actions: seq<Action>, n: nat)
    requires n < |actions| <= U64_MAX && ReaderOf(At(actions, n + 1)).Some?
    ensures ReaderStepped(At(actions, n), actions[n], ReaderOf(At(actions, n + 1)).value)
  {
    Step(actions, n);
    ReachableSafe(actions[..n]);
    ReaderStep(At(actions, n), actions[n]);
  }

  // ---------------------------------------------------------------------
  // The cached identity
  // ---------------------------------------------------------------------

  /** An identification began at b, got the identity from the device at g and stored it at w,
      all in the session of m. */
  ghost predicate IdentityReadAt(actions: seq<Action>, m: nat, x: Identity, b: nat, g: nat, w: nat)
    requires m <= |actions|
  {
    && b < g < w < m && OneSession(actions, b, m)
    && BeginsRead(At(actions, b), actions[b]) && ReadsSince(actions, b, w)
    && ReadsIdentity(At(actions, g), actions[g], x) && StoresIdentity(At(actions, w), actions[w], x)
  }

  lemma {:induction false} SessionGoesOn(actions: seq<Action>, b: nat, m: nat)
    requires b <= m < |actions| && OneSession(actions, b, m) && At(actions, m + 1).sessions == At(actions, m).sessions
    ensures OneSession(actions, b, m + 1)
  {
  }

  /** A reader that began in its session or later, and is of the present session, began in the present session. */
  lemma {:induction false} BeganInThisSession(actions: seq<Action>, n: nat, r: Reader, b: nat)
    requires n < |actions| <= U64_MAX && BeganAt(actions, n, r, b) && r.epoch == At(actions, n).entry.epoch
    requires At(actions, n + 1).sessions == At(actions, n).sessions
    ensures OneSession(actions, b, n + 1)
  {
    CountedAt(actions, n);
    CountsGrow(actions, b, n);
    SameSessions(actions, b, n + 1);
  }

  lemma {:induction false} IdentityStoredNow(actions: seq<Action>, n: nat, x: Identity) returns (b: nat, g: nat)
    requires n < |actions| <= U64_MAX && StoresIdentity(At(actions, n), actions[n], x)
    requires At(actions, n + 1).sessions == At(actions, n).sessions
    ensures IdentityReadAt(actions, n + 1, x, b, g, n)
  {
    var h := ReaderHasHistory(actions, n);
    b, g := h.begin, h.identity;
    BeganInThisSession(actions, n, ReaderOf(At(actions, n)).value, b);
  }

  lemma {:induction false} IdentityHasHistory(actions: seq<Action>, m: nat) returns (b: nat, g: nat, w: nat)
    requires m <= |actions| <= U64_MAX && At(actions, m).entry.identity.Some?
    ensures IdentityReadAt(actions, m, At(actions, m).entry.identity.value, b, g, w)
  {
    b, g, w := 0, 0, 0;
    if m > 0 {
      var n, x := m - 1, At(actions, m).entry.identity.value;
      IdentityStepAt(actions, n);
      if StoresIdentity(At(actions, n), actions[n], x) {
        w := n;
        b, g := IdentityStoredNow(actions, n, x);
      } else {
        b, g, w := IdentityHasHistory(actions, n);
        SessionGoesOn(actions, b, n);
      }
    }
  }

  lemma {:induction false} IdentityStepAt(actions: seq<Action>, n: nat)
    requires n < |actions| <= U64_MAX && At(actions, n + 1).entry.identity.Some?
    ensures At(actions, n + 1).sessions == At(actions, n).sessions
    ensures At(actions, n + 1).entry.identity == At(actions, n).entry.identity
            || StoresIdentity(At(actions, n), actions[n], At(actions, n + 1).entry.identity.value)
  {
    Step(actions, n);
    ReachableSafe(actions[..n]);
    IdentityStep(At(actions, n), actions[n]);
  }

  // ---------------------------------------------------------------------
  // The cached configuration
  // ---------------------------------------------------------------------

  ghost predicate ConfigReadAt(actions: seq<Action>, m: nat, status: CanConfig, b: nat, g: nat, w: nat)
    requires m <= |actions|
  {
    && b < g < w < m && OneSession(actions, b, m)
    && BeginsRead(At(actions, b), actions[b]) && ReadsSince(actions, b, w)
    && ReadsConfig(At(actions, g), actions[g], status) && StoresConfig(At(actions, w), actions[w], status)
  }

  predicate InSettings(s: System) {
    |s.tasks| == 1 && s.tasks[0].Setting?
  }

  predicate StartsSettings(s: System, a: Action) {
    !s.busy && a.Start? && a.request.ApplySettings?
  }

  ghost predicate SettingsSince(actions: seq<Action>, i: nat, m: nat)
    requires m <= |actions|
  {
    forall k :: i < k <= m ==> InSettings(At(actions, k))
  }

  /** The transaction under way at m was asked for at step i, and pinned its session, if it has, at step c. */
  ghost predicate RequestedAt(actions: seq<Action>, m: nat, r: SetRun, i: nat, c: nat)
    requires m <= |actions|
  {
    && i < m && StartsSettings(At(actions, i), actions[i]) && SettingsSince(actions, i, m)
    && actions[i].request.target == r.target && actions[i].request.writes == r.writes
    && (!r.phase.Capture? ==> i < c < m && Captures(At(actions, c), actions[c]) && TransactionSince(actions, c, m))
  }

  predicate SettingsStepped(s: System, a: Action, s': System)
    requires InSettings(s')
  {
    if InSettings(s) then
      var r, r' := s.tasks[0].run, s'.tasks[0].run;
      && r'.target == r.target && r'.writes == r.writes
      && (if r.phase.Capture? then !r'.phase.Capture? ==> Captures(s, a) else !r'.phase.Capture?)
    else
      StartsSettings(s, a) && s'.tasks[0] == Begun(a.request)
  }

  lemma {:induction false} SettingsTaskStep(s: System, a: Action)
    requires Exclusive(s) && InSettings(Next(s, a))
    ensures SettingsStepped(s, a, Next(s, a))
  {
    if |s.tasks| == 1 && !Advances(a) {
      OthersLeaveTask(s, a);
    }
  }

  lemma {:induction false} SettingsStepAt(actions: seq<Action>, n: nat)
    requires n < |actions| <= U64_MAX && InSettings(At(actions, n + 1))
    ensures SettingsStepped(At(actions, n), actions[n], At(actions, n + 1))
  {
    Step(actions, n);
    ReachableSafe(actions[..n]);
    SettingsTaskStep(At(actions, n), actions[n]);
  }

  lemma {:induction false} RequestGrows(actions: seq<Action>, n: nat, i: nat, c: nat)
    requires n < |actions| && InSettings(At(actions, n)) && InSettings(At(actions, n + 1))
    requires SettingsStepped(At(actions, n), actions[n], At(actions, n + 1))
    requires RequestedAt(actions, n, At(actions, n).tasks[0].run, i, c)
    ensures RequestedAt(actions, n + 1, At(actions, n + 1).tasks[0].run, i,
                        if At(actions, n).tasks[0].run.phase.Capture? then n else c)
  {
  }

  lemma {:induction false} TransactionHasHistory(actions: seq<Action>, m: nat) returns (i: nat, c: nat)
    requires m <= |actions| <= U64_MAX && InSettings(At(actions, m))
    ensures RequestedAt(actions, m, At(actions, m).tasks[0].run, i, c)
  {
    i, c := 0, 0;
    if m > 0 {
      var n := m - 1;
      SettingsStepAt(actions, n);
      if InSettings(At(actions, n)) {
        i, c := TransactionHasHistory(actions, n);
        RequestGrows(actions, n, i, c);
        c := if At(actions, n).tasks[0].run.phase.Capture? then n else c;
      } else {
        i := n;
      }
    }
  }

  /** A transaction asked for at i, which pinned its session at c and returned Ok at w, all in the session of m. */
  ghost predicate ConfigCommittedAt(actions: seq<Action>, m: nat, target: SP.Config, i: nat, c: nat, w: nat)
    requires m <= |actions|
  {
    && i < c < w < m && OneSession(actions, c, m) && NoChange(actions, c, w)
    && StartsSettings(At(actions, i), actions[i]) && SettingsSince(actions, i, w) && actions[i].request.target == target
    && Captures(At(actions, c), actions[c]) && TransactionSince(actions, c, w)
    && CommitsSettings(At(actions, w), actions[w])
  }

  lemma {:induction false} ConfigStoredNow(actions: seq<Action>, n: nat, status: CanConfig) returns (b: nat, g: nat)
    requires n < |actions| <= U64_MAX && StoresConfig(At(actions, n), actions[n], status)
    requires At(actions, n + 1).sessions == At(actions, n).sessions
    ensures ConfigReadAt(actions, n + 1, status, b, g, n)
  {
    var h := ReaderHasHistory(actions, n);
    b, g := h.begin, h.config;
    BeganInThisSession(actions, n, ReaderOf(At(actions, n)).value, b);
  }

  lemma {:induction false} ConfigCommittedNow(actions: seq<Action>, n: nat) returns (i: nat, c: nat)
    requires n < |actions| <= U64_MAX && CommitsSettings(At(actions, n), actions[n])
    requires At(actions, n + 1).sessions == At(actions, n).sessions
    ensures ConfigCommittedAt(actions, n + 1, At(actions, n).tasks[0].run.target, i, c, n)
  {
    i, c := TransactionHasHistory(actions, n);
    MarksPersist(actions, c, n);
    CountedAt(actions, n);
    CountedAt(actions, c);
    CommitFindsMarks(At(actions, n), actions[n]);
    SameSessions(actions, c, n + 1);
    forall k | c <= k <= n
      ensures !IsChange(At(actions, k), actions[k])
    {
      SettingsAreAbaFree(actions, c, n, k);
    }
  }

  /** The configuration was read, or committed, in the session of m. */
  ghost predicate ConfigSourced(actions: seq<Action>, m: nat, config: CanConfig)
    requires m <= |actions|
  {
    || (exists b, g, w :: ConfigReadAt(actions, m, config, b, g, w))
    || (config.Available? && exists i, c, w :: ConfigCommittedAt(actions, m, config.config, i, c, w))
  }

  lemma {:induction false} SourceGoesOn(actions: seq<Action>, n: nat, config: CanConfig)
    requires n < |actions| && ConfigSourced(actions, n, config)
    requires At(actions, n + 1).sessions == At(actions, n).sessions
    ensures ConfigSourced(actions, n + 1, config)
  {
    if b, g, w :| ConfigReadAt(actions, n, config, b, g, w) {
      SessionGoesOn(actions, b, n);
      assert ConfigReadAt(actions, n + 1, config, b, g, w);
    } else {
      var i, c, w :| ConfigCommittedAt(actions, n, config.config, i, c, w);
      SessionGoesOn(actions, c, n);
      assert ConfigCommittedAt(actions, n + 1, config.config, i, c, w);
    }
  }

  lemma {:induction false} ConfigStepAt(actions: seq<Action>, n: nat)
    requires n < |actions| <= U64_MAX && !At(actions, n + 1).entry.canConfig.Pending?
    ensures At(actions, n + 1).sessions == At(actions, n).sessions
    ensures var s, config := At(actions, n), At(actions, n + 1).entry.canConfig;
            || config == s.entry.canConfig || StoresConfig(s, actions[n], config)
            || (CommitsSettings(s, actions[n]) && config == Available(s.tasks[0].run.target))
  {
    Step(actions, n);
    ReachableSafe(actions[..n]);
    ConfigStep(At(actions, n), actions[n]);
  }

  lemma {:induction false} ConfigHasSource(actions: seq<Action>, m: nat)
    requires m <= |actions| <= U64_MAX && !At(actions, m).entry.canConfig.Pending?
    ensures ConfigSourced(actions, m, At(actions, m).entry.canConfig)
  {
    if m > 0 {
      var n, config := m - 1, At(actions, m).entry.canConfig;
      ConfigStepAt(actions, n);
      if StoresConfig(At(actions, n), actions[n], config) {
        var b, g := ConfigStoredNow(actions, n, config);
      } else if CommitsSettings(At(actions, n), actions[n]) && config == Available(At(actions, n).tasks[0].run.target) {
        var i, c := ConfigCommittedNow(actions, n);
      } else {
        ConfigHasSource(actions, n);
        SourceGoesOn(actions, n, config);
      }
    }
  }

  /**
    On every interleaving, whatever stale tasks complete, at every moment m. A
    cached identity was read wholly within the session of m: an identification
    began, then the device answered with this identity, then it was stored, and no
    session started since it began. A cached configuration is Pending, or was read
    and stored so, or is the target of a settings transaction that pinned its
    session and returned Ok in the session of m, with no Boot-Up, offline edge or
    change of NMT state in between.
   */
  lemma {:induction false} CachedDataIsCurrent(actions: seq<Action>, m: nat)
    requires m <= |actions| <= U64_MAX
    ensures var e := At(actions, m).entry;
            && (e.identity.Some? ==> exists b, g, w :: IdentityReadAt(actions, m, e.identity.value, b, g, w))
            && (e.canConfig.Pending? || ConfigSourced(actions, m, e.canConfig))
  {
    if At(actions, m).entry.identity.Some? {
      var b, g, w := IdentityHasHistory(actions, m);
    }
    if !At(actions, m).entry.canConfig.Pending? {
      ConfigHasSource(actions, m);
    }
  }
}
