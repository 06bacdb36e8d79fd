/**
  From every reachable state an operation that the bus, the device and the other
  tasks leave alone runs to its end: identification, initialization, also after
  failed attempts and through the communication reset, and settings transactions.
 */
module ProgressTheorems {
  import opened Wrappers
  import opened SessionEntry
  import opened SessionProtocol
  import opened SessionSafety
  import SP = SettingsPlan

  // ---------------------------------------------------------------------
  // Schedules
  // ---------------------------------------------------------------------

  function After(s: System, actions: seq<Action>): System
    decreases |actions|
  {
    if actions == [] then s else After(Next(s, actions[0]), actions[1..])
  }

  lemma {:induction false} AfterConcat(s: System, a: seq<Action>, b: seq<Action>)
    ensures After(s, a + b) == After(After(s, a), b)
    decreases |a|
  {
    if a == [] {
      assert a + b == b;
    } else {
      assert (a + b)[1..] == a[1..] + b;
      AfterConcat(Next(s, a[0]), a[1..], b);
    }
  }

  lemma {:induction false} AfterOne(s: System, a: Action)
    ensures After(s, [a]) == Next(s, a)
  {
    assert [a][1..] == [];
  }

  lemma {:induction false} AfterTwo(s: System, a: Action, b: Action)
    ensures After(s, [a, b]) == Next(Next(s, a), b)
  {
    assert [a, b][1..] == [b];
    AfterOne(Next(s, a), b);
  }

  lemma {:induction false} AfterThree(s: System, a: Action, b: Action, c: Action)
    ensures After(s, [a, b, c]) == Next(Next(Next(s, a), b), c)
  {
    assert [a, b, c][1..] == [b, c];
    AfterTwo(Next(s, a), b, c);
  }

  lemma {:induction false} RunAfter(actions: seq<Action>, more: seq<Action>)
    ensures Run(actions + more) == After(Run(actions), more)
    decreases |more|
  {
    if more == [] {
      assert actions + more == actions;
    } else {
      var first := actions + [more[0]];
      assert first[..|first| - 1] == actions;
      assert actions + more == first + more[1..];
      RunAfter(first, more[1..]);
    }
  }

  /** The running task takes a step with the given answer. */
  function Go(input: Input): Action {
    Advance(0, input)
  }

  // ---------------------------------------------------------------------
  // One pass of an initialization
  // ---------------------------------------------------------------------

  predicate Running(s: System, t: Task) {
    s.busy && s.tasks == [t] && s.discovery == Idle
  }

  /** The pass is under way, in the context it entered and fenced. */
  predicate Holding(s: System, r: InitRun) {
    && Running(s, Initing(r)) && s.entry.epoch == r.epoch && s.entry.identity == Some(r.identity)
    && s.entry.lifecycle == Initializing && s.entry.online && s.entry.nmt == Some(Operational)
    && s.entry.nmtRevision == r.revision && s.entry.heartbeatSeen
  }

  /** What a pass keeps of the entry it found. */
  predicate SameNode(e: Entry, e': Entry) {
    && e'.epoch == e.epoch && e'.identity == e.identity && e'.canConfig == e.canConfig
    && e'.bootupRevision == e.bootupRevision
  }

  lemma {:induction false} EntersConfigures(s: System, r: InitRun)
    returns (s': System, r': InitRun)
    requires Running(s, Initing(r)) && r.phase == Enter && s.entry.identity.Some?
    requires s.entry.lifecycle != Initializing
    ensures s' == Next(Next(Next(s, Go(Nothing)), Heartbeat(PreOperational)), Heartbeat(Operational))
    ensures Running(s', Initing(r')) && SameNode(s.entry, s'.entry) && r'.phase == Configure
    ensures r' == r.(phase := Configure, epoch := s.entry.epoch, identity := s.entry.identity.value, tried := 0,
                     last := None, sticky := false)
    ensures s'.entry.lifecycle == Initializing && s'.entry.online && s'.entry.nmt == Some(Operational)
    ensures s'.entry.heartbeatSeen
  {
    r' := r.(phase := Configure, epoch := s.entry.epoch, identity := s.entry.identity.value, tried := 0,
             last := None, sticky := false);
    s' := Next(Next(Next(s, Go(Nothing)), Heartbeat(PreOperational)), Heartbeat(Operational));
  }

  lemma {:induction false} ConfiguresFences(s: System, r: InitRun) returns (s': System, r': InitRun)
    requires Running(s, Initing(r)) && r.phase == Configure && s.entry.epoch == r.epoch
    requires s.entry.identity == Some(r.identity) && s.entry.lifecycle == Initializing && s.entry.online
    requires s.entry.nmt == Some(Operational) && s.entry.heartbeatSeen
    ensures s' == Next(Next(s, Go(Nothing)), Go(Nothing))
    ensures r' == r.(phase := Attempt, revision := s.entry.nmtRevision)
    ensures Holding(s', r') && s'.entry == s.entry
  {
    r' := r.(phase := Attempt, revision := s.entry.nmtRevision);
    s' := Next(Next(s, Go(Nothing)), Go(Nothing));
  }

  /** A pass enters, sees Pre-Operational and then Operational, and fences. */
  function Opening(): seq<Action> {
    [Go(Nothing), Heartbeat(PreOperational), Heartbeat(Operational)] + [Go(Nothing), Go(Nothing)]
  }

  lemma {:induction false} PassOpens(s: System, r: InitRun) returns (s': System, r': InitRun)
    requires Running(s, Initing(r)) && r.phase == Enter && s.entry.identity.Some?
    requires s.entry.lifecycle != Initializing
    ensures s' == After(s, Opening()) && Holding(s', r') && SameNode(s.entry, s'.entry)
    ensures r'.phase == Attempt && r'.tried == 0 && r'.attempts == r.attempts && r'.second == r.second
    ensures r'.firstEpoch == r.firstEpoch && r'.expected == r.expected
  {
    var s1, r1 := EntersConfigures(s, r);
    s', r' := ConfiguresFences(s1, r1);
    AfterThree(s, Go(Nothing), Heartbeat(PreOperational), Heartbeat(Operational));
    AfterTwo(s1, Go(Nothing), Go(Nothing));
    AfterConcat(s, [Go(Nothing), Heartbeat(PreOperational), Heartbeat(Operational)], [Go(Nothing), Go(Nothing)]);
  }

  /** Attempts that end with the given readings of the two objects. */
  function Looks(seen: seq<Option<Observation>>): seq<Action> {
    seq(|seen|, i requires 0 <= i < |seen| => Advance(0, Observed(seen[i])))
  }

  /** None of them is clean. */
  predicate Dirty(seen: seq<Option<Observation>>) {
    forall i :: 0 <= i < |seen| ==> seen[i] != Some(Observation(false, 0))
  }

  /** The record of a pass after these attempts. */
  function Tried(r: InitRun, seen: seq<Option<Observation>>): InitRun {
    if seen == [] then r
    else r.(phase := if r.tried + |seen| < r.attempts then Attempt else Exhausted, tried := r.tried + |seen|,
            last := seen[|seen| - 1])
  }

  lemma {:induction false} OneFailedAttempt(s: System, r: InitRun, observation: Option<Observation>)
    requires Holding(s, r) && r.phase == Attempt && r.tried < r.attempts && observation != Some(Observation(false, 0))
    ensures Next(s, Advance(0, Observed(observation))) == s.(tasks := [Initing(Tried(r, [observation]))])
  {
  }

  lemma {:induction false} FailedAttempts(s: System, r: InitRun, seen: seq<Option<Observation>>)
    requires Holding(s, r) && r.phase == Attempt && Dirty(seen)
    requires r.tried < r.attempts && r.tried + |seen| <= r.attempts
    ensures After(s, Looks(seen)) == s.(tasks := [Initing(Tried(r, seen))])
    decreases |seen|
  {
    if seen == [] {
      assert s.tasks == [Initing(Tried(r, seen))];
    } else {
      var r1, s1 := Tried(r, [seen[0]]), Next(s, Advance(0, Observed(seen[0])));
      OneFailedAttempt(s, r, seen[0]);
      assert Looks(seen)[1..] == Looks(seen[1..]);
      if |seen| > 1 {
        FailedAttempts(s1, r1, seen[1..]);
        assert Tried(r1, seen[1..]) == Tried(r, seen);
      } else {
        assert Looks(seen[1..]) == [] && seen == [seen[0]];
      }
    }
  }

  /** A clean attempt, a clean TPDO2, and the commit. */
  function Closing(): seq<Action> {
    [Go(Observed(Some(Observation(false, 0)))), Tpdo(true, true)] + [Go(Waits(true)), Go(Waits(true)), Go(Nothing)]
  }

  lemma {:induction false} CleanAttempt(s: System, r: InitRun) returns (s': System, r': InitRun)
    requires Holding(s, r) && r.phase == Attempt
    ensures s' == Next(Next(s, Go(Observed(Some(Observation(false, 0))))), Tpdo(true, true))
    ensures Holding(s', r') && r'.phase == Converge(s.entry.tpdo2Revision) && SameNode(s.entry, s'.entry)
    ensures s'.entry.tpdo2Revision != s.entry.tpdo2Revision && s'.entry.tpdo2Clean
  {
    s' := Next(Next(s, Go(Observed(Some(Observation(false, 0))))), Tpdo(true, true));
    r' := r.(tried := r.tried + 1, last := Some(Observation(false, 0)), phase := Converge(s.entry.tpdo2Revision));
  }

  /** The operation is over and the next may start. */
  predicate AtRest(s: System) {
    !s.busy && s.tasks == [] && s.discovery == Idle
  }

  lemma {:induction false} CommitsAndLeaves(s: System, r: InitRun, baseline: nat) returns (s': System)
    requires Holding(s, r) && r.phase == Converge(baseline)
    requires s.entry.tpdo2Revision != baseline && s.entry.tpdo2Clean
    ensures s' == Next(Next(Next(s, Go(Waits(true))), Go(Waits(true))), Go(Nothing))
    ensures AtRest(s') && s'.entry == s.entry.(lifecycle := Initialized)
  {
    s' := Next(Next(Next(s, Go(Waits(true))), Go(Waits(true))), Go(Nothing));
  }

  lemma {:induction false} PassCloses(s: System, r: InitRun) returns (s': System)
    requires Holding(s, r) && r.phase == Attempt
    ensures s' == After(s, Closing())
    ensures AtRest(s') && SameNode(s.entry, s'.entry) && s'.entry.lifecycle == Initialized
  {
    var s1, r1 := CleanAttempt(s, r);
    s' := CommitsAndLeaves(s1, r1, s.entry.tpdo2Revision);
    AfterTwo(s, Go(Observed(Some(Observation(false, 0)))), Tpdo(true, true));
    AfterThree(s1, Go(Waits(true)), Go(Waits(true)), Go(Nothing));
    AfterConcat(s, [Go(Observed(Some(Observation(false, 0)))), Tpdo(true, true)],
                [Go(Waits(true)), Go(Waits(true)), Go(Nothing)]);
  }

  /** A pass whose attempts fail as given, and whose next attempt clears the fault. */
  function GoodPass(seen: seq<Option<Observation>>): seq<Action> {
    Opening() + (Looks(seen) + Closing())
  }

  lemma {:induction false} PassCompletes(s: System, r: InitRun, seen: seq<Option<Observation>>) returns (s': System)
    requires Running(s, Initing(r)) && r.phase == Enter && s.entry.identity.Some?
    requires s.entry.lifecycle != Initializing && Dirty(seen) && |seen| < r.attempts
    ensures s' == After(s, GoodPass(seen))
    ensures AtRest(s') && SameNode(s.entry, s'.entry) && s'.entry.lifecycle == Initialized
  {
    var s1, r1 := PassOpens(s, r);
    FailedAttempts(s1, r1, seen);
    var s2 := After(s1, Looks(seen));
    s' := PassCloses(s2, Tried(r1, seen));
    AfterConcat(s1, Looks(seen), Closing());
    AfterConcat(s, Opening(), Looks(seen) + Closing());
  }

  // ---------------------------------------------------------------------
  // Initialization
  // ---------------------------------------------------------------------

  /** The call is let in. */
  function Admission(attempts: nat): seq<Action> {
    [Start(Initialize(attempts)), Go(Nothing)]
  }

  /** A call that has just been let in. */
  predicate LetIn(s: System, r: InitRun, s0: System) {
    && Running(s, Initing(r)) && s.entry == s0.entry && r.phase == Enter && !r.second && r.attempts >= 1
    && r.firstEpoch == s0.entry.epoch && s0.entry.identity == Some(r.expected)
  }

  lemma {:induction false} CallIsLetIn(s: System, attempts: nat) returns (s': System, r: InitRun)
    requires AtRest(s) && s.entry.identity.Some? && s.entry.lifecycle != Unknown
    ensures s' == After(s, Admission(attempts)) && LetIn(s', r, s)
    ensures r.attempts == if attempts == 0 then 1 else attempts
  {
    AfterTwo(s, Start(Initialize(attempts)), Go(Nothing));
    s' := Next(Next(s, Start(Initialize(attempts))), Go(Nothing));
    r := s'.tasks[0].init;
  }

  /** A reachable state in which no operation runs. */
  lemma {:induction false} RestIsOrderly(actions: seq<Action>)
    requires |actions| <= U64_MAX && !Run(actions).busy
    ensures var e := Run(actions).entry;
            && Run(actions).tasks == [] && e.lifecycle != Initializing && (e.identity.Some? <==> e.lifecycle != Unknown)
  {
    ReachableSafe(actions);
  }

  /**
    From every reachable state with an identified node and no operation running, an
    initialization of which fewer attempts fail than are configured, of which at least
    one is made, and whose next attempt reads both objects clean and then sees a TPDO2
    without a fault, makes the node Initialized and is over; the session, the identity
    and the cached configuration stay.
   */
  lemma {:induction false} InitializeCompletes(actions: seq<Action>, attempts: nat, seen: seq<Option<Observation>>)
    returns (done: System)
    requires |actions| <= U64_MAX && !Run(actions).busy && Run(actions).discovery == Idle
    requires Run(actions).entry.identity.Some? && Dirty(seen) && |seen| < (if attempts == 0 then 1 else attempts)
    ensures done == Run(actions + (Admission(attempts) + GoodPass(seen)))
    ensures AtRest(done) && SameNode(Run(actions).entry, done.entry) && done.entry.lifecycle == Initialized
  {
    var s := Run(actions);
    RestIsOrderly(actions);
    var s1, r := CallIsLetIn(s, attempts);
    done := PassCompletes(s1, r, seen);
    AfterConcat(s, Admission(attempts), GoodPass(seen));
    RunAfter(actions, Admission(attempts) + GoodPass(seen));
  }

  // ---------------------------------------------------------------------
  // Through the communication reset
  // ---------------------------------------------------------------------

  /** The attempts are used up, the pass rolls back, and the reset is checked and sent. */
  function Resetting(): seq<Action> {
    [Go(Waits(true)), Go(Nothing)] + [Go(Nothing), Go(Nothing)]
  }

  lemma {:induction false} UsedUpRollsBack(s: System, r: InitRun) returns (s': System)
    requires Holding(s, r) && r.phase == Exhausted && r.last == Some(Observation(false, 0x8130)) && !r.second
    ensures s' == Next(Next(s, Go(Waits(true))), Go(Nothing))
    ensures Running(s', Initing(r.(phase := ResetReady, sticky := true)))
    ensures s'.entry == s.entry.(lifecycle := Identified)
  {
    s' := Next(Next(s, Go(Waits(true))), Go(Nothing));
  }

  lemma {:induction false} SendsItsReset(s: System, r: InitRun) returns (s': System)
    requires Running(s, Initing(r)) && r.phase == ResetReady && s.entry.epoch == r.firstEpoch
    requires s.entry.identity.Some? && s.entry.identity.value.stable == r.expected.stable
    ensures s' == Next(Next(s, Go(Nothing)), Go(Nothing))
    ensures Running(s', Initing(r.(phase := BootWait(s.entry.bootupRevision)))) && s'.entry == s.entry
  {
    s' := Next(Next(s, Go(Nothing)), Go(Nothing));
  }

  lemma {:induction false} PassResets(s: System, r: InitRun) returns (s': System, r': InitRun)
    requires Holding(s, r) && r.phase == Exhausted && r.last == Some(Observation(false, 0x8130)) && !r.second
    requires r.epoch == r.firstEpoch && r.identity.stable == r.expected.stable
    ensures s' == After(s, Resetting()) && Running(s', Initing(r')) && r'.phase == BootWait(s'.entry.bootupRevision)
    ensures s'.entry.epoch == r'.firstEpoch && r'.expected == r.expected && r'.attempts == r.attempts
    ensures SameNode(s.entry, s'.entry)
  {
    var s1 := UsedUpRollsBack(s, r);
    s' := SendsItsReset(s1, r.(phase := ResetReady, sticky := true));
    r' := r.(phase := BootWait(s'.entry.bootupRevision), sticky := true);
    AfterTwo(s, Go(Waits(true)), Go(Nothing));
    AfterTwo(s1, Go(Nothing), Go(Nothing));
    AfterConcat(s, [Go(Waits(true)), Go(Nothing)], [Go(Nothing), Go(Nothing)]);
  }

  /** The device restarts; discovery asks for an identification each time and finds the node busy. */
  function Restart(): seq<Action> {
    [Heartbeat(BootUp), Spawn] + [Heartbeat(PreOperational), Spawn, Go(Nothing)]
  }

  lemma {:induction false} BootUpIsHeard(s: System, r: InitRun) returns (s': System)
    requires Running(s, Initing(r))
    ensures s' == Next(Next(s, Heartbeat(BootUp)), Spawn)
    ensures Running(s', Initing(r)) && s'.entry.epoch == Bump(s.entry.epoch) && s'.entry.identity == None
    ensures s'.entry.bootupRevision == Bump(s.entry.bootupRevision) && s'.entry.lifecycle == Unknown
    ensures s'.entry.autoReady && s'.entry.canConfig == Pending
  {
    s' := Next(Next(s, Heartbeat(BootUp)), Spawn);
  }

  lemma {:induction false} RestartIsSeen(s: System, r: InitRun) returns (s': System)
    requires Running(s, Initing(r)) && r.phase.BootWait? && s.entry.lifecycle == Unknown && s.entry.autoReady
    requires s.entry.bootupRevision != r.phase.bootup && s.entry.epoch != r.firstEpoch
    ensures s' == Next(Next(Next(s, Heartbeat(PreOperational)), Spawn), Go(Nothing))
    ensures Running(s', Initing(r.(phase := Reidentify(Reader(Reading, s.entry.epoch)))))
    ensures s'.entry.epoch == s.entry.epoch && s'.entry.identity == s.entry.identity
    ensures s'.entry.canConfig == s.entry.canConfig && s'.entry.lifecycle == Unknown
  {
    s' := Next(Next(Next(s, Heartbeat(PreOperational)), Spawn), Go(Nothing));
  }

  lemma {:induction false} CallSeesRestart(s: System, r: InitRun) returns (s': System, r': InitRun)
    requires Running(s, Initing(r)) && r.phase == BootWait(s.entry.bootupRevision) && s.entry.epoch == r.firstEpoch
    ensures s' == After(s, Restart()) && Running(s', Initing(r')) && s'.entry.lifecycle == Unknown
    ensures r' == r.(phase := Reidentify(Reader(Reading, s'.entry.epoch))) && s'.entry.epoch == Bump(s.entry.epoch)
  {
    var s1 := BootUpIsHeard(s, r);
    s' := RestartIsSeen(s1, r);
    r' := r.(phase := Reidentify(Reader(Reading, s'.entry.epoch)));
    AfterTwo(s, Heartbeat(BootUp), Spawn);
    AfterThree(s1, Heartbeat(PreOperational), Spawn, Go(Nothing));
    AfterConcat(s, [Heartbeat(BootUp), Spawn], [Heartbeat(PreOperational), Spawn, Go(Nothing)]);
  }

  /** The device answers both reads of an identification. */
  function Answering(x: Identity, status: CanConfig): seq<Action> {
    [Go(GotIdentity(x)), Go(Nothing)] + [Go(GotConfig(status)), Go(Nothing)]
  }

  lemma {:induction false} CallReadsIdentity(s: System, r: InitRun, x: Identity) returns (s': System)
    requires Running(s, Initing(r)) && r.phase == Reidentify(Reader(Reading, s.entry.epoch))
    requires x.stable == r.expected.stable && s.entry.lifecycle == Unknown
    ensures s' == Next(Next(s, Go(GotIdentity(x))), Go(Nothing))
    ensures Running(s', Initing(r.(phase := Reidentify(Reader(Configuring, s.entry.epoch)))))
    ensures s'.entry == s.entry.(identity := Some(x), canConfig := Pending, lifecycle := Identified)
  {
    s' := Next(Next(s, Go(GotIdentity(x))), Go(Nothing));
  }

  lemma {:induction false} CallReadsConfig(s: System, r: InitRun, status: CanConfig) returns (s': System)
    requires Running(s, Initing(r)) && r.phase == Reidentify(Reader(Configuring, s.entry.epoch))
    ensures s' == Next(Next(s, Go(GotConfig(status))), Go(Nothing))
    ensures Running(s', Initing(r.(phase := Enter, second := true))) && s'.entry == s.entry.(canConfig := status)
  {
    s' := Next(Next(s, Go(GotConfig(status))), Go(Nothing));
  }

  lemma {:induction false} CallReidentifies(s: System, r: InitRun, x: Identity, status: CanConfig)
    returns (s': System)
    requires Running(s, Initing(r)) && r.phase == Reidentify(Reader(Reading, s.entry.epoch))
    requires x.stable == r.expected.stable && s.entry.lifecycle == Unknown
    ensures s' == After(s, Answering(x, status))
    ensures Running(s', Initing(r.(phase := Enter, second := true)))
    ensures s'.entry == s.entry.(identity := Some(x), canConfig := status, lifecycle := Identified)
  {
    var s1 := CallReadsIdentity(s, r, x);
    s' := CallReadsConfig(s1, r.(phase := Reidentify(Reader(Configuring, s.entry.epoch))), status);
    AfterTwo(s, Go(GotIdentity(x)), Go(Nothing));
    AfterTwo(s1, Go(GotConfig(status)), Go(Nothing));
    AfterConcat(s, [Go(GotIdentity(x)), Go(Nothing)], [Go(GotConfig(status)), Go(Nothing)]);
  }

  /** A pass that uses up its attempts, the reset, the restart, and the second identification. */
  function ThroughReset(seen: seq<Option<Observation>>, x: Identity, status: CanConfig): seq<Action> {
    Opening() + (Looks(seen) + (Resetting() + (Restart() + Answering(x, status))))
  }

  lemma {:induction false} ResetLeadsBack(s: System, r: InitRun, x: Identity, status: CanConfig)
    returns (s': System, r': InitRun)
    requires Holding(s, r) && r.phase == Exhausted && r.last == Some(Observation(false, 0x8130)) && !r.second
    requires r.epoch == r.firstEpoch && r.identity.stable == r.expected.stable == x.stable
    ensures s' == After(s, Resetting() + (Restart() + Answering(x, status)))
    ensures Running(s', Initing(r')) && r'.phase == Enter && r'.attempts == r.attempts
    ensures s'.entry.identity == Some(x) && s'.entry.canConfig == status && s'.entry.lifecycle == Identified
    ensures s'.entry.epoch == Bump(s.entry.epoch)
  {
    var s1, r1 := PassResets(s, r);
    var s2, r2 := CallSeesRestart(s1, r1);
    s' := CallReidentifies(s2, r2, x, status);
    r' := r2.(phase := Enter, second := true);
    AfterConcat(s1, Restart(), Answering(x, status));
    AfterConcat(s, Resetting(), Restart() + Answering(x, status));
  }

  lemma {:induction false} FirstPassLeadsBack(s: System, r: InitRun, seen: seq<Option<Observation>>, x: Identity,
                                              status: CanConfig)
    returns (s': System, r': InitRun)
    requires Running(s, Initing(r)) && r.phase == Enter && !r.second && s.entry.lifecycle != Initializing
    requires s.entry.epoch == r.firstEpoch && s.entry.identity == Some(r.expected)
    requires Dirty(seen) && |seen| == r.attempts > 0 && seen[|seen| - 1] == Some(Observation(false, 0x8130))
    requires x.stable == r.expected.stable
    ensures s' == After(s, ThroughReset(seen, x, status))
    ensures Running(s', Initing(r')) && r'.phase == Enter && r'.attempts == r.attempts
    ensures s'.entry.identity == Some(x) && s'.entry.canConfig == status && s'.entry.lifecycle == Identified
    ensures s'.entry.epoch == Bump(s.entry.epoch)
  {
    var s1, r1 := PassOpens(s, r);
    FailedAttempts(s1, r1, seen);
    var s2 := After(s1, Looks(seen));
    s', r' := ResetLeadsBack(s2, Tried(r1, seen), x, status);
    AfterConcat(s1, Looks(seen), Resetting() + (Restart() + Answering(x, status)));
    AfterConcat(s, Opening(), Looks(seen) + (Resetting() + (Restart() + Answering(x, status))));
  }

  function RecoverySchedule(attempts: nat, seen: seq<Option<Observation>>, x: Identity, status: CanConfig,
                            again: seq<Option<Observation>>): seq<Action> {
    Admission(attempts) + (ThroughReset(seen, x, status) + GoodPass(again))
  }

  /**
    From every reachable state with an identified node and no operation running, an
    initialization whose attempts all fail, the last with the fault bit clear and error
    code 0x8130, sends its reset; when the device restarts, answers as the same device
    and clears its fault in the second pass, the node ends Initialized in the next
    session, with the identity and the configuration read after the restart.
   */
  lemma {:induction false} RecoveryCompletes(actions: seq<Action>, attempts: nat, seen: seq<Option<Observation>>,
                                             x: Identity, status: CanConfig, again: seq<Option<Observation>>)
    returns (done: System)
    requires |actions| <= U64_MAX && !Run(actions).busy && Run(actions).discovery == Idle
    requires Run(actions).entry.identity.Some? && Run(actions).entry.identity.value.stable == x.stable
    requires Dirty(seen) && |seen| == (if attempts == 0 then 1 else attempts)
    requires seen[|seen| - 1] == Some(Observation(false, 0x8130)) && Dirty(again) && |again| < |seen|
    ensures done == Run(actions + RecoverySchedule(attempts, seen, x, status, again))
    ensures AtRest(done) && done.entry.lifecycle == Initialized && done.entry.epoch == Bump(Run(actions).entry.epoch)
    ensures done.entry.identity == Some(x) && done.entry.canConfig == status
  {
    var s := Run(actions);
    RestIsOrderly(actions);
    var s1, r := CallIsLetIn(s, attempts);
    var s2, r2 := FirstPassLeadsBack(s1, r, seen, x, status);
    done := PassCompletes(s2, r2, again);
    AfterConcat(s1, ThroughReset(seen, x, status), GoodPass(again));
    AfterConcat(s, Admission(attempts), ThroughReset(seen, x, status) + GoodPass(again));
    RunAfter(actions, RecoverySchedule(attempts, seen, x, status, again));
  }

  // ---------------------------------------------------------------------
  // Identification
  // ---------------------------------------------------------------------

  /** The entry after an identification of its session. */
  function Identification(e: Entry, x: Identity, status: CanConfig): Entry {
    e.(identity := Some(x), canConfig := status,
       lifecycle := if e.lifecycle == Unknown then Identified else e.lifecycle)
  }

  lemma {:induction false} TaskReadsIdentity(s: System, x: Identity) returns (s': System)
    requires Running(s, Identifying(Reader(Reading, s.entry.epoch)))
    ensures s' == Next(Next(s, Go(GotIdentity(x))), Go(Nothing))
    ensures Running(s', Identifying(Reader(Configuring, s.entry.epoch)))
    ensures s'.entry == Identification(s.entry, x, Pending)
  {
    s' := Next(Next(s, Go(GotIdentity(x))), Go(Nothing));
  }

  lemma {:induction false} TaskReadsConfig(s: System, status: CanConfig) returns (s': System)
    requires Running(s, Identifying(Reader(Configuring, s.entry.epoch)))
    ensures s' == Next(Next(s, Go(GotConfig(status))), Go(Nothing))
    ensures Running(s', Leaving) && s'.entry == s.entry.(canConfig := status)
  {
    s' := Next(Next(s, Go(GotConfig(status))), Go(Nothing));
  }

  lemma {:induction false} TaskIdentifies(s: System, x: Identity, status: CanConfig) returns (s': System)
    requires Running(s, Identifying(Reader(Reading, s.entry.epoch)))
    ensures s' == After(s, Answering(x, status) + [Go(Nothing)])
    ensures AtRest(s') && s'.entry == Identification(s.entry, x, status)
  {
    var s1 := TaskReadsIdentity(s, x);
    var s2 := TaskReadsConfig(s1, status);
    s' := Next(s2, Go(Nothing));
    AfterTwo(s, Go(GotIdentity(x)), Go(Nothing));
    AfterTwo(s1, Go(GotConfig(status)), Go(Nothing));
    AfterConcat(s, [Go(GotIdentity(x)), Go(Nothing)], [Go(GotConfig(status)), Go(Nothing)]);
    AfterOne(s2, Go(Nothing));
    AfterConcat(s, Answering(x, status), [Go(Nothing)]);
  }

  /**
    From every reachable state with no operation running, a requested identification
    whose two reads the device answers caches both answers and is over; an Unknown
    node becomes Identified, and nothing else changes.
   */
  lemma {:induction false} IdentifyCompletes(actions: seq<Action>, x: Identity, status: CanConfig)
    returns (done: System)
    requires |actions| <= U64_MAX && !Run(actions).busy && Run(actions).discovery == Idle
    ensures done == Run(actions + ([Start(Identify), Go(Nothing)] + (Answering(x, status) + [Go(Nothing)])))
    ensures AtRest(done)
    ensures var e := Run(actions).entry;
            done.entry == e.(identity := Some(x), canConfig := status,
                             lifecycle := if e.lifecycle == Unknown then Identified else e.lifecycle)
  {
    var s := Run(actions);
    RestIsOrderly(actions);
    AfterTwo(s, Start(Identify), Go(Nothing));
    var s1 := Next(Next(s, Start(Identify)), Go(Nothing));
    done := TaskIdentifies(s1, x, status);
    AfterConcat(s, [Start(Identify), Go(Nothing)], Answering(x, status) + [Go(Nothing)]);
    RunAfter(actions, [Start(Identify), Go(Nothing)] + (Answering(x, status) + [Go(Nothing)]));
  }

  lemma {:induction false} AutomaticStarts(s: System) returns (s': System)
    requires AtRest(s)
    ensures s' == Next(Next(Next(s, Heartbeat(BootUp)), Spawn), Mark)
    ensures Running(s', Identifying(Reader(Reading, s'.entry.epoch)))
    ensures s'.entry.epoch == Bump(s.entry.epoch) && !s'.entry.autoReady && s'.entry.lifecycle == Unknown
    ensures s'.entry.nmt == Some(BootUp) && s'.entry.online
  {
    s' := Next(Next(Next(s, Heartbeat(BootUp)), Spawn), Mark);
  }

  /**
    From every reachable state with no operation running, a Boot-Up leads discovery to
    identify the node by itself, in the new session, and to use up the one automatic
    identification of that session.
   */
  lemma {:induction false} AutomaticCompletes(actions: seq<Action>, x: Identity, status: CanConfig)
    returns (done: System)
    requires |actions| <= U64_MAX && !Run(actions).busy && Run(actions).discovery == Idle
    ensures done == Run(actions + ([Heartbeat(BootUp), Spawn, Mark] + (Answering(x, status) + [Go(Nothing)])))
    ensures AtRest(done) && done.entry.epoch == Bump(Run(actions).entry.epoch) && !done.entry.autoReady
    ensures done.entry.identity == Some(x) && done.entry.canConfig == status && done.entry.lifecycle == Identified
  {
    var s := Run(actions);
    RestIsOrderly(actions);
    AfterThree(s, Heartbeat(BootUp), Spawn, Mark);
    var s1 := AutomaticStarts(s);
    done := TaskIdentifies(s1, x, status);
    AfterConcat(s, [Heartbeat(BootUp), Spawn, Mark], Answering(x, status) + [Go(Nothing)]);
    RunAfter(actions, [Heartbeat(BootUp), Spawn, Mark] + (Answering(x, status) + [Go(Nothing)]));
  }

  // ---------------------------------------------------------------------
  // Settings
  // ---------------------------------------------------------------------

  /** The node may be configured, and is in the session and state of the token. */
  predicate MayWrite(s: System, r: SetRun) {
    && Running(s, Setting(r)) && s.entry.online && s.entry.heartbeatSeen
    && r.token == Token(s.entry.epoch, s.entry.nmtRevision, r.token.nmt) && s.entry.nmt == Some(r.token.nmt)
    && (r.token.nmt == PreOperational || r.token.nmt == Stopped)
  }

  lemma {:induction false} TransactionStarts(s: System, writes: nat, target: SP.Config)
    returns (s': System, r: SetRun)
    requires AtRest(s) && s.entry.online && s.entry.heartbeatSeen
    requires s.entry.nmt == Some(PreOperational) || s.entry.nmt == Some(Stopped)
    ensures s' == Next(Next(Next(s, Start(ApplySettings(writes, target))), Go(Nothing)), Go(Nothing))
    ensures MayWrite(s', r) && r.phase == Before(0) && r.writes == writes && r.target == target
    ensures s'.entry == s.entry
  {
    s' := Next(Next(Next(s, Start(ApplySettings(writes, target))), Go(Nothing)), Go(Nothing));
    r := SetRun(Before(0), Token(s.entry.epoch, s.entry.nmtRevision, s.entry.nmt.value), writes, target);
  }

  /** One write: fenced, issued and fenced again. */
  function OneWrite(): seq<Action> {
    [Go(Nothing), Go(Nothing), Go(Nothing)]
  }

  function Writes(n: nat): seq<Action> {
    if n == 0 then [] else OneWrite() + Writes(n - 1)
  }

  lemma {:induction false} WriteIsMade(s: System, r: SetRun, i: nat)
    requires MayWrite(s, r) && r.phase == Before(i) && i < r.writes
    ensures After(s, OneWrite()) == s.(tasks := [Setting(r.(phase := Before(i + 1)))])
  {
    AfterThree(s, Go(Nothing), Go(Nothing), Go(Nothing));
  }

  lemma {:induction false} WritesAreMade(s: System, r: SetRun, i: nat, n: nat)
    requires MayWrite(s, r) && r.phase == Before(i) && i + n == r.writes
    ensures After(s, Writes(n)) == s.(tasks := [Setting(r.(phase := Before(r.writes)))])
    decreases n
  {
    if n > 0 {
      WriteIsMade(s, r, i);
      WritesAreMade(After(s, OneWrite()), r.(phase := Before(i + 1)), i + 1, n - 1);
      AfterConcat(s, OneWrite(), Writes(n - 1));
    }
  }

  lemma {:induction false} TransactionEnds(s: System, r: SetRun) returns (s': System)
    requires MayWrite(s, r) && r.phase == Before(r.writes)
    ensures s' == Next(Next(Next(s, Go(Nothing)), Go(Nothing)), Go(Nothing))
    ensures AtRest(s') && s'.entry == s.entry.(canConfig := Available(r.target))
  {
    s' := Next(Next(Next(s, Go(Nothing)), Go(Nothing)), Go(Nothing));
  }

  function Transaction(writes: nat, target: SP.Config): seq<Action> {
    [Start(ApplySettings(writes, target)), Go(Nothing), Go(Nothing)]
    + (Writes(writes) + [Go(Nothing), Go(Nothing), Go(Nothing)])
  }

  /**
    From every reachable state with no operation running and the node online, heard,
    and in Pre-Operational or Stopped, a settings transaction makes its writes, caches
    its target as the configuration and is over; nothing else changes.
   */
  lemma {:induction false} SettingsComplete(actions: seq<Action>, writes: nat, target: SP.Config)
    returns (done: System)
    requires |actions| <= U64_MAX && !Run(actions).busy && Run(actions).discovery == Idle
    requires Run(actions).entry.online && Run(actions).entry.heartbeatSeen
    requires Run(actions).entry.nmt == Some(PreOperational) || Run(actions).entry.nmt == Some(Stopped)
    ensures done == Run(actions + Transaction(writes, target))
    ensures AtRest(done) && done.entry == Run(actions).entry.(canConfig := Available(target))
  {
    var s := Run(actions);
    RestIsOrderly(actions);
    AfterThree(s, Start(ApplySettings(writes, target)), Go(Nothing), Go(Nothing));
    var s1, r := TransactionStarts(s, writes, target);
    WritesAreMade(s1, r, 0, writes);
    var s2 := After(s1, Writes(writes));
    done := TransactionEnds(s2, r.(phase := Before(writes)));
    AfterThree(s2, Go(Nothing), Go(Nothing), Go(Nothing));
    AfterConcat(s1, Writes(writes), [Go(Nothing), Go(Nothing), Go(Nothing)]);
    AfterConcat(s, [Start(ApplySettings(writes, target)), Go(Nothing), Go(Nothing)],
                Writes(writes) + [Go(Nothing), Go(Nothing), Go(Nothing)]);
    RunAfter(actions, Transaction(writes, target));
  }
}
