/**
  What a run of the session protocol shows about initialize: which earlier steps
  stand behind an Initialized node and behind a communication reset.
 */
module InitializationTheorems {
  import opened Wrappers
  import opened SessionEntry
  import opened SessionProtocol
  import opened SessionSafety
  import opened SessionTheorems

  // ---------------------------------------------------------------------
  // Steps of a call
  // ---------------------------------------------------------------------

  /** A call of initialize is running. */
  predicate InCall(s: System) {
    |s.tasks| == 1 && s.tasks[0].Initing?
  }

  /** It is past the entry of a pass of run_initialize, and has not entered the next. */
  predicate Entered(r: InitRun) {
    !r.phase.Admit? && !r.phase.Enter?
  }

  predicate InPass(s: System) {
    InCall(s) && Entered(s.tasks[0].init)
  }

  /** The pass fenced its NMT revision and has not been given up. */
  predicate Fenced(r: InitRun) {
    r.phase.Attempt? || r.phase.Converge? || r.phase.Commit? || r.phase.Exhausted?
  }

  predicate InFence(s: System) {
    InCall(s) && Fenced(s.tasks[0].init)
  }

  predicate StartsCall(s: System, a: Action) {
    !s.busy && a.Start? && a.request.Initialize?
  }

  predicate EntersPass(s: System, a: Action) {
    InCall(s) && s.tasks[0].init.phase.Enter? && Advances(a)
  }

  predicate TakesFence(s: System, a: Action) {
    InCall(s) && s.tasks[0].init.phase.Fence? && Advances(a)
  }

  /** An attempt made all its writes and came to its two reads. */
  predicate MakesAttempt(s: System, a: Action) {
    InCall(s) && s.tasks[0].init.phase.Attempt? && Advances(a) && a.input.Observed?
  }

  /** The TPDO2 cache shows no fault in a TPDO2 newer than the baseline. */
  predicate Converges(s: System, a: Action, baseline: nat) {
    && InCall(s) && s.tasks[0].init.phase == Converge(baseline) && Advances(a)
    && s.entry.tpdo2Revision != baseline && s.entry.tpdo2Clean
  }

  /** This step puts ResetCommunication on the bus, whether or not that succeeds. */
  predicate SendsReset(s: System, a: Action) {
    InCall(s) && s.tasks[0].init.phase.ResetSend? && Advances(a)
  }

  /** How many attempts were made from step i on, before step j. */
  function AttemptsMade(actions: seq<Action>, i: nat, j: nat): nat
    requires i <= j <= |actions|
  {
    if i == j then 0
    else AttemptsMade(actions, i, j - 1) + if MakesAttempt(At(actions, j - 1), actions[j - 1]) then 1 else 0
  }

  // ---------------------------------------------------------------------
  // The history of a call
  // ---------------------------------------------------------------------

  /** Where a call was started, and where its present pass was entered, fenced, last attempted and seen to converge. */
  datatype History = History(start: nat, enter: nat, fence: nat, attempt: nat, converge: nat)

  ghost predicate CallSince(actions: seq<Action>, i: nat, m: nat)
    requires m <= |actions|
  {
    forall k :: i < k <= m ==> InCall(At(actions, k))
  }

  ghost predicate PassSince(actions: seq<Action>, i: nat, m: nat)
    requires m <= |actions|
  {
    forall k :: i < k <= m ==> InPass(At(actions, k))
  }

  ghost predicate FencedSince(actions: seq<Action>, i: nat, m: nat)
    requires m <= |actions|
  {
    forall k :: i < k <= m ==> InFence(At(actions, k))
  }

  ghost predicate NoAttemptSince(actions: seq<Action>, i: nat, m: nat)
    requires m <= |actions|
  {
    forall k :: i < k < m ==> !MakesAttempt(At(actions, k), actions[k])
  }

  ghost predicate Started(actions: seq<Action>, m: nat, r: InitRun, i: nat)
    requires m <= |actions|
  {
    && i < m && StartsCall(At(actions, i), actions[i]) && CallSince(actions, i, m)
    && r.attempts == Attempts(actions[i].request.attempts)
  }

  ghost predicate EnteredAt(actions: seq<Action>, m: nat, r: InitRun, i: nat)
    requires m <= |actions|
  {
    && i < m && EntersPass(At(actions, i), actions[i]) && PassSince(actions, i, m)
    && r.epoch == At(actions, i).entry.epoch && At(actions, i).entry.identity == Some(r.identity)
    && r.tried == AttemptsMade(actions, i, m)
  }

  ghost predicate FencedAt(actions: seq<Action>, m: nat, r: InitRun, i: nat)
    requires m <= |actions|
  {
    && i < m && TakesFence(At(actions, i), actions[i]) && FencedSince(actions, i, m)
    && r.revision == At(actions, i).entry.nmtRevision
  }

  ghost predicate AttemptedAt(actions: seq<Action>, m: nat, r: InitRun, i: nat)
    requires m <= |actions|
  {
    && i < m && MakesAttempt(At(actions, i), actions[i]) && NoAttemptSince(actions, i, m)
    && actions[i].input == Observed(r.last)
    && (r.phase.Converge? ==> r.phase.baseline == At(actions, i).entry.tpdo2Revision)
  }

  ghost predicate ConvergedAt(actions: seq<Action>, m: nat, i: nat, attempt: nat)
    requires attempt < m <= |actions|
  {
    attempt < i < m && Converges(At(actions, i), actions[i], At(actions, attempt).entry.tpdo2Revision)
  }

  ghost predicate HistoryOk(actions: seq<Action>, m: nat, r: InitRun, h: History)
    requires m <= |actions|
  {
    && Started(actions, m, r, h.start)
    && (Entered(r) ==> h.start < h.enter && EnteredAt(actions, m, r, h.enter))
    && (Fenced(r) ==> h.enter < h.fence && FencedAt(actions, m, r, h.fence))
    && (Entered(r) && r.tried > 0 ==> h.enter < h.attempt && AttemptedAt(actions, m, r, h.attempt))
    && (Fenced(r) && r.tried > 0 ==> h.fence < h.attempt)
    && (r.phase.Commit? ==> r.tried > 0 && ConvergedAt(actions, m, h.converge, h.attempt))
  }

  // ---------------------------------------------------------------------
  // What one step does to the record of a call
  // ---------------------------------------------------------------------

  lemma {:induction false} OwnStep(s: System, a: Action)
    requires InCall(s) && InCall(Next(s, a)) && Advances(a)
    ensures TaskStep(s, s.tasks[0], a.input).task == Next(s, a).tasks[0]
  {
  }

  lemma {:induction false} OnlyStartBegins(s: System, a: Action)
    requires Exclusive(s) && !InCall(s) && InCall(Next(s, a))
    ensures StartsCall(s, a) && Next(s, a).tasks[0] == Begun(a.request)
  {
  }

  /** The record after a step is the record before it but for what the named steps write. */
  predicate StepShape(s: System, r: InitRun, input: Input, r': InitRun) {
    && r'.attempts == r.attempts
    && (if r.phase.Enter? then
          Entered(r') ==> r'.epoch == s.entry.epoch && s.entry.identity == Some(r'.identity) && r'.tried == 0
                          && r'.phase.Configure?
        else Entered(r') ==> Entered(r) && r'.epoch == r.epoch && r'.identity == r.identity)
    && (Fenced(r') ==> if r.phase.Fence? then r'.revision == s.entry.nmtRevision && r'.tried == r.tried
                       else Fenced(r) && r'.revision == r.revision)
  }

  /** Attempts are counted, and the last one remembered. */
  predicate AttemptShape(s: System, r: InitRun, input: Input, r': InitRun) {
    if r.phase.Attempt? && input.Observed? then
      && r'.tried == r.tried + 1 && input == Observed(r'.last) && Fenced(r') && !r'.phase.Commit?
      && (r'.phase.Converge? ==> r'.phase.baseline == s.entry.tpdo2Revision)
    else
      && (Entered(r) && Entered(r') ==> r'.tried == r.tried && r'.last == r.last)
      && (r'.phase.Converge? ==> r'.phase == r.phase)
      && (r'.phase.Commit? ==> r.phase.Converge? && FreshAndClean(s.entry, r.phase.baseline))
  }

  lemma {:induction false} InitStepShape(s: System, r: InitRun, input: Input)
    requires !r.phase.Reidentify? && InitStep(s, r, input).task.Initing?
    ensures StepShape(s, r, input, InitStep(s, r, input).task.init)
  {
  }

  lemma {:induction false} ReidentifyShape(s: System, r: InitRun, input: Input)
    requires r.phase.Reidentify? && InitStep(s, r, input).task.Initing?
    ensures StepShape(s, r, input, InitStep(s, r, input).task.init)
    ensures AttemptShape(s, r, input, InitStep(s, r, input).task.init)
  {
  }

  lemma {:induction false} InitAttemptShape(s: System, r: InitRun, input: Input)
    requires !r.phase.Reidentify? && InitStep(s, r, input).task.Initing?
    ensures AttemptShape(s, r, input, InitStep(s, r, input).task.init)
  {
  }

  lemma {:induction false} DroppedShape(s: System, r: InitRun, input: Input)
    requires Dropped(Initing(r)).Initing? && input.Fails?
    ensures StepShape(s, r, input, Dropped(Initing(r)).init) && AttemptShape(s, r, input, Dropped(Initing(r)).init)
  {
  }

  lemma {:induction false} TaskStepShape(s: System, r: InitRun, input: Input)
    requires TaskStep(s, Initing(r), input).task.Initing?
    ensures StepShape(s, r, input, TaskStep(s, Initing(r), input).task.init)
    ensures AttemptShape(s, r, input, TaskStep(s, Initing(r), input).task.init)
  {
    if input.Fails? && !r.phase.Unwind? {
      DroppedShape(s, r, input);
    } else if r.phase.Reidentify? {
      ReidentifyShape(s, r, input);
    } else {
      InitStepShape(s, r, input);
      InitAttemptShape(s, r, input);
    }
  }

  // ---------------------------------------------------------------------
  // Histories grow with the run
  // ---------------------------------------------------------------------

  /** Step n of the run takes the record of the running call from r to r'. */
  ghost predicate StepFacts(actions: seq<Action>, n: nat, r: InitRun, r': InitRun)
    requires n < |actions|
  {
    var s, s', a := At(actions, n), At(actions, n + 1), actions[n];
    && InCall(s) && s.tasks[0].init == r && InCall(s') && s'.tasks[0].init == r'
    && if Advances(a) then StepShape(s, r, a.input, r') && AttemptShape(s, r, a.input, r') else r' == r
  }

  lemma {:induction false} StepHasFacts(actions: seq<Action>, n: nat)
    requires n < |actions| <= U64_MAX && InCall(At(actions, n)) && InCall(At(actions, n + 1))
    ensures StepFacts(actions, n, At(actions, n).tasks[0].init, At(actions, n + 1).tasks[0].init)
  {
    var s, a := At(actions, n), actions[n];
    Step(actions, n);
    if Advances(a) {
      OwnStep(s, a);
      TaskStepShape(s, s.tasks[0].init, a.input);
    } else {
      ReachableSafe(actions[..n]);
      OthersLeaveTask(s, a);
    }
  }

  lemma {:induction false} CallGrows(actions: seq<Action>, n: nat, r: InitRun, r': InitRun, i: nat)
    requires n < |actions| && Started(actions, n, r, i) && StepFacts(actions, n, r, r')
    ensures Started(actions, n + 1, r', i)
  {
  }

  lemma {:induction false} PassGrows(actions: seq<Action>, n: nat, r: InitRun, r': InitRun, i: nat)
    requires n < |actions| && EnteredAt(actions, n, r, i) && StepFacts(actions, n, r, r')
    requires Entered(r) && Entered(r')
    ensures EnteredAt(actions, n + 1, r', i)
  {
    assert r'.tried == r.tried + if MakesAttempt(At(actions, n), actions[n]) then 1 else 0;
  }

  lemma {:induction false} PassBegins(actions: seq<Action>, n: nat, r: InitRun, r': InitRun)
    requires n < |actions| && StepFacts(actions, n, r, r') && r.phase.Enter? && Entered(r')
    ensures EnteredAt(actions, n + 1, r', n) && r'.tried == 0 && !Fenced(r')
  {
    assert AttemptsMade(actions, n, n + 1) == AttemptsMade(actions, n, n) + 0;
  }

  lemma {:induction false} FenceGrows(actions: seq<Action>, n: nat, r: InitRun, r': InitRun, i: nat)
    requires n < |actions| && FencedAt(actions, n, r, i) && StepFacts(actions, n, r, r')
    requires Fenced(r) && Fenced(r')
    ensures FencedAt(actions, n + 1, r', i)
  {
  }

  lemma {:induction false} FenceBegins(actions: seq<Action>, n: nat, r: InitRun, r': InitRun)
    requires n < |actions| && StepFacts(actions, n, r, r') && !Fenced(r) && Fenced(r')
    ensures r.phase.Fence? && FencedAt(actions, n + 1, r', n)
  {
  }

  lemma {:induction false} AttemptStays(actions: seq<Action>, n: nat, r: InitRun, r': InitRun, i: nat)
    requires n < |actions| && AttemptedAt(actions, n, r, i) && StepFacts(actions, n, r, r')
    requires Entered(r) && Entered(r') && !MakesAttempt(At(actions, n), actions[n])
    ensures AttemptedAt(actions, n + 1, r', i)
  {
  }

  lemma {:induction false} AttemptBegins(actions: seq<Action>, n: nat, r: InitRun, r': InitRun)
    requires n < |actions| && StepFacts(actions, n, r, r') && MakesAttempt(At(actions, n), actions[n])
    ensures AttemptedAt(actions, n + 1, r', n) && Fenced(r) && Fenced(r') && !r'.phase.Commit? && r'.tried > 0
  {
  }

  lemma {:induction false} CommitBegins(actions: seq<Action>, n: nat, r: InitRun, r': InitRun, i: nat)
    requires n < |actions| && StepFacts(actions, n, r, r') && !r.phase.Commit? && r'.phase.Commit?
    requires AttemptedAt(actions, n, r, i)
    ensures ConvergedAt(actions, n + 1, n, i)
  {
  }

  /** The history after step n, given the history before it. */
  function Extended(h: History, s: System, a: Action, n: nat): History {
    History(h.start, if EntersPass(s, a) then n else h.enter, if TakesFence(s, a) then n else h.fence,
            if MakesAttempt(s, a) then n else h.attempt,
            if InCall(s) && s.tasks[0].init.phase.Converge? && Advances(a) then n else h.converge)
  }

  lemma {:induction false} EnterGrows(actions: seq<Action>, n: nat, r: InitRun, r': InitRun, h: History)
    requires n < |actions| && StepFacts(actions, n, r, r') && HistoryOk(actions, n, r, h) && Entered(r')
    ensures var h' := Extended(h, At(actions, n), actions[n], n);
            h'.start < h'.enter && EnteredAt(actions, n + 1, r', h'.enter)
  {
    if r.phase.Enter? {
      PassBegins(actions, n, r, r');
    } else {
      PassGrows(actions, n, r, r', h.enter);
    }
  }

  lemma {:induction false} FenceAndEnterGrow(actions: seq<Action>, n: nat, r: InitRun, r': InitRun, h: History)
    requires n < |actions| && StepFacts(actions, n, r, r') && HistoryOk(actions, n, r, h) && Fenced(r')
    ensures var h' := Extended(h, At(actions, n), actions[n], n);
            h'.enter < h'.fence && FencedAt(actions, n + 1, r', h'.fence)
  {
    if Fenced(r) {
      FenceGrows(actions, n, r, r', h.fence);
    } else {
      FenceBegins(actions, n, r, r');
    }
  }

  lemma {:induction false} AttemptGrows(actions: seq<Action>, n: nat, r: InitRun, r': InitRun, h: History)
    requires n < |actions| && StepFacts(actions, n, r, r') && HistoryOk(actions, n, r, h)
    requires Entered(r') && r'.tried > 0 && (r.phase.Fence? ==> r.tried == 0)
    ensures var h' := Extended(h, At(actions, n), actions[n], n);
            h'.enter < h'.attempt && AttemptedAt(actions, n + 1, r', h'.attempt)
            && (Fenced(r') ==> h'.fence < h'.attempt)
  {
    if MakesAttempt(At(actions, n), actions[n]) {
      AttemptBegins(actions, n, r, r');
    } else {
      AttemptStays(actions, n, r, r', h.attempt);
    }
  }

  lemma {:induction false} CommitGrows(actions: seq<Action>, n: nat, r: InitRun, r': InitRun, h: History)
    requires n < |actions| && StepFacts(actions, n, r, r') && HistoryOk(actions, n, r, h)
    requires r'.phase.Commit? && (r.phase.Converge? ==> r.tried > 0)
    ensures var h' := Extended(h, At(actions, n), actions[n], n);
            r'.tried > 0 && h'.attempt <= n && ConvergedAt(actions, n + 1, h'.converge, h'.attempt)
  {
    if !r.phase.Commit? {
      CommitBegins(actions, n, r, r', h.attempt);
    }
  }

  lemma {:induction false} HistoryGrows(actions: seq<Action>, n: nat, r: InitRun, r': InitRun, h: History)
    requires n < |actions| && StepFacts(actions, n, r, r') && HistoryOk(actions, n, r, h)
    requires (r.phase.Fence? ==> r.tried == 0) && (r.phase.Converge? ==> r.tried > 0)
    ensures HistoryOk(actions, n + 1, r', Extended(h, At(actions, n), actions[n], n))
  {
    CallGrows(actions, n, r, r', h.start);
    if Entered(r') {
      EnterGrows(actions, n, r, r', h);
      if r'.tried > 0 {
        AttemptGrows(actions, n, r, r', h);
      }
    }
    if Fenced(r') {
      FenceAndEnterGrow(actions, n, r, r', h);
    }
    if r'.phase.Commit? {
      CommitGrows(actions, n, r, r', h);
    }
  }

  lemma {:induction false} BegunIsHistory(actions: seq<Action>, n: nat, r: InitRun)
    requires n < |actions| && StartsCall(At(actions, n), actions[n]) && InCall(At(actions, n + 1))
    requires Initing(r) == Begun(actions[n].request)
    ensures HistoryOk(actions, n + 1, r, History(n, 0, 0, 0, 0))
  {
    assert CallSince(actions, n, n + 1);
  }

  lemma {:induction false} HistoryBegins(actions: seq<Action>, n: nat)
    requires n < |actions| <= U64_MAX && !InCall(At(actions, n)) && InCall(At(actions, n + 1))
    ensures HistoryOk(actions, n + 1, At(actions, n + 1).tasks[0].init, History(n, 0, 0, 0, 0))
  {
    Step(actions, n);
    ReachableSafe(actions[..n]);
    OnlyStartBegins(At(actions, n), actions[n]);
    BegunIsHistory(actions, n, At(actions, n + 1).tasks[0].init);
  }

  /** Every running call has such a history. */
  lemma {:induction false} HistoryExists(actions: seq<Action>, m: nat) returns (h: History)
    requires m <= |actions| <= U64_MAX && InCall(At(actions, m))
    ensures HistoryOk(actions, m, At(actions, m).tasks[0].init, h)
  {
    if m > 0 {
      var n := m - 1;
      if InCall(At(actions, n)) {
        h := HistoryExists(actions, n);
        StepHasFacts(actions, n);
        RecordOk(actions, n);
        HistoryGrows(actions, n, At(actions, n).tasks[0].init, At(actions, m).tasks[0].init, h);
        h := Extended(h, At(actions, n), actions[n], n);
      } else {
        HistoryBegins(actions, n);
        h := History(n, 0, 0, 0, 0);
      }
    }
  }

  lemma {:induction false} RecordOk(actions: seq<Action>, n: nat)
    requires n <= |actions| <= U64_MAX && InCall(At(actions, n))
    ensures InitRunOk(At(actions, n).tasks[0].init)
  {
    ReachableSafe(actions[..n]);
    assert TaskOk(At(actions, n).entry, At(actions, n).tasks[0]);
  }

  // ---------------------------------------------------------------------
  // Initialized
  // ---------------------------------------------------------------------

  /** This step turns the node Initialized. */
  predicate BecomesInitialized(s: System, a: Action) {
    !s.entry.lifecycle.Initialized? && Next(s, a).entry.lifecycle.Initialized?
  }

  /** The commit of an initialization whose whole context still holds. */
  predicate CommitStep(s: System, t: Task, input: Input) {
    && t.Initing? && t.init.phase.Commit? && input == Waits(true)
    && s.entry.epoch == t.init.epoch && s.entry.identity == Some(t.init.identity)
    && s.entry.nmtRevision == t.init.revision && s.entry.online && s.entry.nmt == Some(Operational)
    && s.entry.heartbeatSeen
  }

  predicate CommitsInitialize(s: System, a: Action) {
    a.Advance? && a.i == 0 && |s.tasks| == 1 && CommitStep(s, s.tasks[0], a.input)
  }

  lemma {:induction false} OnlyCommitInitializes(s: System, a: Action)
    requires Exclusive(s)
    ensures BecomesInitialized(s, a) ==> CommitsInitialize(s, a)
  {
    if BecomesInitialized(s, a) && a.Advance? && a.i < |s.tasks| {
      OnlyCommitStep(s, s.tasks[a.i], a.input);
    }
  }

  lemma {:induction false} OnlyCommitStep(s: System, t: Task, input: Input)
    requires !t.Leaving? && !s.entry.lifecycle.Initialized?
    ensures TaskStep(s, t, input).entry.lifecycle.Initialized? ==> CommitStep(s, t, input)
  {
    if t.Identifying? {
      ReadNeverInitializes(s, t.reader, input);
    } else if t.Setting? {
      SettingsNeverInitialize(s, t.run, input);
    } else if t.Initing? && t.init.phase.Reidentify? {
      ReadNeverInitializes(s, t.init.phase.reader, input);
    } else if t.Initing? && !t.init.phase.Commit? {
      InitNeverInitializes(s, t.init, input);
    }
  }

  lemma {:induction false} ReadNeverInitializes(s: System, r: Reader, input: Input)
    requires !s.entry.lifecycle.Initialized?
    ensures !ReadStep(s, r, input).entry.lifecycle.Initialized?
  {
  }

  lemma {:induction false} SettingsNeverInitialize(s: System, r: SetRun, input: Input)
    requires !s.entry.lifecycle.Initialized?
    ensures !SettingsStep(s, r, input).entry.lifecycle.Initialized?
  {
  }

  lemma {:induction false} InitNeverInitializes(s: System, r: InitRun, input: Input)
    requires !s.entry.lifecycle.Initialized? && !r.phase.Commit? && !r.phase.Reidentify?
    ensures !InitStep(s, r, input).entry.lifecycle.Initialized?
  {
  }

  lemma {:induction false} CommitContext(s: System, a: Action)
    requires CommitsInitialize(s, a) && Counted(s) && InitRunOk(s.tasks[0].init)
    ensures var r := s.tasks[0].init;
            && InCall(s) && r.phase.Commit? && s.sessions == r.epoch && s.nmtChanges == r.revision
            && s.entry.identity == Some(r.identity) && s.entry.online && s.entry.nmt == Some(Operational)
            && r.last == Some(Observation(false, 0)) && !IsChange(s, a)
  {
  }

  /** The call that turns a node Initialized at step m: how it began, and what it saw on the way. */
  ghost predicate CommitHistory(actions: seq<Action>, h: History, m: nat)
    requires m < |actions|
  {
    && h.start < h.enter < h.fence < h.attempt < h.converge < m
    && StartsCall(At(actions, h.start), actions[h.start]) && CallSince(actions, h.start, m)
    && EntersPass(At(actions, h.enter), actions[h.enter]) && PassSince(actions, h.enter, m)
    && TakesFence(At(actions, h.fence), actions[h.fence]) && FencedSince(actions, h.fence, m)
    && MakesAttempt(At(actions, h.attempt), actions[h.attempt]) && NoAttemptSince(actions, h.attempt, m)
    && actions[h.attempt].input == Observed(Some(Observation(false, 0)))
    && Converges(At(actions, h.converge), actions[h.converge], At(actions, h.attempt).entry.tpdo2Revision)
  }

  /** The context of the entry and of the fence is still that of step m. */
  ghost predicate SameContext(actions: seq<Action>, enter: nat, fence: nat, m: nat)
    requires enter < fence < m < |actions|
  {
    && OneSession(actions, enter, m) && NoChange(actions, fence, m)
    && At(actions, m).entry.identity == At(actions, enter).entry.identity
    && At(actions, m).entry.online && At(actions, m).entry.nmt == Some(Operational)
  }

  lemma {:induction false} CommitHasHistory(actions: seq<Action>, m: nat) returns (h: History)
    requires m < |actions| <= U64_MAX && BecomesInitialized(At(actions, m), actions[m])
    ensures CommitHistory(actions, h, m) && SameContext(actions, h.enter, h.fence, m)
  {
    CountedAt(actions, m);
    OnlyCommitInitializes(At(actions, m), actions[m]);
    RecordOk(actions, m);
    CommitContext(At(actions, m), actions[m]);
    h := HistoryExists(actions, m);
    CountedAt(actions, h.enter);
    SameSessions(actions, h.enter, m);
    CountedAt(actions, h.fence);
    SameCounts(actions, h.fence, m);
  }

  /**
    On every interleaving: a node becomes Initialized, at step m, only by a call
    that entered its pass at one step, fenced the NMT revision at a later one, made
    its last attempt after that with both readings clean, and after that saw a
    TPDO2, newer than those readings, without a fault. The session is one from the
    entry to m, the identity at m is the one found at the entry, and no Boot-Up,
    offline edge or change of NMT state happened from the fence to m.
   */
  lemma {:induction false} InitializedOnlyInContext(actions: seq<Action>, m: nat)
    requires m < |actions| <= U64_MAX
    ensures BecomesInitialized(At(actions, m), actions[m]) ==>
              exists h: History :: CommitHistory(actions, h, m) && SameContext(actions, h.enter, h.fence, m)
  {
    if BecomesInitialized(At(actions, m), actions[m]) {
      var h := CommitHasHistory(actions, m);
    }
  }

  // ---------------------------------------------------------------------
  // Communication reset
  // ---------------------------------------------------------------------

  /** The call has sent its communication reset. */
  predicate PastReset(r: InitRun) {
    r.second || r.phase.BootWait? || r.phase.Reidentify?
  }

  lemma {:induction false} PastResetStays(s: System, r: InitRun, input: Input)
    requires PastReset(r) && InitRunOk(r) && TaskStep(s, Initing(r), input).task.Initing?
    ensures PastReset(TaskStep(s, Initing(r), input).task.init)
  {
  }

  lemma {:induction false} ResetIsPast(s: System, r: InitRun, input: Input)
    requires r.phase.ResetSend? && TaskStep(s, Initing(r), input).task.Initing?
    ensures PastReset(TaskStep(s, Initing(r), input).task.init)
  {
  }

  predicate AfterReset(s: System) {
    InCall(s) && PastReset(s.tasks[0].init)
  }

  lemma {:induction false} AfterResetStep(s: System, a: Action)
    requires Inv(s) && (AfterReset(s) || SendsReset(s, a)) && InCall(Next(s, a))
    ensures AfterReset(Next(s, a))
  {
    assert TaskOk(s.entry, s.tasks[0]);
    if !Advances(a) {
      OthersLeaveTask(s, a);
    } else {
      OwnStep(s, a);
      if s.tasks[0].init.phase.ResetSend? {
        ResetIsPast(s, s.tasks[0].init, a.input);
      } else {
        PastResetStays(s, s.tasks[0].init, a.input);
      }
    }
  }

  lemma {:induction false} AfterResetAt(actions: seq<Action>, n: nat)
    requires n < |actions| <= U64_MAX && InCall(At(actions, n + 1))
    requires AfterReset(At(actions, n)) || SendsReset(At(actions, n), actions[n])
    ensures AfterReset(At(actions, n + 1))
  {
    Step(actions, n);
    ReachableSafe(actions[..n]);
    AfterResetStep(At(actions, n), actions[n]);
  }

  lemma {:induction false} AfterResetPersists(actions: seq<Action>, i: nat, j: nat)
    requires i < j <= |actions| <= U64_MAX && SendsReset(At(actions, i), actions[i]) && CallSince(actions, i, j)
    ensures AfterReset(At(actions, j))
  {
    if i < j - 1 {
      AfterResetPersists(actions, i, j - 1);
    }
    AfterResetAt(actions, j - 1);
  }

  /** On every interleaving, one call of initialize sends at most one communication reset. */
  lemma {:induction false} ResetOncePerCall(actions: seq<Action>, i: nat, j: nat)
    requires i < j < |actions| <= U64_MAX && SendsReset(At(actions, i), actions[i]) && CallSince(actions, i, j)
    ensures !SendsReset(At(actions, j), actions[j])
  {
    AfterResetPersists(actions, i, j);
    RecordOk(actions, j);
  }

  /**
    The call that sends a reset at step m: how it began, and its last attempt,
    the last of as many as were asked for.
   */
  ghost predicate ResetHistory(actions: seq<Action>, h: History, m: nat)
    requires m < |actions|
  {
    && h.start < h.enter < h.attempt < m
    && StartsCall(At(actions, h.start), actions[h.start]) && CallSince(actions, h.start, m)
    && EntersPass(At(actions, h.enter), actions[h.enter]) && PassSince(actions, h.enter, m)
    && AttemptsMade(actions, h.enter, m) == Attempts(actions[h.start].request.attempts)
    && MakesAttempt(At(actions, h.attempt), actions[h.attempt]) && NoAttemptSince(actions, h.attempt, m)
    && actions[h.attempt].input == Observed(Some(Observation(false, 0x8130)))
  }

  /**
    On every interleaving: a communication reset is sent only if the pass before
    it made all the configured attempts, at least one, and the last of them read
    both objects, with the fault bit clear and error code 0x8130.
   */
  lemma {:induction false} ResetOnlyWhenSticky(actions: seq<Action>, m: nat)
    requires m < |actions| <= U64_MAX && SendsReset(At(actions, m), actions[m])
    ensures exists h: History :: ResetHistory(actions, h, m)
  {
    RecordOk(actions, m);
    var h := HistoryExists(actions, m);
    assert ResetHistory(actions, h, m);
  }

  // ---------------------------------------------------------------------
  // Rollback
  // ---------------------------------------------------------------------

  /** No exit leaves the lifecycle Initializing: while it is, an initialization is running
      that will commit or roll back. */
  lemma {:induction false} NeverStuckInitializing(actions: seq<Action>)
    requires |actions| <= U64_MAX && Run(actions).entry.lifecycle.Initializing?
    ensures var s := Run(actions);
            s.busy && |s.tasks| == 1 && s.tasks[0].Initing? && Armed(s.tasks[0].init)
  {
    ReachableSafe(actions);
  }

  /** Such an initialization, dropped at any point, leaves the node Identified or as a later session set it. */
  lemma {:induction false} DropRollsBack(s: System, i: nat)
    requires Inv(s) && i < |s.tasks| && s.tasks[i].Initing? && Armed(s.tasks[i].init)
    ensures var s2 := Next(Next(s, Advance(i, Fails)), Advance(i, Fails));
            !s2.entry.lifecycle.Initializing?
  {
  }
}
