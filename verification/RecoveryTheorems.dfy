/**
  The one communication reset a call of initialize may send: whom it is sent to,
  what must happen before the call goes on, and which device comes out of it.
 */
module RecoveryTheorems {
  import opened Wrappers
  import opened SessionEntry
  import opened SessionProtocol
  import opened SessionSafety
  import opened SessionTheorems
  import opened InitializationTheorems

  // ---------------------------------------------------------------------
  // Steps of a call with a reset
  // ---------------------------------------------------------------------

  /** The call looks at the node for the first time. */
  predicate AdmitsCall(s: System, a: Action) {
    InCall(s) && s.tasks[0].init.phase.Admit? && Advances(a)
  }

  /** The last look at the node before the reset. */
  predicate ChecksReset(s: System, a: Action) {
    InCall(s) && s.tasks[0].init.phase.ResetReady? && Advances(a)
  }

  predicate ReadyToSend(s: System) {
    InCall(s) && s.tasks[0].init.phase.ResetSend?
  }

  ghost predicate ReadySince(actions: seq<Action>, i: nat, m: nat)
    requires m <= |actions|
  {
    forall k :: i < k <= m ==> ReadyToSend(At(actions, k))
  }

  /** The call looks whether the node has restarted. */
  predicate LooksForRestart(s: System, a: Action) {
    InCall(s) && s.tasks[0].init.phase.BootWait? && Advances(a)
  }

  predicate HearsBootUp(s: System, a: Action) {
    a == Heartbeat(BootUp) && s.discovery.Idle?
  }

  predicate HasRestarted(e: Entry) {
    e.online && e.nmt == Some(PreOperational)
  }

  /** The node is the device with the given stable identity. */
  predicate IsDevice(e: Entry, stable: nat) {
    e.identity.Some? && e.identity.value.stable == stable
  }

  // ---------------------------------------------------------------------
  // What one step does to the record of a call
  // ---------------------------------------------------------------------

  predicate AdmitShape(s: System, r: InitRun, r': InitRun) {
    && !r'.phase.Admit?
    && (if r.phase.Admit? then
           r'.phase.Enter? && r'.firstEpoch == s.entry.epoch && s.entry.identity == Some(r'.expected)
        else r'.firstEpoch == r.firstEpoch && r'.expected == r.expected)
  }

  predicate ResetShape(s: System, r: InitRun, r': InitRun) {
    && (r'.phase.ResetSend? ==>
          && r.phase.ResetReady? && s.entry.epoch == r.firstEpoch && IsDevice(s.entry, r.expected.stable)
          && r'.phase.bootup == s.entry.bootupRevision)
    && (r'.phase.BootWait? ==> r.phase == ResetSend(r'.phase.bootup) || r.phase == r'.phase)
    && (r'.phase.Reidentify? ==>
          || r.phase.Reidentify?
          || (r.phase.BootWait? && s.entry.bootupRevision != r.phase.bootup && s.entry.epoch != r.firstEpoch
              && HasRestarted(s.entry)))
    && (r'.second ==> r.second || (r.phase.Reidentify? && r'.phase.Enter?))
    && (r'.phase.Enter? ==> r.phase.Admit? || (r.phase.Reidentify? && r'.second))
  }

  lemma {:induction false} InitStepAdmits(s: System, r: InitRun, input: Input)
    requires InitStep(s, r, input).task.Initing?
    ensures AdmitShape(s, r, InitStep(s, r, input).task.init)
  {
  }

  lemma {:induction false} InitStepResets(s: System, r: InitRun, input: Input)
    requires !r.phase.Reidentify? && InitStep(s, r, input).task.Initing?
    ensures ResetShape(s, r, InitStep(s, r, input).task.init)
  {
  }

  lemma {:induction false} ReidentifyResets(s: System, r: InitRun, input: Input)
    requires r.phase.Reidentify? && InitStep(s, r, input).task.Initing?
    ensures ResetShape(s, r, InitStep(s, r, input).task.init)
  {
  }

  lemma {:induction false} DroppedRecovers(s: System, r: InitRun)
    requires Dropped(Initing(r)).Initing?
    ensures AdmitShape(s, r, Dropped(Initing(r)).init) && ResetShape(s, r, Dropped(Initing(r)).init)
  {
  }

  /** Step n of the run takes the record of the running call from r to r'. */
  ghost predicate RecoveryFacts(actions: seq<Action>, n: nat, r: InitRun, r': InitRun)
    requires n < |actions|
  {
    var s, s' := At(actions, n), At(actions, n + 1);
    && InCall(s) && s.tasks[0].init == r && InCall(s') && s'.tasks[0].init == r'
    && if Advances(actions[n]) then AdmitShape(s, r, r') && ResetShape(s, r, r') else r' == r
  }

  lemma {:induction false} StepRecovers(s: System, r: InitRun, input: Input)
    requires TaskStep(s, Initing(r), input).task.Initing?
    ensures AdmitShape(s, r, TaskStep(s, Initing(r), input).task.init)
    ensures ResetShape(s, r, TaskStep(s, Initing(r), input).task.init)
  {
    if input.Fails? && !r.phase.Unwind? {
      DroppedRecovers(s, r);
    } else {
      InitStepAdmits(s, r, input);
      if r.phase.Reidentify? {
        ReidentifyResets(s, r, input);
      } else {
        InitStepResets(s, r, input);
      }
    }
  }

  lemma {:induction false} RecoveryFactsHold(actions: seq<Action>, n: nat)
    requires n < |actions| <= U64_MAX && InCall(At(actions, n)) && InCall(At(actions, n + 1))
    ensures RecoveryFacts(actions, n, At(actions, n).tasks[0].init, At(actions, n + 1).tasks[0].init)
  {
    var s, a := At(actions, n), actions[n];
    Step(actions, n);
    if Advances(a) {
      OwnStep(s, a);
      StepRecovers(s, s.tasks[0].init, a.input);
    } else {
      CountedAt(actions, n);
      OthersLeaveTask(s, a);
    }
  }

  // ---------------------------------------------------------------------
  // The history of a call with a reset
  // ---------------------------------------------------------------------

  /** The admission of a call, and the check, the sending and the end of the wait of its reset, and its second entry. */
  datatype Recovery = Recovery(admit: nat, check: nat, reset: nat, boot: nat, enter: nat)

  ghost predicate AdmittedAt(actions: seq<Action>, m: nat, r: InitRun, i: nat)
    requires m <= |actions|
  {
    && i < m && AdmitsCall(At(actions, i), actions[i]) && CallSince(actions, i, m)
    && r.firstEpoch == At(actions, i).entry.epoch && At(actions, i).entry.identity == Some(r.expected)
  }

  /** The check found the session and the device of the admission. */
  ghost predicate CheckedAt(actions: seq<Action>, r: InitRun, i: nat)
    requires i < |actions|
  {
    && ChecksReset(At(actions, i), actions[i])
    && At(actions, i).entry.epoch == r.firstEpoch && IsDevice(At(actions, i).entry, r.expected.stable)
  }

  ghost predicate SentAt(actions: seq<Action>, m: nat, r: InitRun, check: nat, i: nat)
    requires check < m <= |actions|
  {
    && check < i < m && SendsReset(At(actions, i), actions[i])
    && CallSince(actions, i, m) && ReadySince(actions, check, i)
    && (r.phase.BootWait? ==> r.phase.bootup == At(actions, check).entry.bootupRevision)
  }

  ghost predicate WaitedAt(actions: seq<Action>, m: nat, r: InitRun, check: nat, i: nat)
    requires check < m <= |actions|
  {
    && i < m && LooksForRestart(At(actions, i), actions[i])
    && At(actions, i).entry.bootupRevision != At(actions, check).entry.bootupRevision
    && At(actions, i).entry.epoch != r.firstEpoch && HasRestarted(At(actions, i).entry)
  }

  ghost predicate ReadyOk(actions: seq<Action>, m: nat, r: InitRun, v: Recovery)
    requires m <= |actions|
  {
    r.phase.ResetSend? ==>
      && v.admit < v.check < m && CheckedAt(actions, r, v.check) && ReadySince(actions, v.check, m)
      && r.phase.bootup == At(actions, v.check).entry.bootupRevision
  }

  ghost predicate ResetOk(actions: seq<Action>, m: nat, r: InitRun, v: Recovery)
    requires m <= |actions|
  {
    PastReset(r) ==>
      && !r.phase.Admit? && v.admit < v.check < m && CheckedAt(actions, r, v.check)
      && SentAt(actions, m, r, v.check, v.reset)
  }

  ghost predicate BootOk(actions: seq<Action>, m: nat, r: InitRun, v: Recovery)
    requires m <= |actions|
  {
    r.phase.Reidentify? || r.second ==> v.check < m && v.reset < v.boot && WaitedAt(actions, m, r, v.check, v.boot)
  }

  ghost predicate EnterOk(actions: seq<Action>, m: nat, r: InitRun, v: Recovery)
    requires m <= |actions|
  {
    r.second && Entered(r) ==>
      v.boot < v.enter < m && EntersPass(At(actions, v.enter), actions[v.enter]) && PassSince(actions, v.enter, m)
  }

  ghost predicate RecoveryOk(actions: seq<Action>, m: nat, r: InitRun, v: Recovery)
    requires m <= |actions|
  {
    && (!r.phase.Admit? ==> AdmittedAt(actions, m, r, v.admit))
    && ReadyOk(actions, m, r, v) && ResetOk(actions, m, r, v) && BootOk(actions, m, r, v) && EnterOk(actions, m, r, v)
  }

  function RecoveryAfter(v: Recovery, s: System, a: Action, r': InitRun, n: nat): Recovery {
    Recovery(
      if AdmitsCall(s, a) then n else v.admit,
      if ChecksReset(s, a) then n else v.check,
      if SendsReset(s, a) then n else v.reset,
      if LooksForRestart(s, a) && r'.phase.Reidentify? then n else v.boot,
      if EntersPass(s, a) then n else v.enter)
  }

  lemma {:induction false} AdmitGrows(actions: seq<Action>, n: nat, r: InitRun, r': InitRun, v: Recovery)
    requires n < |actions| && RecoveryFacts(actions, n, r, r') && !r'.phase.Admit?
    requires !r.phase.Admit? ==> AdmittedAt(actions, n, r, v.admit)
    ensures AdmittedAt(actions, n + 1, r', RecoveryAfter(v, At(actions, n), actions[n], r', n).admit)
  {
  }

  lemma {:induction false} ReadyGrows(actions: seq<Action>, n: nat, r: InitRun, r': InitRun, v: Recovery)
    requires n < |actions| && RecoveryFacts(actions, n, r, r') && ReadyOk(actions, n, r, v)
    requires !r.phase.Admit? ==> AdmittedAt(actions, n, r, v.admit)
    ensures ReadyOk(actions, n + 1, r', RecoveryAfter(v, At(actions, n), actions[n], r', n))
  {
  }

  lemma {:induction false} ResetGrows(actions: seq<Action>, n: nat, r: InitRun, r': InitRun, v: Recovery)
    requires n < |actions| && RecoveryFacts(actions, n, r, r') && ReadyOk(actions, n, r, v) && ResetOk(actions, n, r, v)
    requires PastReset(r) ==> !r.phase.ResetReady? && !r.phase.ResetSend?
    ensures ResetOk(actions, n + 1, r', RecoveryAfter(v, At(actions, n), actions[n], r', n))
  {
  }

  lemma {:induction false} BootGrows(actions: seq<Action>, n: nat, r: InitRun, r': InitRun, v: Recovery)
    requires n < |actions| && RecoveryFacts(actions, n, r, r') && ResetOk(actions, n, r, v) && BootOk(actions, n, r, v)
    requires PastReset(r) ==> !r.phase.ResetReady? && !r.phase.ResetSend?
    requires r.phase.BootWait? ==> !r.second
    ensures BootOk(actions, n + 1, r', RecoveryAfter(v, At(actions, n), actions[n], r', n))
  {
  }

  lemma {:induction false} SecondEntryGrows(actions: seq<Action>, n: nat, r: InitRun, r': InitRun, v: Recovery)
    requires n < |actions| && RecoveryFacts(actions, n, r, r') && BootOk(actions, n, r, v) && EnterOk(actions, n, r, v)
    requires r.phase.BootWait? ==> !r.second
    ensures EnterOk(actions, n + 1, r', RecoveryAfter(v, At(actions, n), actions[n], r', n))
  {
    if r'.second && Entered(r') {
      if r.phase.Enter? {
        SecondEntryNow(actions, n, r, r', v);
      } else {
        assert PassSince(actions, v.enter, n + 1);
      }
    }
  }

  lemma {:induction false} SecondEntryNow(actions: seq<Action>, n: nat, r: InitRun, r': InitRun, v: Recovery)
    requires n < |actions| && RecoveryFacts(actions, n, r, r') && BootOk(actions, n, r, v)
    requires r.phase.Enter? && r'.second && Entered(r')
    ensures v.boot < n && EntersPass(At(actions, n), actions[n]) && PassSince(actions, n, n + 1)
  {
  }

  lemma {:induction false} RecoveryGrows(actions: seq<Action>, n: nat, r: InitRun, r': InitRun, v: Recovery)
    requires n < |actions| && RecoveryFacts(actions, n, r, r') && RecoveryOk(actions, n, r, v) && InitRunOk(r)
    ensures RecoveryOk(actions, n + 1, r', RecoveryAfter(v, At(actions, n), actions[n], r', n))
  {
    if !r'.phase.Admit? {
      AdmitGrows(actions, n, r, r', v);
    }
    ReadyGrows(actions, n, r, r', v);
    ResetGrows(actions, n, r, r', v);
    BootGrows(actions, n, r, r', v);
    SecondEntryGrows(actions, n, r, r', v);
  }

  lemma {:induction false} RecoveryBegins(actions: seq<Action>, n: nat)
    requires n < |actions| <= U64_MAX && !InCall(At(actions, n)) && InCall(At(actions, n + 1))
    ensures RecoveryOk(actions, n + 1, At(actions, n + 1).tasks[0].init, Recovery(0, 0, 0, 0, 0))
  {
    Step(actions, n);
    CountedAt(actions, n);
    OnlyStartBegins(At(actions, n), actions[n]);
  }

  /** Every running call has such a history. */
  lemma {:induction false} RecoveryExists(actions: seq<Action>, m: nat) returns (v: Recovery)
    requires m <= |actions| <= U64_MAX && InCall(At(actions, m))
    ensures RecoveryOk(actions, m, At(actions, m).tasks[0].init, v)
  {
    v := Recovery(0, 0, 0, 0, 0);
    if m > 0 {
      var n := m - 1;
      if InCall(At(actions, n)) {
        v := RecoveryExists(actions, n);
        RecoveryFactsHold(actions, n);
        RecordOk(actions, n);
        RecoveryGrows(actions, n, At(actions, n).tasks[0].init, At(actions, m).tasks[0].init, v);
        v := RecoveryAfter(v, At(actions, n), actions[n], At(actions, m).tasks[0].init, n);
      } else {
        RecoveryBegins(actions, n);
      }
    }
  }

  // ---------------------------------------------------------------------
  // Whom the reset is sent to
  // ---------------------------------------------------------------------

  /** Steps i and j see one device. */
  predicate OneDevice(actions: seq<Action>, i: nat, j: nat)
    requires i <= |actions| && j <= |actions|
  {
    var e, e' := At(actions, i).entry, At(actions, j).entry;
    e.identity.Some? && IsDevice(e', e.identity.value.stable)
  }

  ghost predicate AdmittedAndChecked(actions: seq<Action>, m: nat, admit: nat, check: nat)
    requires m <= |actions|
  {
    && admit < check < m
    && AdmitsCall(At(actions, admit), actions[admit]) && CallSince(actions, admit, m)
    && ChecksReset(At(actions, check), actions[check]) && ReadySince(actions, check, m)
    && OneSession(actions, admit, check) && OneDevice(actions, admit, check)
  }

  /**
    On every interleaving: a communication reset is sent only after a check that
    found the session of the admission of the call, with no other one in between,
    and the device of the admission; sending is the next thing the call does.
   */
  lemma {:induction false} ResetOnlyForAdmittedDevice(actions: seq<Action>, m: nat)
    requires m < |actions| <= U64_MAX && SendsReset(At(actions, m), actions[m])
    ensures exists admit, check :: AdmittedAndChecked(actions, m, admit, check)
  {
    var v := RecoveryExists(actions, m);
    CountedAt(actions, v.admit);
    CountedAt(actions, v.check);
    SameSessions(actions, v.admit, v.check);
    assert AdmittedAndChecked(actions, m, v.admit, v.check);
  }

  // ---------------------------------------------------------------------
  // Which device comes out of the call
  // ---------------------------------------------------------------------

  ghost predicate AdmittedDevice(actions: seq<Action>, m: nat, admit: nat)
    requires m <= |actions|
  {
    && admit < m && AdmitsCall(At(actions, admit), actions[admit]) && CallSince(actions, admit, m)
    && OneDevice(actions, admit, m)
  }

  lemma {:induction false} CommitsAt(actions: seq<Action>, m: nat)
    requires m < |actions| <= U64_MAX && BecomesInitialized(At(actions, m), actions[m])
    ensures InCall(At(actions, m)) && At(actions, m).tasks[0].init.phase.Commit?
    ensures IsDevice(At(actions, m).entry, At(actions, m).tasks[0].init.expected.stable)
  {
    ReachableSafe(actions[..m]);
    OnlyCommitInitializes(At(actions, m), actions[m]);
    RecordOk(actions, m);
    CommitContext(At(actions, m), actions[m]);
    assert TaskOk(At(actions, m).entry, At(actions, m).tasks[0]);
  }

  /**
    On every interleaving: a call of initialize turns only that device Initialized
    which it found at its admission, whether or not it sent a reset on the way.
   */
  lemma {:induction false} InitializedDeviceIsAdmitted(actions: seq<Action>, m: nat)
    requires m < |actions| <= U64_MAX
    ensures BecomesInitialized(At(actions, m), actions[m]) ==> exists admit :: AdmittedDevice(actions, m, admit)
  {
    if BecomesInitialized(At(actions, m), actions[m]) {
      CommitsAt(actions, m);
      var v := RecoveryExists(actions, m);
      assert AdmittedDevice(actions, m, v.admit);
    }
  }

  // ---------------------------------------------------------------------
  // What must happen in between
  // ---------------------------------------------------------------------

  lemma {:induction false} BootUpsCounted(actions: seq<Action>, k: nat)
    requires k < |actions| <= U64_MAX
    ensures At(actions, k + 1).entry.bootupRevision
            == At(actions, k).entry.bootupRevision + if HearsBootUp(At(actions, k), actions[k]) then 1 else 0
  {
    Step(actions, k);
    ReachableSafe(actions[..k]);
    BootUpStep(At(actions, k), actions[k]);
  }

  lemma {:induction false} BootUpStep(s: System, a: Action)
    requires Inv(s) && Room(s)
    ensures Next(s, a).entry.bootupRevision == s.entry.bootupRevision + if HearsBootUp(s, a) then 1 else 0
  {
    if a.Advance? && a.i < |s.tasks| && !s.tasks[a.i].Leaving? {
      assert TaskOk(s.entry, s.tasks[a.i]);
      TaskStepKept(s, s.tasks[a.i], a.input);
    }
  }

  lemma {:induction false} BootUpsGrow(actions: seq<Action>, i: nat, w: nat)
    requires i <= w <= |actions| <= U64_MAX
    ensures At(actions, i).entry.bootupRevision <= At(actions, w).entry.bootupRevision
  {
    if i < w {
      BootUpsGrow(actions, i, w - 1);
      BootUpsCounted(actions, w - 1);
    }
  }

  ghost predicate BootUpBetween(actions: seq<Action>, i: nat, w: nat)
    requires w <= |actions|
  {
    exists k :: i <= k < w && HearsBootUp(At(actions, k), actions[k])
  }

  lemma {:induction false} BootUpCounts(actions: seq<Action>, i: nat, k: nat, w: nat)
    requires i <= k < w <= |actions| <= U64_MAX && HearsBootUp(At(actions, k), actions[k])
    ensures At(actions, i).entry.bootupRevision < At(actions, w).entry.bootupRevision
  {
    BootUpsGrow(actions, i, k);
    BootUpsCounted(actions, k);
    BootUpsGrow(actions, k + 1, w);
  }

  lemma {:induction false} CountNeedsBootUp(actions: seq<Action>, i: nat, w: nat)
    requires i <= w <= |actions| <= U64_MAX
    requires At(actions, i).entry.bootupRevision != At(actions, w).entry.bootupRevision
    ensures BootUpBetween(actions, i, w)
  {
    if i < w {
      BootUpsCounted(actions, w - 1);
      if !HearsBootUp(At(actions, w - 1), actions[w - 1]) {
        CountNeedsBootUp(actions, i, w - 1);
      }
    }
  }

  /** Comparing two snapshots of the Boot-Up counter says exactly whether one was heard in between. */
  lemma {:induction false} BootUpBetweenExactly(actions: seq<Action>, i: nat, w: nat)
    requires i <= w <= |actions| <= U64_MAX
    ensures BootUpBetween(actions, i, w)
            <==> At(actions, i).entry.bootupRevision != At(actions, w).entry.bootupRevision
  {
    if At(actions, i).entry.bootupRevision != At(actions, w).entry.bootupRevision {
      CountNeedsBootUp(actions, i, w);
    } else {
      forall k | i <= k < w
        ensures !HearsBootUp(At(actions, k), actions[k])
      {
        if HearsBootUp(At(actions, k), actions[k]) {
          BootUpCounts(actions, i, k, w);
        }
      }
    }
  }

  /** The way from a reset sent at step i to the commit at m. */
  ghost predicate RecoveredBy(actions: seq<Action>, i: nat, m: nat, check: nat, boot: nat, enter: nat)
    requires m <= |actions|
  {
    && check < i < boot < enter < m
    && ChecksReset(At(actions, check), actions[check]) && ReadySince(actions, check, i)
    && LooksForRestart(At(actions, boot), actions[boot]) && BootUpBetween(actions, check, boot)
    && At(actions, check).sessions < At(actions, boot).sessions && HasRestarted(At(actions, boot).entry)
    && EntersPass(At(actions, enter), actions[enter]) && PassSince(actions, enter, m)
  }

  lemma {:induction false} OnlyReset(actions: seq<Action>, i: nat, j: nat, m: nat)
    requires i < m && j < m < |actions| <= U64_MAX && CallSince(actions, i, m) && CallSince(actions, j, m)
    requires SendsReset(At(actions, i), actions[i]) && SendsReset(At(actions, j), actions[j])
    ensures i == j
  {
    if i < j {
      ResetOncePerCall(actions, i, j);
    } else if j < i {
      ResetOncePerCall(actions, j, i);
    }
  }

  lemma {:induction false} WaitedForNewSession(actions: seq<Action>, r: InitRun, m: nat, check: nat, boot: nat)
    requires check < boot < m <= |actions| <= U64_MAX
    requires CheckedAt(actions, r, check) && WaitedAt(actions, m, r, check, boot)
    ensures At(actions, check).sessions < At(actions, boot).sessions && BootUpBetween(actions, check, boot)
  {
    CountedAt(actions, check);
    CountedAt(actions, boot);
    CountsGrow(actions, check, boot);
    BootUpBetweenExactly(actions, check, boot);
  }

  /**
    On every interleaving: if a call sends its reset at step i and makes the node
    Initialized at step m, then a Boot-Up was heard after the check that preceded
    the reset, when the call went on a new session had begun and the node was online
    and in Pre-Operational, and the pass that commits was entered after that.
   */
  lemma {:induction false} RecoveryNeedsBootUp(actions: seq<Action>, i: nat, m: nat)
    requires i < m < |actions| <= U64_MAX && SendsReset(At(actions, i), actions[i]) && CallSince(actions, i, m)
    ensures BecomesInitialized(At(actions, m), actions[m]) ==>
              exists check, boot, enter :: RecoveredBy(actions, i, m, check, boot, enter)
  {
    if BecomesInitialized(At(actions, m), actions[m]) {
      CommitsAt(actions, m);
      AfterResetPersists(actions, i, m);
      var v := RecoveryExists(actions, m);
      OnlyReset(actions, i, v.reset, m);
      WaitedForNewSession(actions, At(actions, m).tasks[0].init, m, v.check, v.boot);
      assert RecoveredBy(actions, i, m, v.check, v.boot, v.enter);
    }
  }

  /**
    The Boot-Up need not come after the reset itself: whenever a call is about to
    send it, a Boot-Up heard before the sending, and then a heartbeat in
    Pre-Operational after it, let the call go on as if the reset had worked.
   */
  lemma {:induction false} BootUpMayPrecedeReset(s: System)
    requires Inv(s) && Room(s) && ReadyToSend(s) && s.discovery.Idle?
    requires var r := s.tasks[0].init; r.phase.bootup == s.entry.bootupRevision && r.firstEpoch == s.entry.epoch
    ensures var heard := Next(Next(s, Heartbeat(BootUp)), Spawn);
            var sent := Next(heard, Advance(0, Nothing));
            var waited := Next(Next(sent, Heartbeat(PreOperational)), Advance(0, Nothing));
            && SendsReset(heard, Advance(0, Nothing))
            && sent.entry.bootupRevision == waited.entry.bootupRevision
            && InCall(waited) && waited.tasks[0].init.phase.Reidentify?
  {
    BootUpHeardEarly(s);
    RestartIsTaken(Next(Next(s, Heartbeat(BootUp)), Spawn));
  }

  lemma {:induction false} BootUpHeardEarly(s: System)
    requires Inv(s) && Room(s) && ReadyToSend(s) && s.discovery.Idle?
    ensures var heard := Next(Next(s, Heartbeat(BootUp)), Spawn);
            && heard.tasks == s.tasks && heard.discovery.Idle? && heard.entry.epoch == s.entry.epoch + 1
            && heard.entry.bootupRevision == s.entry.bootupRevision + 1
  {
  }

  lemma {:induction false} RestartIsTaken(s: System)
    requires ReadyToSend(s) && s.discovery.Idle?
    requires var r := s.tasks[0].init; r.phase.bootup != s.entry.bootupRevision && r.firstEpoch != s.entry.epoch
    ensures var sent := Next(s, Advance(0, Nothing));
            var waited := Next(Next(sent, Heartbeat(PreOperational)), Advance(0, Nothing));
            && sent.entry.bootupRevision == waited.entry.bootupRevision
            && InCall(waited) && waited.tasks[0].init.phase.Reidentify?
  {
  }
}
