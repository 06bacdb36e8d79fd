/**
  What the guarded steps of a run decide, in both directions: each is stated in
  terms of what the entry showed at earlier steps of the same run.
 */
module DecisionTheorems {
  import opened Wrappers
  import opened SessionEntry
  import opened SessionProtocol
  import opened SessionSafety
  import opened SessionTheorems
  import opened InitializationTheorems
  import opened ProvenanceTheorems
  import opened RecoveryTheorems

  // ---------------------------------------------------------------------
  // Commit and reset of an initialization
  // ---------------------------------------------------------------------

  /** The entry e is in the session and of the identity found at the entry of the pass, has not left
      the Operational state of the fence, and has shown a heartbeat. */
  predicate ContextKept(entered: Entry, fenced: Entry, e: Entry) {
    && e.epoch == entered.epoch && e.identity == entered.identity && e.nmtRevision == fenced.nmtRevision
    && e.lifecycle == Initializing && e.online && e.nmt == Some(Operational) && e.heartbeatSeen
  }

  predicate AtPhase(s: System, phase: InitPhase) {
    InCall(s) && s.tasks[0].init.phase == phase
  }

  /** The pass is given up: it will roll back, and send no reset. */
  predicate GivesUp(s: System) {
    AtPhase(s, Unwind) && !s.tasks[0].init.sticky
  }

  /** It will roll back, and then, in the first pass, look whether it may send the reset. */
  predicate TurnsToReset(s: System) {
    AtPhase(s, Unwind) && s.tasks[0].init.sticky
  }

  lemma {:induction false} CommitStepDecides(s: System, r: InitRun, input: Input)
    requires s.tasks == [Initing(r)] && r.phase == Commit
    ensures var e, s' := s.entry, Next(s, Advance(0, input));
            if && input == Waits(true) && e.epoch == r.epoch && e.identity == Some(r.identity)
               && e.nmtRevision == r.revision && e.lifecycle == Initializing && e.online
               && e.nmt == Some(Operational) && e.heartbeatSeen
            then s'.entry == e.(lifecycle := Initialized) && s'.tasks == [Leaving]
            else s'.entry == e && GivesUp(s')
  {
  }

  lemma {:induction false} LastStepDecides(s: System, r: InitRun, input: Input)
    requires s.tasks == [Initing(r)] && r.phase == Exhausted
    ensures var e, s' := s.entry, Next(s, Advance(0, input));
            && s'.entry == e
            && if && input == Waits(true) && r.last == Some(Observation(false, 0x8130))
                  && e.epoch == r.epoch && e.identity == Some(r.identity) && e.nmtRevision == r.revision
                  && e.lifecycle == Initializing && e.online && e.nmt == Some(Operational) && e.heartbeatSeen
               then TurnsToReset(s') else GivesUp(s')
  {
  }

  /**
    How a call comes to its fence. It is let in if the node is identified and not
    Unknown; it enters a pass unless one is under way; it then waits until the node is
    Operational.
   */
  lemma {:induction false} OpeningDecides(s: System, input: Input)
    requires InCall(s) && input != Fails
    ensures var r, e, s' := s.tasks[0].init, s.entry, Next(s, Advance(0, input));
            && (r.phase == Admit ==>
                  s'.entry == e
                  && if e.lifecycle != Unknown && e.identity.Some? then AtPhase(s', Enter) else s'.tasks == [Leaving])
            && (r.phase == Enter ==>
                  if e.lifecycle != Initializing && e.identity.Some?
                  then AtPhase(s', Configure) && s'.entry == e.(lifecycle := Initializing, tpdo2Clean := false)
                  else s'.tasks == [Leaving] && s'.entry == e)
            && (r.phase == Configure ==>
                  s'.entry == e && AtPhase(s', if e.nmt == Some(Operational) then Fence else Configure))
  {
  }

  /** The entry e is in the session and of the identity found at the entry of the pass, and Operational. */
  predicate ContextReached(entered: Entry, e: Entry) {
    && e.epoch == entered.epoch && e.identity == entered.identity && e.lifecycle == Initializing
    && e.online && e.nmt == Some(Operational)
  }

  lemma {:induction false} FenceStepTaken(s: System, r: InitRun, input: Input)
    requires s.tasks == [Initing(r)] && r.phase == Fence
    ensures var e, s' := s.entry, Next(s, Advance(0, input));
            && s'.entry == e
            && if && input != Fails && e.epoch == r.epoch && e.identity == Some(r.identity)
                  && e.lifecycle == Initializing && e.online && e.nmt == Some(Operational)
               then AtPhase(s', Attempt) else GivesUp(s')
  {
  }

  /**
    On every interleaving, a call takes its fence if and only if the entry shows the
    session and the identity found at the entry of the pass, Initializing, online and
    Operational. Otherwise the pass is given up.
   */
  lemma {:induction false} FenceTakenExactly(actions: seq<Action>, m: nat, input: Input) returns (enter: nat)
    requires m < |actions| <= U64_MAX && AtPhase(At(actions, m), Fence) && actions[m] == Advance(0, input)
    ensures enter < m && EntersPass(At(actions, enter), actions[enter]) && PassSince(actions, enter, m)
    ensures var e, s' := At(actions, m).entry, At(actions, m + 1);
            && s'.entry == e
            && if input != Fails && ContextReached(At(actions, enter).entry, e) then AtPhase(s', Attempt)
               else GivesUp(s')
  {
    var h := HistoryExists(actions, m);
    enter := h.enter;
    Step(actions, m);
    FenceStepTaken(At(actions, m), At(actions, m).tasks[0].init, input);
  }

  /** Where a pass stands after an attempt that did not clear the fault: `tried` attempts are over. */
  function AfterFailure(r: InitRun, tried: nat): InitPhase {
    if tried < r.attempts then Attempt else Exhausted
  }

  /** What one attempt decides, and what the wait for TPDO2 after a clean one. */
  lemma {:induction false} AttemptDecides(s: System, input: Input)
    requires InCall(s) && input != Fails
    ensures var r, e, s' := s.tasks[0].init, s.entry, Next(s, Advance(0, input));
            && (r.phase == Attempt ==>
                  && s'.entry == e
                  && if !input.Observed? then GivesUp(s')
                     else AtPhase(s', if input.observation == Some(Observation(false, 0)) then Converge(e.tpdo2Revision)
                                      else AfterFailure(r, r.tried + 1)))
            && (r.phase.Converge? ==>
                  && s'.entry == e
                  && AtPhase(s', if input != Waits(true) then AfterFailure(r, r.tried)
                                 else if e.tpdo2Revision != r.phase.baseline && e.tpdo2Clean then Commit
                                 else r.phase))
  {
  }

  /**
    On every interleaving, a step of a call that is about to commit makes the node
    Initialized if and only if the wait of its input found the heartbeat fresh and
    the entry shows the session and the identity found at the entry of the pass, the
    NMT revision found at the fence, Initializing, online, Operational and a
    heartbeat. Otherwise the pass is given up.
   */
  lemma {:induction false} CommitExactly(actions: seq<Action>, m: nat, input: Input) returns (h: History)
    requires m < |actions| <= U64_MAX && AtPhase(At(actions, m), Commit) && actions[m] == Advance(0, input)
    ensures CommitHistory(actions, h, m)
    ensures var s, s' := At(actions, m), At(actions, m + 1);
            if input == Waits(true) && ContextKept(At(actions, h.enter).entry, At(actions, h.fence).entry, s.entry)
            then s'.entry == s.entry.(lifecycle := Initialized) && s'.tasks == [Leaving]
            else s'.entry == s.entry && GivesUp(s')
  {
    h := HistoryExists(actions, m);
    RecordOk(actions, m);
    Step(actions, m);
    CommitStepDecides(At(actions, m), At(actions, m).tasks[0].init, input);
  }

  /** The call whose attempts are used up at step m: how it began, and its last attempt. */
  ghost predicate ExhaustedHistory(actions: seq<Action>, h: History, m: nat)
    requires m < |actions|
  {
    && h.start < h.enter < h.fence < h.attempt < m
    && StartsCall(At(actions, h.start), actions[h.start]) && CallSince(actions, h.start, m)
    && EntersPass(At(actions, h.enter), actions[h.enter]) && PassSince(actions, h.enter, m)
    && TakesFence(At(actions, h.fence), actions[h.fence]) && FencedSince(actions, h.fence, m)
    && MakesAttempt(At(actions, h.attempt), actions[h.attempt]) && NoAttemptSince(actions, h.attempt, m)
    && AttemptsMade(actions, h.enter, m) == Attempts(actions[h.start].request.attempts)
  }

  /**
    On every interleaving, a pass that has used up its attempts turns to the reset if
    and only if the last attempt read both objects, with the fault bit clear and
    error code 0x8130, and the context would have let it commit. Otherwise it is given up.
   */
  lemma {:induction false} ResetDecidedExactly(actions: seq<Action>, m: nat, input: Input) returns (h: History)
    requires m < |actions| <= U64_MAX && AtPhase(At(actions, m), Exhausted) && actions[m] == Advance(0, input)
    ensures ExhaustedHistory(actions, h, m)
    ensures var s, s' := At(actions, m), At(actions, m + 1);
            && s'.entry == s.entry
            && if && input == Waits(true)
                  && ContextKept(At(actions, h.enter).entry, At(actions, h.fence).entry, s.entry)
                  && actions[h.attempt].input == Observed(Some(Observation(false, 0x8130)))
               then TurnsToReset(s') else GivesUp(s')
  {
    h := HistoryExists(actions, m);
    RecordOk(actions, m);
    Step(actions, m);
    LastStepDecides(At(actions, m), At(actions, m).tasks[0].init, input);
  }

  /** The end of a pass: a node still Initializing goes back to Identified or Unknown; the call
      goes on to the reset only from its first pass. */
  lemma {:induction false} UnwindDecides(s: System, input: Input)
    requires AtPhase(s, Unwind)
    ensures var r, e, s' := s.tasks[0].init, s.entry, Next(s, Advance(0, input));
            && s'.entry == e.(lifecycle := if e.lifecycle != Initializing then e.lifecycle
                                           else if e.identity == None then Unknown else Identified)
            && if r.sticky && !r.second then AtPhase(s', ResetReady) else s'.tasks == [Leaving]
  {
  }

  /**
    On every interleaving, the check before the reset lets it be sent if and only if
    the session is that of the admission and the node is the device found there.
   */
  lemma {:induction false} ResetCheckedExactly(actions: seq<Action>, m: nat, input: Input) returns (admit: nat)
    requires m < |actions| <= U64_MAX && AtPhase(At(actions, m), ResetReady) && actions[m] == Advance(0, input)
    ensures admit < m && AdmitsCall(At(actions, admit), actions[admit]) && CallSince(actions, admit, m)
    ensures var e, e', s' := At(actions, admit).entry, At(actions, m).entry, At(actions, m + 1);
            if && input != Fails && e'.epoch == e.epoch && e.identity.Some? && e'.identity.Some?
               && e'.identity.value.stable == e.identity.value.stable
            then ReadyToSend(s') else s'.tasks == [Leaving]
  {
    var v := RecoveryExists(actions, m);
    admit := v.admit;
    Step(actions, m);
  }

  /**
    On every interleaving, a call waiting after its reset goes on if and only if the
    entry counts another Boot-Up than at the check before the reset, is in another
    session than at the admission, and is online in Pre-Operational.
   */
  lemma {:induction false} RestartTakenExactly(actions: seq<Action>, m: nat, input: Input) returns (v: Recovery)
    requires m < |actions| <= U64_MAX && InCall(At(actions, m)) && At(actions, m).tasks[0].init.phase.BootWait?
    requires actions[m] == Advance(0, input) && input != Fails
    ensures v.admit < v.check < v.reset < m
    ensures AdmitsCall(At(actions, v.admit), actions[v.admit]) && ChecksReset(At(actions, v.check), actions[v.check])
    ensures SendsReset(At(actions, v.reset), actions[v.reset]) && CallSince(actions, v.admit, m)
    ensures var e, s' := At(actions, m).entry, At(actions, m + 1);
            if && e.bootupRevision != At(actions, v.check).entry.bootupRevision
               && e.epoch != At(actions, v.admit).entry.epoch && e.online && e.nmt == Some(PreOperational)
            then InCall(s') && s'.tasks[0].init.phase == Reidentify(Reader(Reading, e.epoch))
            else s' == At(actions, m)
  {
    v := RecoveryExists(actions, m);
    Step(actions, m);
  }

  // ---------------------------------------------------------------------
  // Settings transactions
  // ---------------------------------------------------------------------

  /** Online, heard, and in a state that takes settings. */
  predicate MayBeConfigured(e: Entry) {
    e.online && e.heartbeatSeen && (e.nmt == Some(PreOperational) || e.nmt == Some(Stopped))
  }

  /** The session and the NMT state are those of the entry at the pinning. */
  predicate SameState(pinned: Entry, e: Entry) {
    e.epoch == pinned.epoch && e.nmtRevision == pinned.nmtRevision && e.nmt == pinned.nmt
  }

  predicate InFencedPhase(r: SetRun) {
    r.phase == Prepare || r.phase.Before? || r.phase.Issued?
  }

  predicate AtSetPhase(s: System, phase: SetPhase) {
    InSettings(s) && s.tasks[0].run.phase == phase
  }

  /** A transaction pins its session if and only if the node may be configured. */
  lemma {:induction false} CaptureExactly(s: System, input: Input)
    requires AtSetPhase(s, Capture)
    ensures var s' := Next(s, Advance(0, input));
            && s'.entry == s.entry
            && if input != Fails && MayBeConfigured(s.entry) then AtSetPhase(s', Prepare) else s'.tasks == [Leaving]
  {
  }

  /** Where a transaction stands after a fence that holds. */
  function PhaseAfter(r: SetRun): SetPhase
    requires InFencedPhase(r)
  {
    match r.phase
    case Prepare => Before(0)
    case Before(i) => if i < r.writes then Cleared(i) else Cache
    case Issued(i) => Before(i + 1)
  }

  lemma {:induction false} FenceStepDecides(s: System, r: SetRun, pinned: Entry, input: Input)
    requires s.tasks == [Setting(r)] && InFencedPhase(r) && Pinned(s, pinned)
    ensures var s' := Next(s, Advance(0, input));
            && s'.entry == s.entry
            && if input != Fails && MayBeConfigured(s.entry) && SameState(pinned, s.entry)
               then s'.tasks == [Setting(r.(phase := PhaseAfter(r)))] else s'.tasks == [Leaving]
  {
  }

  /**
    On every interleaving, a transaction that pinned its session at step c goes on
    past a fence at step m, before, between or after its writes, if and only if the
    node may still be configured and shows the session, the NMT revision and the NMT
    state of c. Otherwise it ends there.
   */
  lemma {:induction false} FenceHoldsExactly(actions: seq<Action>, m: nat, input: Input) returns (c: nat)
    requires m < |actions| <= U64_MAX && InSettings(At(actions, m)) && InFencedPhase(At(actions, m).tasks[0].run)
    requires actions[m] == Advance(0, input)
    ensures c < m && Captures(At(actions, c), actions[c]) && TransactionSince(actions, c, m)
    ensures var s, s' := At(actions, m), At(actions, m + 1);
            && s'.entry == s.entry
            && if input != Fails && MayBeConfigured(s.entry) && SameState(At(actions, c).entry, s.entry)
               then AtSetPhase(s', PhaseAfter(s.tasks[0].run)) else s'.tasks == [Leaving]
  {
    var i;
    i, c := TransactionHasHistory(actions, m);
    MarksPersist(actions, c, m);
    Step(actions, m);
    FenceStepDecides(At(actions, m), At(actions, m).tasks[0].run, At(actions, c).entry, input);
  }

  lemma {:induction false} CacheStepDecides(s: System, r: SetRun, pinned: Entry, input: Input)
    requires s.tasks == [Setting(r)] && r.phase == Cache && Pinned(s, pinned)
    ensures var s' := Next(s, Advance(0, input));
            && s'.tasks == [Leaving]
            && s'.entry == if input != Fails && s.entry.online && SameState(pinned, s.entry)
                           then s.entry.(canConfig := Available(r.target)) else s.entry
  {
  }

  // ---------------------------------------------------------------------
  // The writes of a transaction
  // ---------------------------------------------------------------------

  /** How many writes were issued from step c on, before step m. */
  function WritesIssued(actions: seq<Action>, c: nat, m: nat): nat
    requires c <= m <= |actions|
  {
    if c == m then 0
    else WritesIssued(actions, c, m - 1) + if IssuesWrite(At(actions, m - 1), actions[m - 1]) then 1 else 0
  }

  /** The number of writes a running transaction has issued, by its phase. */
  predicate Issues(r: SetRun, issued: nat) {
    match r.phase
    case Capture => false
    case Prepare => issued == 0
    case Before(i) => issued == i <= r.writes
    case Cleared(i) => issued == i < r.writes
    case Issued(i) => issued == i + 1 <= r.writes
    case Cache => issued == r.writes
  }

  lemma {:induction false} SettingsStepIssues(s: System, r: SetRun, input: Input, issued: nat)
    requires Issues(r, issued) && SettingsStep(s, r, input).task.Setting?
    ensures Issues(SettingsStep(s, r, input).task.run, issued + if r.phase.Cleared? then 1 else 0)
  {
  }

  lemma {:induction false} IssuesGrow(s: System, a: Action, issued: nat)
    requires Exclusive(s) && InTransaction(s) && InTransaction(Next(s, a)) && Issues(s.tasks[0].run, issued)
    ensures Issues(Next(s, a).tasks[0].run, issued + if IssuesWrite(s, a) then 1 else 0)
  {
    if Advances(a) {
      if !a.input.Fails? {
        SettingsStepIssues(s, s.tasks[0].run, a.input, issued);
      }
    } else {
      OthersLeaveTask(s, a);
    }
  }

  lemma {:induction false} CaptureIssues(s: System, a: Action)
    requires Captures(s, a)
    ensures Issues(Next(s, a).tasks[0].run, 0) && !IssuesWrite(s, a)
  {
  }

  ghost predicate IssuesAt(actions: seq<Action>, c: nat, m: nat)
    requires c <= m <= |actions|
  {
    InTransaction(At(actions, m)) && Issues(At(actions, m).tasks[0].run, WritesIssued(actions, c, m))
  }

  lemma {:induction false} IssuedSince(actions: seq<Action>, c: nat, m: nat)
    requires c < m <= |actions| <= U64_MAX
    requires Captures(At(actions, c), actions[c]) && TransactionSince(actions, c, m)
    ensures IssuesAt(actions, c, m)
  {
    CaptureIssuesAt(actions, c);
    IssuedFrom(actions, c, m);
  }

  lemma {:induction false} IssuedFrom(actions: seq<Action>, c: nat, m: nat)
    requires c < m <= |actions| <= U64_MAX
    requires IssuesAt(actions, c, c + 1) && TransactionSince(actions, c, m)
    ensures IssuesAt(actions, c, m)
  {
    if m > c + 1 {
      IssuedFrom(actions, c, m - 1);
      IssuesGrowAt(actions, c, m - 1);
    }
  }

  lemma {:induction false} CaptureIssuesAt(actions: seq<Action>, c: nat)
    requires c < |actions| && Captures(At(actions, c), actions[c])
    ensures IssuesAt(actions, c, c + 1)
  {
    Step(actions, c);
    CaptureIssues(At(actions, c), actions[c]);
    assert WritesIssued(actions, c, c + 1) == WritesIssued(actions, c, c) + 0;
  }

  lemma {:induction false} IssuesGrowAt(actions: seq<Action>, c: nat, k: nat)
    requires c <= k < |actions| <= U64_MAX && IssuesAt(actions, c, k) && InTransaction(At(actions, k + 1))
    ensures IssuesAt(actions, c, k + 1)
  {
    Step(actions, k);
    CountedAt(actions, k);
    IssuesGrow(At(actions, k), actions[k], WritesIssued(actions, c, k));
  }

  /** The transaction that ends at step m: asked for at i, and its session pinned at c. */
  ghost predicate TransactionAt(actions: seq<Action>, i: nat, c: nat, m: nat)
    requires m < |actions|
  {
    && i < c < m && StartsSettings(At(actions, i), actions[i]) && SettingsSince(actions, i, m)
    && Captures(At(actions, c), actions[c]) && TransactionSince(actions, c, m)
  }

  /**
    On every interleaving, a transaction that comes to cache its settings has issued
    exactly the writes it was asked for. It caches the target it was asked for if and
    only if the node is online and shows the session, the NMT revision and the NMT
    state of the pinning; it changes nothing else.
   */
  lemma {:induction false} CachedExactly(actions: seq<Action>, m: nat, input: Input) returns (i: nat, c: nat)
    requires m < |actions| <= U64_MAX && AtSetPhase(At(actions, m), Cache) && actions[m] == Advance(0, input)
    ensures TransactionAt(actions, i, c, m) && WritesIssued(actions, c, m) == actions[i].request.writes
    ensures var s, s' := At(actions, m), At(actions, m + 1);
            && s'.tasks == [Leaving]
            && s'.entry == if input != Fails && s.entry.online && SameState(At(actions, c).entry, s.entry)
                           then s.entry.(canConfig := Available(actions[i].request.target)) else s.entry
  {
    i, c := TransactionHasHistory(actions, m);
    MarksPersist(actions, c, m);
    IssuedSince(actions, c, m);
    Step(actions, m);
    CacheStepDecides(At(actions, m), At(actions, m).tasks[0].run, At(actions, c).entry, input);
  }

  // ---------------------------------------------------------------------
  // Identifications
  // ---------------------------------------------------------------------

  predicate HoldsIdentity(s: System, x: Identity) {
    ReaderOf(s).Some? && ReaderOf(s).value.phase == Found(x)
  }

  predicate HoldsConfig(s: System, status: CanConfig) {
    ReaderOf(s).Some? && ReaderOf(s).value.phase == HaveConfig(status)
  }

  /** The call accepts only the device it was admitted for. */
  predicate Welcome(t: Task, x: Identity) {
    t.Initing? ==> x.stable == t.init.expected.stable
  }

  lemma {:induction false} IdentityStepDecides(s: System, x: Identity, input: Input)
    requires HoldsIdentity(s, x)
    ensures var s' := Next(s, Advance(0, input));
            if input != Fails && s.entry.epoch == ReaderOf(s).value.epoch && Welcome(s.tasks[0], x)
            then s'.entry == s.entry.(identity := Some(x), canConfig := Pending,
                                      lifecycle := if s.entry.lifecycle == Unknown then Identified
                                                   else s.entry.lifecycle)
                 && ReaderOf(s') == Some(ReaderOf(s).value.(phase := Configuring))
            else s'.entry == s.entry && s'.tasks == [Leaving]
  {
  }

  lemma {:induction false} ConfigStepDecides(s: System, status: CanConfig, input: Input)
    requires HoldsConfig(s, status)
    ensures Next(s, Advance(0, input)).entry
            == if input != Fails && s.entry.epoch == ReaderOf(s).value.epoch then s.entry.(canConfig := status)
               else s.entry
  {
  }

  /**
    On every interleaving, an identity read from the device is stored if and only if
    the session is still the one in which the identification that read it began or,
    for the automatic one, was asked for; after a reset it must also be the device the
    call was admitted for. Storing it makes an Unknown node Identified.
   */
  lemma {:induction false} IdentityStoredExactly(actions: seq<Action>, m: nat, x: Identity, input: Input)
    returns (h: Answers)
    requires m < |actions| <= U64_MAX && HoldsIdentity(At(actions, m), x) && actions[m] == Advance(0, input)
    ensures h.begin < h.identity < m && BeginsRead(At(actions, h.begin), actions[h.begin])
    ensures ReadsSince(actions, h.begin, m) && ReadsIdentity(At(actions, h.identity), actions[h.identity], x)
    ensures var s, s' := At(actions, m), At(actions, m + 1);
            s'.entry == if && input != Fails && Welcome(s.tasks[0], x)
                           && s.entry.epoch == SessionRead(At(actions, h.begin), actions[h.begin])
                        then s.entry.(identity := Some(x), canConfig := Pending,
                                      lifecycle := if s.entry.lifecycle == Unknown then Identified
                                                   else s.entry.lifecycle)
                        else s.entry
  {
    h := ReaderHasHistory(actions, m);
    Step(actions, m);
    IdentityStepDecides(At(actions, m), x, input);
  }

  /** The same for the configuration. */
  lemma {:induction false} ConfigStoredExactly(actions: seq<Action>, m: nat, status: CanConfig, input: Input)
    returns (h: Answers)
    requires m < |actions| <= U64_MAX && HoldsConfig(At(actions, m), status) && actions[m] == Advance(0, input)
    ensures h.begin < h.config < m && BeginsRead(At(actions, h.begin), actions[h.begin])
    ensures ReadsSince(actions, h.begin, m) && ReadsConfig(At(actions, h.config), actions[h.config], status)
    ensures var s, s' := At(actions, m), At(actions, m + 1);
            s'.entry == if && input != Fails
                           && s.entry.epoch == SessionRead(At(actions, h.begin), actions[h.begin])
                        then s.entry.(canConfig := status) else s.entry
  {
    h := ReaderHasHistory(actions, m);
    Step(actions, m);
    ConfigStepDecides(At(actions, m), status, input);
  }
}
