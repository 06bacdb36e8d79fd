/**
  What the invariants of the session protocol mean for its callers.
 */
module SessionTheorems {
  import opened Wrappers
  import opened SessionEntry
  import opened SessionProtocol
  import opened SessionSafety

  /** The state before step k of a run. */
  function At(actions: seq<Action>, k: nat): System
    requires k <= |actions|
  {
    Run(actions[..k])
  }

  lemma {:induction false} Step(actions: seq<Action>, k: nat)
    requires k < |actions|
    ensures At(actions, k + 1) == Next(At(actions, k), actions[k])
  {
    assert actions[..k + 1][..k] == actions[..k];
  }

  /** A Boot-Up, a change of NMT state, or an offline edge. */
  predicate IsChange(s: System, a: Action) {
    || (a.Heartbeat? && s.discovery.Idle? && (a.state.BootUp? || s.entry.nmt != Some(a.state)))
    || (a.Liveness? && a.silent && s.entry.online)
  }

  /** A Boot-Up or an offline edge. */
  predicate StartsSession(s: System, a: Action) {
    (a == Heartbeat(BootUp) && s.discovery.Idle?) || (a.Liveness? && a.silent && s.entry.online)
  }

  /** Sessions are counted one by one. */
  lemma {:induction false} SessionsCounted(s: System, a: Action)
    ensures Next(s, a).sessions == s.sessions + if StartsSession(s, a) then 1 else 0
  {
  }

  /** The two counts grow exactly when such a change happens. */
  lemma {:induction false} ChangesCounted(s: System, a: Action)
    ensures s.sessions <= Next(s, a).sessions && s.nmtChanges <= Next(s, a).nmtChanges
    ensures IsChange(s, a) <==> Next(s, a).sessions + Next(s, a).nmtChanges > s.sessions + s.nmtChanges
  {
  }

  lemma {:induction false} CountsGrow(actions: seq<Action>, i: nat, j: nat)
    requires i <= j <= |actions|
    ensures At(actions, i).sessions <= At(actions, j).sessions && At(actions, i).nmtChanges <= At(actions, j).nmtChanges
  {
    if i < j {
      CountsGrow(actions, i, j - 1);
      CountsStep(actions, j - 1);
    }
  }

  lemma {:induction false} CountsStep(actions: seq<Action>, k: nat)
    requires k < |actions|
    ensures At(actions, k).sessions <= At(actions, k + 1).sessions
    ensures At(actions, k).nmtChanges <= At(actions, k + 1).nmtChanges
  {
    Step(actions, k);
    ChangesCounted(At(actions, k), actions[k]);
  }

  lemma {:induction false} ChangeStep(actions: seq<Action>, k: nat)
    requires k < |actions|
    ensures IsChange(At(actions, k), actions[k])
            <==> At(actions, k + 1).sessions + At(actions, k + 1).nmtChanges
                 > At(actions, k).sessions + At(actions, k).nmtChanges
  {
    Step(actions, k);
    ChangesCounted(At(actions, k), actions[k]);
  }

  // ---------------------------------------------------------------------
  // One session, no change
  // ---------------------------------------------------------------------

  ghost predicate OneSession(actions: seq<Action>, i: nat, m: nat)
    requires m <= |actions|
  {
    forall k :: i <= k <= m ==> At(actions, k).sessions == At(actions, m).sessions
  }

  ghost predicate NoChange(actions: seq<Action>, i: nat, m: nat)
    requires m < |actions|
  {
    forall k :: i <= k <= m ==> !IsChange(At(actions, k), actions[k])
  }

  lemma {:induction false} SameSessions(actions: seq<Action>, i: nat, m: nat)
    requires i <= m <= |actions| && At(actions, i).sessions == At(actions, m).sessions
    ensures OneSession(actions, i, m)
  {
    forall k | i <= k <= m
      ensures At(actions, k).sessions == At(actions, m).sessions
    {
      CountsGrow(actions, i, k);
      CountsGrow(actions, k, m);
    }
  }

  lemma {:induction false} SameCounts(actions: seq<Action>, i: nat, m: nat)
    requires i <= m < |actions| && !IsChange(At(actions, m), actions[m])
    requires At(actions, i).sessions == At(actions, m).sessions
             && At(actions, i).nmtChanges == At(actions, m).nmtChanges
    ensures NoChange(actions, i, m)
  {
    forall k | i <= k <= m
      ensures !IsChange(At(actions, k), actions[k])
    {
      if k < m {
        NoChangeWithin(actions, i, k, m);
      }
    }
  }

  /** The counts of a reachable state are those its entry keeps. */
  lemma {:induction false} CountedAt(actions: seq<Action>, k: nat)
    requires k <= |actions| <= U64_MAX
    ensures Counted(At(actions, k)) && Exclusive(At(actions, k))
  {
    ReachableSafe(actions[..k]);
  }

  // ---------------------------------------------------------------------
  // The running task
  // ---------------------------------------------------------------------

  /** The one running task takes a step. */
  predicate Advances(a: Action) {
    a.Advance? && a.i == 0
  }

  /** Any other action leaves it alone. */
  lemma {:induction false} OthersLeaveTask(s: System, a: Action)
    requires Exclusive(s) && |s.tasks| == 1 && !Advances(a)
    ensures Next(s, a).tasks == s.tasks
  {
  }

  // ---------------------------------------------------------------------
  // Settings transactions
  // ---------------------------------------------------------------------

  /** A settings transaction that has pinned its session is running. */
  predicate InTransaction(s: System) {
    |s.tasks| == 1 && s.tasks[0].Setting? && !s.tasks[0].run.phase.Capture?
  }

  ghost predicate TransactionSince(actions: seq<Action>, c: nat, m: nat)
    requires m <= |actions|
  {
    forall k :: c < k <= m ==> InTransaction(At(actions, k))
  }

  predicate Captures(s: System, a: Action) {
    && |s.tasks| == 1 && s.tasks[0].Setting? && s.tasks[0].run.phase.Capture?
    && InTransaction(Next(s, a))
  }

  /** The transaction caches its settings and returns Ok. */
  predicate CommitsSettings(s: System, a: Action) {
    && InTransaction(s) && s.tasks[0].run.phase.Cache? && a.Advance? && a.i == 0 && !a.input.Fails?
    && CachedSettings(s.entry, s.tasks[0].run.token, s.tasks[0].run.target).Some?
  }

  /** Its token is of the session and the NMT state of the given entry. */
  predicate Pinned(s: System, e: Entry) {
    && InTransaction(s) && s.tasks[0].run.token.epoch == e.epoch && s.tasks[0].run.token.revision == e.nmtRevision
    && e.nmt == Some(s.tasks[0].run.token.nmt)
  }

  lemma {:induction false} CaptureMarks(s: System, a: Action)
    requires Captures(s, a)
    ensures Pinned(Next(s, a), s.entry) && !IsChange(s, a)
  {
  }

  lemma {:induction false} SettingsKeepToken(s: System, r: SetRun, input: Input)
    requires !r.phase.Capture?
    ensures var t := SettingsStep(s, r, input).task;
            t.Setting? ==> !t.run.phase.Capture? && t.run.token == r.token
  {
  }

  lemma {:induction false} MarksStay(s: System, a: Action, e: Entry)
    requires Exclusive(s) && Pinned(s, e) && InTransaction(Next(s, a))
    ensures Pinned(Next(s, a), e)
  {
    if a.Advance? && a.i == 0 {
      SettingsKeepToken(s, s.tasks[0].run, a.input);
    }
  }

  lemma {:induction false} MarksPersist(actions: seq<Action>, c: nat, m: nat)
    requires |actions| <= U64_MAX && c < m <= |actions|
    requires Captures(At(actions, c), actions[c]) && TransactionSince(actions, c, m)
    ensures Pinned(At(actions, m), At(actions, c).entry)
  {
    if m == c + 1 {
      CaptureMarksAt(actions, c);
    } else {
      MarksPersist(actions, c, m - 1);
      MarksStayAt(actions, m - 1, At(actions, c).entry);
    }
  }

  lemma {:induction false} CaptureMarksAt(actions: seq<Action>, c: nat)
    requires c < |actions| <= U64_MAX && Captures(At(actions, c), actions[c])
    ensures Pinned(At(actions, c + 1), At(actions, c).entry)
  {
    Step(actions, c);
    CaptureMarks(At(actions, c), actions[c]);
  }

  lemma {:induction false} MarksStayAt(actions: seq<Action>, k: nat, e: Entry)
    requires |actions| <= U64_MAX && k < |actions|
    requires Pinned(At(actions, k), e) && InTransaction(At(actions, k + 1))
    ensures Pinned(At(actions, k + 1), e)
  {
    Step(actions, k);
    ReachableSafe(actions[..k]);
    MarksStay(At(actions, k), actions[k], e);
  }

  /** A commit finds the session and the NMT state it pinned. */
  lemma {:induction false} CommitFindsMarks(s: System, a: Action)
    requires CommitsSettings(s, a)
    ensures Pinned(s, s.entry)
  {
  }

  /**
    On every interleaving: if a settings transaction pinned its session at step c
    and returned Ok at step m, then no Boot-Up, offline edge or change of NMT
    state happened from c to m.
   */
  lemma {:induction false} SettingsAreAbaFree(actions: seq<Action>, c: nat, m: nat, k: nat)
    requires |actions| <= U64_MAX && c < m < |actions| && c <= k <= m
    requires Captures(At(actions, c), actions[c]) && TransactionSince(actions, c, m)
    requires CommitsSettings(At(actions, m), actions[m])
    ensures !IsChange(At(actions, k), actions[k])
  {
    MarksPersist(actions, c, m);
    CountedAt(actions, c);
    CountedAt(actions, m);
    CommitFindsMarks(At(actions, m), actions[m]);
    if k < m {
      NoChangeWithin(actions, c, k, m);
    }
  }

  /** Equal counts at two moments: nothing changed in between. */
  lemma {:induction false} NoChangeWithin(actions: seq<Action>, c: nat, k: nat, m: nat)
    requires c <= k < m <= |actions|
    requires At(actions, c).sessions == At(actions, m).sessions
             && At(actions, c).nmtChanges == At(actions, m).nmtChanges
    ensures !IsChange(At(actions, k), actions[k])
  {
    CountsGrow(actions, c, k);
    CountsGrow(actions, k + 1, m);
    ChangeStep(actions, k);
  }

  /** The transaction puts a planned write on the bus, whether or not the write succeeds. */
  predicate IssuesWrite(s: System, a: Action) {
    InTransaction(s) && s.tasks[0].run.phase.Cleared? && a.Advance? && a.i == 0
  }

  /** The token is of an earlier session or NMT state. */
  predicate Outdated(s: System, r: SetRun) {
    r.token.epoch + r.token.revision < s.sessions + s.nmtChanges
  }

  /** The transaction has issued a write and its session or NMT state is over. */
  predicate Late(s: System) {
    InTransaction(s) && s.tasks[0].run.phase.Issued? && Outdated(s, s.tasks[0].run)
  }

  lemma {:induction false} LateIssue(s: System, a: Action)
    requires IssuesWrite(s, a) && InTransaction(Next(s, a)) && Outdated(s, s.tasks[0].run)
    ensures Late(Next(s, a))
  {
  }

  /** From then on it issues nothing: the next fence fails. */
  lemma {:induction false} LateStays(s: System, a: Action)
    requires Inv(s) && Late(s) && InTransaction(Next(s, a))
    ensures Late(Next(s, a))
  {
    ChangesCounted(s, a);
    if a.Advance? && a.i == 0 {
      LateCannotContinue(s, s.tasks[0].run, a.input);
    }
  }

  lemma {:induction false} LateCannotContinue(s: System, r: SetRun, input: Input)
    requires Counted(s) && r.phase.Issued? && Outdated(s, r)
    ensures TaskStep(s, Setting(r), input).task == Leaving
  {
  }

  lemma {:induction false} LatePersists(actions: seq<Action>, i: nat, j: nat)
    requires |actions| <= U64_MAX && i <= j <= |actions| && Late(At(actions, i))
    requires TransactionSince(actions, i, j)
    ensures Late(At(actions, j))
  {
    if i < j {
      LatePersists(actions, i, j - 1);
      LateStaysAt(actions, j - 1);
    }
  }

  lemma {:induction false} LateStaysAt(actions: seq<Action>, k: nat)
    requires k < |actions| <= U64_MAX && Late(At(actions, k)) && InTransaction(At(actions, k + 1))
    ensures Late(At(actions, k + 1))
  {
    ReachableSafe(actions[..k]);
    Step(actions, k);
    LateStays(At(actions, k), actions[k]);
  }

  /**
    On every interleaving, also of transactions that fail: a transaction that
    pinned its session at step c issues at most one write after a Boot-Up, an
    offline edge or a change of NMT state at step k.
   */
  lemma {:induction false} AtMostOneLateWrite(actions: seq<Action>, c: nat, k: nat, i: nat, j: nat)
    requires c < k < i < j < |actions| <= U64_MAX
    requires Captures(At(actions, c), actions[c]) && TransactionSince(actions, c, j)
    requires IsChange(At(actions, k), actions[k]) && IssuesWrite(At(actions, i), actions[i])
    ensures !IssuesWrite(At(actions, j), actions[j])
  {
    LateAfterIssue(actions, c, k, i);
    LatePersists(actions, i + 1, j);
  }

  lemma {:induction false} LateAfterIssue(actions: seq<Action>, c: nat, k: nat, i: nat)
    requires c < k < i < |actions| <= U64_MAX
    requires Captures(At(actions, c), actions[c]) && TransactionSince(actions, c, i + 1)
    requires IsChange(At(actions, k), actions[k]) && IssuesWrite(At(actions, i), actions[i])
    ensures Late(At(actions, i + 1))
  {
    MarksPersist(actions, c, i);
    CountedAt(actions, c);
    ChangeSince(actions, c, k, i);
    Step(actions, i);
    LateIssue(At(actions, i), actions[i]);
  }

  lemma {:induction false} ChangeSince(actions: seq<Action>, c: nat, k: nat, i: nat)
    requires c <= k < i <= |actions| && IsChange(At(actions, k), actions[k])
    ensures At(actions, c).sessions + At(actions, c).nmtChanges < At(actions, i).sessions + At(actions, i).nmtChanges
  {
    CountsGrow(actions, c, k);
    CountsGrow(actions, k + 1, i);
    ChangeStep(actions, k);
  }

  // ---------------------------------------------------------------------
  // Automatic identification
  // ---------------------------------------------------------------------

  /** A heartbeat finds an unidentified node and asks for the automatic identification. */
  predicate Asks(s: System, a: Action) {
    a.Heartbeat? && s.discovery.Idle? && Next(s, a).discovery.WantSpawn?
  }

  /** The automatic identification starts. */
  predicate StartsAutomatic(s: System, a: Action) {
    a.Spawn? && s.discovery.WantSpawn? && !s.busy
  }

  ghost predicate WantedSince(actions: seq<Action>, h: nat, m: nat)
    requires m <= |actions|
  {
    forall k :: h < k <= m ==> At(actions, k).discovery.WantSpawn?
  }

  /** The request pending at m was made at step h, in the session it is for. */
  ghost predicate AskedAt(actions: seq<Action>, h: nat, m: nat)
    requires m <= |actions|
  {
    && h < m && Asks(At(actions, h), actions[h]) && WantedSince(actions, h, m)
    && At(actions, m).discovery.WantSpawn? && At(actions, m).discovery.epoch == At(actions, h + 1).sessions
  }

  lemma {:induction false} WantStep(s: System, a: Action)
    requires Next(s, a).discovery.WantSpawn?
    ensures Asks(s, a) || s.discovery == Next(s, a).discovery
    ensures Asks(s, a) ==> Next(s, a).discovery.epoch == Next(s, a).entry.epoch
  {
  }

  lemma {:induction false} WantWasAsked(actions: seq<Action>, m: nat) returns (h: nat)
    requires m <= |actions| <= U64_MAX && At(actions, m).discovery.WantSpawn?
    ensures AskedAt(actions, h, m)
  {
    h := m - 1;
    Step(actions, h);
    WantStep(At(actions, h), actions[h]);
    if Asks(At(actions, h), actions[h]) {
      ReachableSafe(actions[..m]);
    } else {
      h := WantWasAsked(actions, m - 1);
    }
  }

  /** Session `epoch` has had its automatic identification. */
  predicate Claimed(s: System, epoch: nat) {
    && epoch <= s.sessions
    && (s.sessions == epoch ==> !WantsIdentify(s.entry) || s.discovery == WantMark(epoch))
    && (s.discovery.WantSpawn? ==> s.discovery.epoch > epoch)
  }

  lemma {:induction false} StartClaims(s: System, a: Action)
    requires Inv(s) && StartsAutomatic(s, a)
    ensures Claimed(Next(s, a), s.discovery.epoch)
  {
  }

  lemma {:induction false} TasksDoNotUnclaim(s: System, i: nat, input: Input, epoch: nat)
    requires Inv(s) && Claimed(s, epoch)
    ensures Claimed(Next(s, Advance(i, input)), epoch)
  {
    if i < |s.tasks| && !s.tasks[i].Leaving? {
      assert TaskOk(s.entry, s.tasks[i]);
      TaskStepKept(s, s.tasks[i], input);
    }
  }

  lemma {:induction false} ClaimStays(s: System, a: Action, epoch: nat)
    requires Inv(s) && Room(s) && Claimed(s, epoch)
    ensures Claimed(Next(s, a), epoch)
  {
    match a
    case Heartbeat(state) => if s.discovery.Idle? { HeartbeatDisturbs(s, state); }
    case Spawn =>
    case Mark =>
    case Liveness(silent) => LivenessDisturbs(s, silent);
    case Tpdo(tpdo2, clean) => TpdoDisturbs(s, tpdo2, clean);
    case Start(_) =>
    case Advance(i, input) => TasksDoNotUnclaim(s, i, input, epoch);
  }

  lemma {:induction false} ClaimStaysAt(actions: seq<Action>, k: nat, epoch: nat)
    requires k < |actions| <= U64_MAX && Claimed(At(actions, k), epoch)
    ensures Claimed(At(actions, k + 1), epoch)
  {
    Step(actions, k);
    ReachableSafe(actions[..k]);
    ClaimStays(At(actions, k), actions[k], epoch);
  }

  lemma {:induction false} StartClaimsAt(actions: seq<Action>, i: nat)
    requires i < |actions| <= U64_MAX && StartsAutomatic(At(actions, i), actions[i])
    ensures Claimed(At(actions, i + 1), At(actions, i).discovery.epoch)
  {
    Step(actions, i);
    ReachableSafe(actions[..i]);
    StartClaims(At(actions, i), actions[i]);
  }

  lemma {:induction false} ClaimPersists(actions: seq<Action>, i: nat, m: nat)
    requires i < m <= |actions| <= U64_MAX && StartsAutomatic(At(actions, i), actions[i])
    ensures Claimed(At(actions, m), At(actions, i).discovery.epoch)
  {
    if m == i + 1 {
      StartClaimsAt(actions, i);
    } else {
      ClaimPersists(actions, i, m - 1);
      ClaimStaysAt(actions, m - 1, At(actions, i).discovery.epoch);
    }
  }

  /** The requests behind two automatic starts: the later was made after the earlier start, in a later session. */
  ghost predicate InLaterSession(actions: seq<Action>, i: nat, j: nat, h: nat, h': nat)
    requires i < j < |actions|
  {
    && AskedAt(actions, h, i) && AskedAt(actions, h', j) && i < h'
    && At(actions, h + 1).sessions < At(actions, h' + 1).sessions
  }

  /**
    On every interleaving, whatever stale tasks complete: between two automatic
    identifications a new session starts. The heartbeat that asked for the later
    one came after the earlier had started, and in a later session than the one
    the earlier was asked for in.
   */
  lemma {:induction false} AutomaticIdentifyOncePerSession(actions: seq<Action>, i: nat, j: nat)
    requires i < j < |actions| <= U64_MAX
    requires StartsAutomatic(At(actions, i), actions[i]) && StartsAutomatic(At(actions, j), actions[j])
    ensures exists h, h' :: InLaterSession(actions, i, j, h, h')
  {
    var h := WantWasAsked(actions, i);
    var h' := WantWasAsked(actions, j);
    ClaimPersists(actions, i, j);
    AskedAfter(actions, i, j, h');
    assert InLaterSession(actions, i, j, h, h');
  }

  lemma {:induction false} AskedAfter(actions: seq<Action>, i: nat, j: nat, h: nat)
    requires i < j < |actions| && StartsAutomatic(At(actions, i), actions[i]) && AskedAt(actions, h, j)
    ensures i < h
  {
    Step(actions, i);
    assert !At(actions, i + 1).discovery.WantSpawn?;
  }

  // ---------------------------------------------------------------------
  // Exclusion and lifecycle
  // ---------------------------------------------------------------------

  /** Exclusive operations on one node never overlap. */
  lemma {:induction false} OperationsExclusive(actions: seq<Action>)
    requires |actions| <= U64_MAX
    ensures |Run(actions).tasks| <= 1 && (|Run(actions).tasks| == 1 <==> Run(actions).busy)
  {
    ReachableSafe(actions);
  }

  /**
    Over all interleavings: an identity is known exactly when the lifecycle is not
    Unknown; an Initialized node is online and Operational.
   */
  lemma {:induction false} LifecycleInvariant(actions: seq<Action>)
    requires |actions| <= U64_MAX
    ensures var e := Run(actions).entry;
            && (e.identity.Some? <==> !e.lifecycle.Unknown?)
            && (e.lifecycle.Initialized? ==> e.online && e.nmt == Some(Operational) && e.identity.Some?)
  {
    ReachableSafe(actions);
  }
}
