/**
  set_mode_sdo and set_target_sdo of src/meow_motor/manager.rs: what a returned
  confirmation proves, and what a failure leaves behind, while frames arrive, the
  node reboots and NMT states change between any two steps of the call.

  The per-node operation guard is held throughout, so the identity changes only
  by being dropped with its session. Counters are unbounded here.
 */
module FencedCommands {
  import opened Wrappers

  datatype Logic = Disabled | Enabled(mode: nat) | Error(display: nat, detail: nat)

  /** Decoding of the mode display byte of a TPDO2. */
  function DecodeLogic(display: nat, detail: nat): Option<Logic> {
    if display == 0 then Some(Disabled)
    else if 1 <= display <= 4 then Some(Enabled(display))
    else if 0xA1 <= display <= 0xA6 || display == 0xAF then Some(Error(display, detail))
    else None
  }

  datatype Nmt = PreOperational | Operational | Stopped

  /** The mode display of an enabled motor. */
  type Mode = n: nat | 1 <= n <= 4 witness 1

  /** A TPDO2 that decoded, with the session and NMT revision it arrived in. */
  datatype Feedback = Feedback(time: nat, display: nat, detail: nat, epoch: nat, revision: nat)

  datatype Written = TargetField(k: nat) | ModeWrite(code: nat)

  /** What a check of the call found; `live` is online, Initialized, Operational and fresh. */
  datatype Stamp = Stamp(epoch: nat, identity: Option<nat>, revision: nat, live: bool)

  datatype World = World(
    now: nat, epoch: nat, identity: Option<nat>, online: bool, initialized: bool, nmt: Option<Nmt>, revision: nat,
    lastTpdo1: Option<nat>, lastTpdo2: Option<nat>, logic: Option<Logic>, generation: nat,
    feedback: seq<Feedback>, checked: Option<Stamp>, writes: seq<Written>, stamps: seq<Option<Stamp>>,
    completedAt: nat)

  // `checked` is what the call found when it last looked, unless it has written since; `writes` are
  // the SDO writes attempted, each with the check before it; the last completed at `completedAt`.

  /** What can happen beside the call. */
  datatype Event =
    | Pass(us: nat) | Tpdo1 | Tpdo2(display: nat, detail: nat) | SessionLost | Heartbeat(nmt: Nmt) | TelemetryStale

  function Next(w: World, e: Event): World {
    match e
    case Pass(us) => w.(now := w.now + us)
    case Tpdo1 => w.(lastTpdo1 := Some(w.now))
    case Tpdo2(display, detail) =>
      var logic := DecodeLogic(display, detail);
      if logic.None? then w
      else w.(lastTpdo2 := Some(w.now), logic := logic, generation := w.generation + 1,
              feedback := w.feedback + [Feedback(w.now, display, detail, w.epoch, w.revision)])
    case SessionLost =>
      w.(epoch := w.epoch + 1, identity := None, online := false, initialized := false, nmt := None,
         lastTpdo1 := None, lastTpdo2 := None, logic := None, generation := 0)
    case Heartbeat(nmt) =>
      w.(online := true, nmt := Some(nmt), revision := if w.nmt == Some(nmt) then w.revision else w.revision + 1,
         initialized := w.initialized && nmt.Operational?)
    case TelemetryStale => w.(initialized := false)
  }

  function After(w: World, events: seq<Event>): World {
    if events == [] then w else Next(After(w, events[..|events| - 1]), events[|events| - 1])
  }

  /** The newest TPDO2 of the session is what the entry remembers. */
  predicate Sound(w: World) {
    && |w.stamps| == |w.writes|
    && (w.lastTpdo2.Some? ==>
          && w.feedback != []
          && var f := w.feedback[|w.feedback| - 1];
             && w.lastTpdo2 == Some(f.time) && w.logic.Some? && w.logic == DecodeLogic(f.display, f.detail)
             && f.epoch == w.epoch && f.revision <= w.revision)
  }

  /** What only ever grows, and what stays while the session does. */
  ghost predicate Later(w: World, v: World) {
    && w.now <= v.now && w.epoch <= v.epoch && w.revision <= v.revision
    && w.feedback <= v.feedback
    && (forall i :: |w.feedback| <= i < |v.feedback| ==>
         v.feedback[i].time >= w.now && v.feedback[i].revision >= w.revision)
    && (w.epoch == v.epoch ==> v.identity == w.identity && v.generation == w.generation + |v.feedback| - |w.feedback|)
  }

  predicate SameWrites(w: World, v: World) {
    v.writes == w.writes && v.stamps == w.stamps && v.completedAt == w.completedAt && v.checked == w.checked
  }

  lemma {:induction false} LaterTransitive(u: World, v: World, w: World)
    requires Later(u, v) && Later(v, w)
    ensures Later(u, w)
  {
    forall i | |u.feedback| <= i < |w.feedback|
      ensures w.feedback[i].time >= u.now && w.feedback[i].revision >= u.revision
    {
      if i < |v.feedback| {
        assert w.feedback[i] == v.feedback[i];
      }
    }
  }

  lemma {:induction false} LaterItself(w: World)
    ensures Later(w, w)
  {
  }

  /** Looking changes nothing. */
  lemma {:induction false} LaterChecked(u: World, v: World, w: World)
    requires Later(u, v) && w == v.(checked := w.checked)
    ensures Later(u, w) && (Sound(v) ==> Sound(w))
  {
  }

  lemma {:induction false} NextIsLater(w: World, e: Event)
    requires Sound(w)
    ensures Sound(Next(w, e)) && Later(w, Next(w, e)) && SameWrites(w, Next(w, e))
  {
  }

  lemma {:induction false} AfterIsLater(w: World, events: seq<Event>)
    requires Sound(w)
    ensures Sound(After(w, events)) && Later(w, After(w, events)) && SameWrites(w, After(w, events))
  {
    if events != [] {
      AfterIsLater(w, events[..|events| - 1]);
      var v := After(w, events[..|events| - 1]);
      NextIsLater(v, events[|events| - 1]);
      LaterTransitive(w, v, After(w, events));
    }
  }

  datatype Token = Token(epoch: nat, identity: nat, revision: nat)

  predicate IdentityCurrent(w: World, token: Token) {
    w.epoch == token.epoch && w.identity == Some(token.identity)
  }

  predicate Fresh(last: Option<nat>, now: nat, staleUs: nat) {
    last.Some? && (now <= last.value || now - last.value <= staleUs)
  }

  predicate RuntimeCurrent(w: World, revision: nat, staleUs: nat) {
    && w.online && w.initialized && w.nmt == Some(Operational) && w.revision == revision
    && Fresh(w.lastTpdo1, w.now, staleUs) && Fresh(w.lastTpdo2, w.now, staleUs)
  }

  predicate OperationalCurrent(w: World, token: Token, staleUs: nat) {
    IdentityCurrent(w, token) && RuntimeCurrent(w, token.revision, staleUs)
  }

  /**
    Evidence that the mode took effect: a TPDO2 received after `start`, no
    earlier than `since`, in the session and the NMT revision of `start`.
   */
  predicate Confirms(f: Feedback, start: World, since: nat, expected: Logic) {
    && f.time >= since && DecodeLogic(f.display, f.detail) == Some(expected)
    && f.epoch == start.epoch && f.revision == start.revision
  }

  ghost predicate Confirmed(start: World, w: World, since: nat, expected: Logic) {
    exists i :: |start.feedback| <= i < |w.feedback| && Confirms(w.feedback[i], start, since, expected)
  }

  /** The newest remembered TPDO2 is the evidence, if it arrived after the token was taken. */
  lemma {:induction false} EvidenceAtHand(start: World, w: World, token: Token, since: nat,
      expected: Logic, staleUs: nat)
    requires Sound(w) && Later(start, w) && start.epoch == token.epoch && start.revision == token.revision
    requires OperationalCurrent(w, token, staleUs) && w.generation != start.generation
    requires w.lastTpdo2.Some? && w.lastTpdo2.value >= since && w.logic == Some(expected)
    ensures Confirmed(start, w, since, expected)
  {
    var f := w.feedback[|w.feedback| - 1];
    assert |w.feedback| > |start.feedback|;
    assert f.revision >= start.revision;
    assert Confirms(w.feedback[|w.feedback| - 1], start, since, expected);
  }

  lemma {:induction false} ConfirmedEarlier(u: World, v: World, w: World, since: nat, expected: Logic)
    requires Later(u, v) && u.epoch == v.epoch && u.revision == v.revision && Confirmed(v, w, since, expected)
    ensures Confirmed(u, w, since, expected)
  {
    var i :| |v.feedback| <= i < |w.feedback| && Confirms(w.feedback[i], v, since, expected);
    assert Confirms(w.feedback[i], u, since, expected);
  }

  /** Some TPDO2 after `start`, of its session and NMT revision and not before `since`, displays this mode. */
  ghost predicate Displayed(start: World, w: World, since: nat, mode: nat) {
    exists i :: |start.feedback| <= i < |w.feedback|
                && w.feedback[i].display == mode && w.feedback[i].time >= since
                && w.feedback[i].epoch == start.epoch && w.feedback[i].revision == start.revision
  }

  lemma {:induction false} EnabledIsDisplayed(start: World, w: World, since: nat, mode: nat)
    requires Confirmed(start, w, since, Enabled(mode))
    ensures 1 <= mode <= 4 && Displayed(start, w, since, mode)
  {
    var i :| |start.feedback| <= i < |w.feedback| && Confirms(w.feedback[i], start, since, Enabled(mode));
  }

  /** From w to v nothing happened but frames of a node that shows this mode. */
  predicate Steady(w: World, v: World, shown: Mode) {
    && v.epoch == w.epoch && v.identity == w.identity && v.online == w.online && v.initialized == w.initialized
    && v.nmt == w.nmt && v.revision == w.revision && v.generation > w.generation
    && v.lastTpdo1 == Some(v.now) && v.lastTpdo2 == Some(v.now) && v.logic == Some(Enabled(shown))
  }

  lemma {:induction false} FramesAreSteady(w: World, us: nat, shown: Mode)
    ensures Steady(w, After(w, [Pass(us), Tpdo1, Tpdo2(shown, 0)]), shown)
  {
    var events := [Pass(us), Tpdo1, Tpdo2(shown, 0)];
    assert events[..2] == [Pass(us), Tpdo1] && events[..2][..1] == [Pass(us)] && events[..2][..1][..0] == [];
    AfterStep(w, events);
    AfterStep(w, events[..2]);
    AfterStep(w, events[..2][..1]);
  }

  lemma {:induction false} AfterStep(w: World, events: seq<Event>)
    requires events != []
    ensures After(w, events) == Next(After(w, events[..|events| - 1]), events[|events| - 1])
    ensures After(w, []) == w
  {
  }

  /** The node is current for the token, and shows this mode. */
  predicate Showing(w: World, token: Token, staleUs: nat, shown: Mode) {
    OperationalCurrent(w, token, staleUs) && w.logic == Some(Enabled(shown))
  }

  lemma {:induction false} SteadyShows(w: World, v: World, token: Token, staleUs: nat, shown: Mode)
    requires OperationalCurrent(w, token, staleUs) && Steady(w, v, shown)
    ensures Showing(v, token, staleUs, shown)
  {
  }

  /** It has shown it in a TPDO2 after the baseline and not before `since`. */
  predicate Answered(w: World, token: Token, staleUs: nat, shown: Mode, baseline: nat, since: nat) {
    && Showing(w, token, staleUs, shown) && w.generation > baseline
    && w.lastTpdo2.Some? && w.lastTpdo2.value >= since
  }

  lemma {:induction false} SteadyAnswers(w: World, v: World, token: Token, staleUs: nat, shown: Mode, baseline: nat,
                                         since: nat)
    requires Steady(w, v, shown) && since <= v.now
    ensures Answered(w, token, staleUs, shown, baseline, since) ==>
              Answered(v, token, staleUs, shown, baseline, since)
  {
  }

  // ---------------------------------------------------------------------
  // Writes
  // ---------------------------------------------------------------------

  /** The stamp of a write sent while the node is current for the token. */
  function LiveStamp(token: Token): Stamp {
    Stamp(token.epoch, Some(token.identity), token.revision, true)
  }

  function LiveStamps(token: Token, n: nat): (r: seq<Option<Stamp>>)
    ensures |r| == n
  {
    seq(n, k requires k >= 0 => Some(LiveStamp(token)))
  }

  /** Online, Initialized and Operational, with both TPDOs not older than `staleUs`. */
  predicate Live(w: World, staleUs: nat) {
    && w.online && w.initialized && w.nmt == Some(Operational)
    && w.lastTpdo1.Some? && w.now <= w.lastTpdo1.value + staleUs
    && w.lastTpdo2.Some? && w.now <= w.lastTpdo2.value + staleUs
  }

  function StampOf(w: World, staleUs: nat): Stamp {
    Stamp(w.epoch, w.identity, w.revision, Live(w, staleUs))
  }

  lemma {:induction false} CurrentIsLive(w: World, token: Token, staleUs: nat)
    requires OperationalCurrent(w, token, staleUs)
    ensures StampOf(w, staleUs) == LiveStamp(token)
  {
  }

  function TargetWrites(n: nat): (r: seq<Written>)
    ensures |r| == n
  {
    seq(n, k requires k >= 0 => TargetField(k))
  }

  /** The target first, then the mode command. */
  function ModeWrites(fields: nat, mode: nat): seq<Written> {
    TargetWrites(fields) + [ModeWrite(mode)]
  }

  predicate EndsDisabled(writes: seq<Written>) {
    writes != [] && writes[|writes| - 1] == ModeWrite(0)
  }

  /** Nothing but a part of the plan from its start was written, and at most the safety write after it. */
  ghost predicate FollowsPlan(before: seq<Written>, after: seq<Written>, plan: seq<Written>) {
    exists n :: 0 <= n <= |plan| && (after == before + plan[..n] || after == before + plan[..n] + [ModeWrite(0)])
  }

  lemma {:induction false} PlanFollowed(before: seq<Written>, after: seq<Written>, plan: seq<Written>, n: nat)
    requires n <= |plan| && (after == before + plan[..n] || after == before + plan[..n] + [ModeWrite(0)])
    ensures FollowsPlan(before, after, plan)
  {
  }

  /** A prefix of the target writes is a prefix of the whole plan. */
  lemma {:induction false} TargetWritesBegin(fields: nat, mode: nat, n: nat)
    requires n <= fields
    ensures TargetWrites(fields)[..n] == TargetWrites(n) == ModeWrites(fields, mode)[..n]
  {
  }

  // ---------------------------------------------------------------------
  // Fences
  // ---------------------------------------------------------------------

  /**
    Between `start` and `w` lies a world `captured`, before the first write, in
    which the node was online, Initialized, Operational and fresh; and `w` is so
    too, in the session and identity of `start` and the NMT revision of `captured`.
   */
  ghost predicate Fenced(start: World, captured: World, w: World, staleUs: nat) {
    && Later(start, captured) && captured.writes == start.writes && Later(captured, w)
    && start.identity.Some? && w.epoch == start.epoch && w.identity == start.identity
    && w.revision == captured.revision
    && Live(captured, staleUs) && Live(w, staleUs)
  }

  lemma {:induction false} OneMore(u: World, v: World, w: World, token: Token, k: nat, one: nat)
    requires one <= 1 && v.writes == u.writes + TargetWrites(k) && v.stamps == u.stamps + LiveStamps(token, k)
    requires w.writes == v.writes + [TargetField(k)][..one]
    requires w.stamps == v.stamps + [Some(LiveStamp(token))][..one]
    ensures w.writes == u.writes + TargetWrites(k + one) && w.stamps == u.stamps + LiveStamps(token, k + one)
  {
  }

  /** Every planned write since u followed a fence that found the node live, in the token's session and NMT revision. */
  ghost predicate AllFenced(u: World, w: World, token: Token) {
    && |u.writes| <= |w.writes| == |w.stamps|
    && forall i :: |u.writes| <= i < |w.writes| && w.writes[i] != ModeWrite(0) ==> w.stamps[i] == Some(LiveStamp(token))
  }

  lemma {:induction false} LiveIsFenced(u: World, w: World, token: Token, n: nat, safety: seq<Option<Stamp>>)
    requires |u.writes| == |u.stamps| && |w.writes| == |w.stamps| && |w.writes| >= |u.writes|
    requires w.stamps == u.stamps + LiveStamps(token, n) + safety
    requires safety == [] || (|safety| == 1 && w.writes[|w.writes| - 1] == ModeWrite(0))
    ensures AllFenced(u, w, token)
  {
  }

  class Motor {
    var w: World
    const staleUs: nat

    /** None: anything may happen while the call waits. Some: writes succeed, waits are long
        enough for a frame, and nothing happens but TPDOs of a node that shows this mode. */
    const calm: Option<Mode>

    constructor (world: World, stale: nat, shown: Option<Mode>)
      ensures w == world && staleUs == stale && calm == shown
    {
      w := world;
      staleUs, calm := stale, shown;
    }

    method Await()
      requires Sound(w)
      modifies this
      ensures Sound(w) && Later(old(w), w) && SameWrites(old(w), w)
      ensures calm.Some? ==> Steady(old(w), w, calm.value)
    {
      var events: seq<Event> := *;
      if calm.Some? {
        var us: nat := *;
        events := [Pass(us), Tpdo1, Tpdo2(calm.value, 0)];
        FramesAreSteady(w, us, calm.value);
      }
      AfterIsLater(w, events);
      w := After(w, events);
    }

    /** The call looks at the entry. */
    method Check()
      modifies this
      ensures w == old(w).(checked := Some(StampOf(old(w), staleUs)))
    {
      w := w.(checked := Some(StampOf(w, staleUs)));
    }

    method WriteOne(x: Written) returns (ok: bool)
      requires Sound(w)
      modifies this
      ensures Sound(w) && Later(old(w), w) && w.writes == old(w).writes + [x] && w.completedAt == w.now
      ensures w.stamps == old(w).stamps + [old(w).checked] && w.checked.None?
      ensures calm.Some? ==> ok && Steady(old(w), w, calm.value)
    {
      w := w.(writes := w.writes + [x], stamps := w.stamps + [w.checked], checked := None);
      Await();
      w := w.(completedAt := w.now);
      ok := *;
      ok := ok || calm.Some?;
    }

    /** One look of the wait: confirmed, given up, or undecided. */
    method Look(ghost start: World, token: Token, baseline: nat, since: nat, expected: Logic)
      returns (found: Option<bool>)
      requires Sound(w) && Later(start, w) && baseline == start.generation
      requires start.epoch == token.epoch && start.revision == token.revision
      ensures found == Some(true) ==> Confirmed(start, w, since, expected) && OperationalCurrent(w, token, staleUs)
      ensures calm.Some? && Answered(w, token, staleUs, calm.value, baseline, since) ==>
                found == if expected == Enabled(calm.value) then Some(true) else None
    {
      if !OperationalCurrent(w, token, staleUs) {
        return Some(false);
      }
      if w.generation != baseline && w.lastTpdo2.Some? && w.lastTpdo2.value >= since {
        if w.logic == Some(expected) {
          EvidenceAtHand(start, w, token, since, expected, staleUs);
          return Some(true);
        }
        if w.logic.Some? && w.logic.value.Error? {
          return Some(false);
        }
      }
      return None;
    }

    /** Looks again and again until the timeout, and at least once if the wait is long enough for a frame. */
    method WaitForLogicAfter(ghost start: World, token: Token, baseline: nat, since: nat, expected: Logic)
      returns (ok: bool)
      requires Sound(w) && Later(start, w) && baseline == start.generation
      requires start.epoch == token.epoch && start.revision == token.revision && since <= w.now
      modifies this
      ensures Sound(w) && Later(old(w), w) && SameWrites(old(w), w)
      ensures ok ==> Confirmed(start, w, since, expected) && OperationalCurrent(w, token, staleUs)
      ensures calm.Some? && Answered(old(w), token, staleUs, calm.value, baseline, since) ==>
                (ok <==> expected == Enabled(calm.value))
    {
      ghost var answering := calm.Some? && Answered(w, token, staleUs, calm.value, baseline, since);
      var more :| 0 <= more;
      var rounds := if calm.Some? then more + 1 else more;
      LaterItself(w);
      for i := 0 to rounds
        invariant Sound(w) && Later(start, w) && Later(old(w), w) && SameWrites(old(w), w)
        invariant answering ==> Answered(w, token, staleUs, calm.value, baseline, since)
        invariant answering && i > 0 ==> expected != Enabled(calm.value)
      {
        var found := Look(start, token, baseline, since, expected);
        if found.Some? {
          return found.value;
        }
        ghost var before := w;
        Await();
        LaterTransitive(start, before, w);
        LaterTransitive(old(w), before, w);
        if answering {
          SteadyAnswers(before, w, token, staleUs, calm.value, baseline, since);
        }
      }
      return false;
    }

    /** One target field: a fence, the write and the pause after it. */
    method WriteField(token: Token, k: nat) returns (ok: bool, ghost sent: nat)
      requires Sound(w)
      modifies this
      ensures Sound(w) && Later(old(w), w) && sent <= 1 && (ok ==> sent == 1)
      ensures w.writes == old(w).writes + [TargetField(k)][..sent]
      ensures w.stamps == old(w).stamps + [Some(LiveStamp(token))][..sent]
      ensures calm.Some? && Showing(old(w), token, staleUs, calm.value) ==> ok && Showing(w, token, staleUs, calm.value)
    {
      LaterItself(w);
      Check();
      LaterChecked(old(w), old(w), w);
      if !OperationalCurrent(w, token, staleUs) {
        return false, 0;
      }
      CurrentIsLive(w, token, staleUs);
      ghost var before := w;
      ok := WriteOne(TargetField(k));
      sent := 1;
      LaterTransitive(old(w), before, w);
      ghost var written := w;
      if calm.Some? {
        SteadyShows(old(w), w, token, staleUs, calm.value);
      }
      if ok {
        Await();
        LaterTransitive(old(w), written, w);
        if calm.Some? {
          SteadyShows(written, w, token, staleUs, calm.value);
        }
      }
    }

    /** The target fields in order. */
    method WriteTarget(token: Token, fields: nat) returns (ok: bool, ghost sent: nat)
      requires Sound(w)
      modifies this
      ensures Sound(w) && Later(old(w), w)
      ensures sent <= fields && w.writes == old(w).writes + TargetWrites(sent)
      ensures w.stamps == old(w).stamps + LiveStamps(token, sent)
      ensures ok ==> sent == fields
      ensures calm.Some? && Showing(old(w), token, staleUs, calm.value) ==> ok && Showing(w, token, staleUs, calm.value)
    {
      LaterItself(w);
      sent := 0;
      for k := 0 to fields
        invariant Sound(w) && Later(old(w), w) && w.writes == old(w).writes + TargetWrites(k) && sent == k
        invariant w.stamps == old(w).stamps + LiveStamps(token, k)
        invariant calm.Some? && Showing(old(w), token, staleUs, calm.value) ==> Showing(w, token, staleUs, calm.value)
      {
        ghost var before := w;
        ghost var one;
        ok, one := WriteField(token, k);
        LaterTransitive(old(w), before, w);
        OneMore(old(w), before, w, token, k, one);
        sent := k + one;
        if !ok {
          return;
        }
      }
      return true, sent;
    }

    /** The mode command, between two fences; `start` is where its confirmation is counted from. */
    method SendMode(token: Token, mode: nat) returns (ok: bool, baseline: nat, ghost start: World)
      requires Sound(w)
      modifies this
      ensures Sound(w) && Later(old(w), start) && Later(start, w) && baseline == start.generation
      ensures w.writes == old(w).writes || w.writes == old(w).writes + [ModeWrite(mode)]
      ensures w.stamps == old(w).stamps + LiveStamps(token, |w.writes| - |old(w).writes|)
      ensures ok ==> w.writes == old(w).writes + [ModeWrite(mode)] && w.completedAt == w.now
      ensures ok ==> OperationalCurrent(old(w), token, staleUs) && OperationalCurrent(w, token, staleUs)
      ensures calm.Some? && Showing(old(w), token, staleUs, calm.value) ==>
                ok && Answered(w, token, staleUs, calm.value, start.generation, w.now)
    {
      LaterItself(w);
      Check();
      LaterChecked(old(w), old(w), w);
      baseline, start := w.generation, w;
      LaterItself(w);
      if !OperationalCurrent(w, token, staleUs) {
        return false, baseline, start;
      }
      CurrentIsLive(w, token, staleUs);
      Await();
      baseline, start := w.generation, w;
      ok := WriteOne(ModeWrite(mode));
      if calm.Some? {
        SteadyShows(old(w), start, token, staleUs, calm.value);
        SteadyShows(start, w, token, staleUs, calm.value);
      }
      ok := ok && OperationalCurrent(w, token, staleUs);
    }

    /** The mode command and its confirmation. */
    method CommandMode(ghost captured: World, token: Token, mode: nat) returns (ok: bool)
      requires Sound(w) && Later(captured, w) && token.epoch <= captured.epoch && token.revision == captured.revision
      modifies this
      ensures Sound(w) && Later(old(w), w)
      ensures w.writes == old(w).writes || w.writes == old(w).writes + [ModeWrite(mode)]
      ensures w.stamps == old(w).stamps + LiveStamps(token, |w.writes| - |old(w).writes|)
      ensures ok ==> w.writes == old(w).writes + [ModeWrite(mode)] && OperationalCurrent(w, token, staleUs)
      ensures ok ==> Confirmed(captured, w, w.completedAt, Enabled(mode))
      ensures calm.Some? && Showing(old(w), token, staleUs, calm.value) ==> (ok <==> mode == calm.value)
    {
      var baseline;
      ghost var start;
      ok, baseline, start := SendMode(token, mode);
      LaterTransitive(old(w), start, w);
      if !ok {
        return;
      }
      LaterTransitive(captured, old(w), start);
      ghost var before := w;
      ok := WaitForLogicAfter(start, token, baseline, w.now, Enabled(mode));
      LaterTransitive(old(w), before, w);
      if ok {
        ConfirmedEarlier(captured, start, w, before.now, Enabled(mode));
      }
    }

    /** The fenced part of a mode change: target, mode command, confirmation. */
    method TryMode(ghost captured: World, token: Token, mode: nat, fields: nat) returns (ok: bool, ghost sent: nat)
      requires Sound(w) && Later(captured, w) && token.epoch <= captured.epoch && token.revision == captured.revision
      modifies this
      ensures Sound(w) && Later(old(w), w)
      ensures sent <= fields + 1 && w.writes == old(w).writes + ModeWrites(fields, mode)[..sent]
      ensures ok ==> sent == fields + 1 && OperationalCurrent(w, token, staleUs)
      ensures ok ==> Confirmed(captured, w, w.completedAt, Enabled(mode))
      ensures w.stamps == old(w).stamps + LiveStamps(token, sent)
      ensures calm.Some? && Showing(old(w), token, staleUs, calm.value) ==> (ok <==> mode == calm.value)
    {
      ok, sent := WriteTarget(token, fields);
      TargetWritesBegin(fields, mode, sent);
      if !ok {
        return;
      }
      ghost var before := w;
      LaterTransitive(captured, old(w), w);
      ok := CommandMode(captured, token, mode);
      LaterTransitive(old(w), before, w);
      if w.writes != before.writes {
        sent := fields + 1;
        assert ModeWrites(fields, mode)[..sent] == ModeWrites(fields, mode);
      }
      assert LiveStamps(token, fields) + LiveStamps(token, sent - fields) == LiveStamps(token, sent);
    }

    /** The identity of the session, then, in a second locked region, the state that must stay current. */
    method OperationalToken() returns (token: Option<Token>)
      requires Sound(w)
      modifies this
      ensures Sound(w) && Later(old(w), w) && SameWrites(old(w), w)
      ensures token.Some? ==>
                && old(w).identity.Some? && token.value == Token(old(w).epoch, old(w).identity.value, w.revision)
                && RuntimeCurrent(w, w.revision, staleUs)
      ensures calm.Some? ==>
                && (token.Some? <==> old(w).identity.Some? && old(w).online && old(w).initialized
                                     && old(w).nmt == Some(Operational))
                && (token.Some? ==> Showing(w, token.value, staleUs, calm.value))
    {
      LaterItself(w);
      if w.identity.None? || !w.online || !w.initialized {
        return None;
      }
      var epoch, identity := w.epoch, w.identity.value;
      Await();
      return if RuntimeCurrent(w, w.revision, staleUs) then Some(Token(epoch, identity, w.revision)) else None;
    }

    /** The best-effort safety action after a failure. */
    method DisableAfterFailure(token: Token)
      requires Sound(w)
      modifies this
      ensures Sound(w) && Later(old(w), w)
      ensures w.writes == old(w).writes + if IdentityCurrent(old(w), token) then [ModeWrite(0)] else []
      ensures w.stamps
              == old(w).stamps + if IdentityCurrent(old(w), token) then [Some(StampOf(old(w), staleUs))] else []
    {
      LaterItself(w);
      Check();
      LaterChecked(old(w), old(w), w);
      if IdentityCurrent(w, token) {
        ghost var before := w;
        var ignored := WriteOne(ModeWrite(0));
        LaterTransitive(old(w), before, w);
      }
    }

    /** The fenced part, and the safety action if it fails. */
    method ModeOrDisable(ghost captured: World, token: Token, mode: nat, fields: nat)
      returns (ok: bool, ghost sent: nat)
      requires Sound(w) && Later(captured, w) && token.epoch <= captured.epoch && token.revision == captured.revision
      modifies this
      ensures Sound(w) && Later(old(w), w) && sent <= fields + 1 && AllFenced(old(w), w, token)
      ensures ok ==> w.writes == old(w).writes + ModeWrites(fields, mode) && OperationalCurrent(w, token, staleUs)
      ensures ok ==> Confirmed(captured, w, w.completedAt, Enabled(mode))
      ensures FollowsPlan(old(w).writes, w.writes, ModeWrites(fields, mode))
      ensures !ok && IdentityCurrent(w, token) ==> EndsDisabled(w.writes)
      ensures calm.Some? && Showing(old(w), token, staleUs, calm.value) ==> (ok <==> mode == calm.value)
    {
      ok, sent := TryMode(captured, token, mode, fields);
      PlanFollowed(old(w).writes, w.writes, ModeWrites(fields, mode), sent);
      LiveIsFenced(old(w), w, token, sent, []);
      if !ok {
        ghost var before := w;
        DisableAfterFailure(token);
        LaterTransitive(old(w), before, w);
        PlanFollowed(old(w).writes, w.writes, ModeWrites(fields, mode), sent);
        LiveIsFenced(old(w), w, token, sent, w.stamps[|before.stamps|..]);
      }
    }

    /**
      Ok: the call stayed in one session, identity and NMT revision from before
      its first write to its return, and some TPDO2 of them, received at or after
      the completion of the mode command, displayed the mode; every planned write
      followed a fence that found the node so. Err after any write, with the session
      still that of the call: the last write attempted set 0x4401 to 0. While the node
      only keeps showing one mode, the call succeeds exactly if the node is
      identified, online, Initialized and Operational and the mode is that one.
     */
    method SetModeSdo(mode: nat, fields: nat) returns (ok: bool, ghost captured: World)
      requires Sound(w)
      modifies this
      ensures Sound(w) && Later(old(w), w)
      ensures ok ==> Fenced(old(w), captured, w, staleUs) && 1 <= mode <= 4
      ensures ok ==> Displayed(captured, w, w.completedAt, mode)
      ensures ok ==> w.writes == old(w).writes + ModeWrites(fields, mode)
      ensures FollowsPlan(old(w).writes, w.writes, ModeWrites(fields, mode))
      ensures w.writes != old(w).writes ==>
                && old(w).identity.Some?
                && AllFenced(old(w), w, Token(old(w).epoch, old(w).identity.value, captured.revision))
      ensures !ok && w.writes != old(w).writes && w.epoch == old(w).epoch ==> EndsDisabled(w.writes)
      ensures calm.Some? ==>
                (ok <==> old(w).identity.Some? && old(w).online && old(w).initialized
                         && old(w).nmt == Some(Operational) && mode == calm.value)
    {
      var issued := OperationalToken();
      captured := w;
      PlanFollowed(old(w).writes, w.writes, ModeWrites(fields, mode), 0);
      if issued.None? {
        return false, captured;
      }
      Await();
      LaterTransitive(old(w), captured, w);
      if calm.Some? {
        SteadyShows(captured, w, issued.value, staleUs, calm.value);
      }
      if w.logic.Some? && w.logic.value.Error? {
        return false, captured;
      }
      ghost var before := w;
      ghost var sent;
      ok, sent := ModeOrDisable(captured, issued.value, mode, fields);
      LaterTransitive(old(w), before, w);
      LaterTransitive(captured, before, w);
      if ok {
        EnabledIsDisplayed(captured, w, w.completedAt, mode);
      }
    }

    /** The fenced target writes and a last fence, and the safety action if they fail. */
    method TargetOrDisable(token: Token, fields: nat) returns (ok: bool)
      requires Sound(w) && token.epoch <= w.epoch
      modifies this
      ensures Sound(w) && Later(old(w), w) && AllFenced(old(w), w, token)
      ensures ok ==> w.writes == old(w).writes + TargetWrites(fields) && OperationalCurrent(w, token, staleUs)
      ensures FollowsPlan(old(w).writes, w.writes, TargetWrites(fields))
      ensures !ok && IdentityCurrent(w, token) ==> EndsDisabled(w.writes)
      ensures calm.Some? && Showing(old(w), token, staleUs, calm.value) ==> ok
    {
      ghost var sent;
      ok, sent := WriteTarget(token, fields);
      TargetWritesBegin(fields, 0, sent);
      PlanFollowed(old(w).writes, w.writes, TargetWrites(fields), sent);
      LiveIsFenced(old(w), w, token, sent, []);
      ok := ok && OperationalCurrent(w, token, staleUs);
      if !ok {
        ghost var before := w;
        DisableAfterFailure(token);
        LaterTransitive(old(w), before, w);
        PlanFollowed(old(w).writes, w.writes, TargetWrites(fields), sent);
        LiveIsFenced(old(w), w, token, sent, w.stamps[|before.stamps|..]);
      }
    }

    /**
      A target update needs the mode at hand, never writes the mode command
      unless it fails, and is fenced like a mode change. Err after any write, with
      the session still that of the call: the last write attempted set 0x4401 to 0.
      While the node only keeps showing one mode, the call succeeds exactly if the
      node is identified, online, Initialized and Operational and the mode is that one.
     */
    method SetTargetSdo(mode: nat, fields: nat) returns (ok: bool, ghost captured: World, ghost observed: World)
      requires Sound(w)
      modifies this
      ensures Sound(w) && Later(old(w), w)
      ensures ok ==> Fenced(old(w), captured, w, staleUs)
      ensures ok || w.writes != old(w).writes ==>
                Later(captured, observed) && Later(observed, w) && observed.writes == old(w).writes
                && observed.logic == Some(Enabled(mode))
      ensures ok ==> w.writes == old(w).writes + TargetWrites(fields)
      ensures FollowsPlan(old(w).writes, w.writes, TargetWrites(fields))
      ensures w.writes != old(w).writes ==>
                && old(w).identity.Some?
                && AllFenced(old(w), w, Token(old(w).epoch, old(w).identity.value, captured.revision))
      ensures !ok && w.writes != old(w).writes && w.epoch == old(w).epoch ==> EndsDisabled(w.writes)
      ensures calm.Some? ==>
                (ok <==> old(w).identity.Some? && old(w).online && old(w).initialized
                         && old(w).nmt == Some(Operational) && mode == calm.value)
    {
      var issued := OperationalToken();
      captured, observed := w, w;
      PlanFollowed(old(w).writes, w.writes, TargetWrites(fields), 0);
      if issued.None? {
        return false, captured, observed;
      }
      Await();
      observed := w;
      LaterTransitive(old(w), captured, w);
      if calm.Some? {
        SteadyShows(captured, w, issued.value, staleUs, calm.value);
      }
      if w.logic != Some(Enabled(mode)) {
        return false, captured, observed;
      }
      ok := TargetOrDisable(issued.value, fields);
      LaterTransitive(old(w), observed, w);
      LaterTransitive(captured, observed, w);
    }
  }
}
