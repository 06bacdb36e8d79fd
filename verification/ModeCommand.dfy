/**
  SDO writes to the mode command object 0x4401 in src/meow_motor/manager.rs: the
  clear-error trigger, which only a change of value fires, and the lock that
  spaces writes apart.
 */
module ModeCommand {
  import opened Wrappers

  // ---------------------------------------------------------------------
  // Clear error
  // ---------------------------------------------------------------------

  /** How often the device sees 0x4401 change to 0xFF, starting from `initial`. */
  function Triggers(initial: nat, written: seq<nat>): nat {
    if written == [] then 0
    else
      var n := |written| - 1;
      var before := if n == 0 then initial else written[n - 1];
      Triggers(initial, written[..n]) + if written[n] == 0xFF && before != 0xFF then 1 else 0
  }

  /** The writes of one attempt: every attempt but the first re-arms with 0. */
  function Trigger(rearm: bool): seq<nat> {
    if rearm then [0, 0xFF] else [0xFF]
  }

  function ClearWrites(n: nat): seq<nat> {
    if n == 0 then [] else ClearWrites(n - 1) + Trigger(n > 1)
  }

  /** N triggers, except for the first when 0x4401 already held 0xFF. */
  function Effective(initial: nat, tries: nat): nat {
    if tries > 0 && initial == 0xFF then tries - 1 else tries
  }

  lemma {:induction false} TriggersAppend(initial: nat, written: seq<nat>, v: nat)
    ensures var before := if written == [] then initial else written[|written| - 1];
            Triggers(initial, written + [v])
            == Triggers(initial, written) + if v == 0xFF && before != 0xFF then 1 else 0
  {
    assert (written + [v])[..|written|] == written;
  }

  /** N attempts fire N times, except that the first does nothing if the object already held 0xFF. */
  lemma {:induction false} ClearWritesTrigger(initial: nat, n: nat)
    ensures Triggers(initial, ClearWrites(n)) == Effective(initial, n)
    ensures n > 0 ==> ClearWrites(n) != [] && ClearWrites(n)[|ClearWrites(n)| - 1] == 0xFF
  {
    if n == 1 {
      assert ClearWrites(1) == [] + [0xFF] == [0xFF];
      TriggersAppend(initial, [], 0xFF);
    } else if n > 1 {
      ClearWritesTrigger(initial, n - 1);
      RearmFires(initial, ClearWrites(n - 1));
    }
  }

  lemma {:induction false} RearmFires(initial: nat, earlier: seq<nat>)
    requires earlier != []
    ensures Triggers(initial, earlier + Trigger(true)) == Triggers(initial, earlier) + 1
  {
    assert earlier + Trigger(true) == earlier + [0] + [0xFF];
    TriggersAppend(initial, earlier, 0);
    TriggersAppend(initial, earlier + [0], 0xFF);
  }

  /** Repeating 0xFF without re-arming fires at most once, however often it is written. */
  lemma {:induction false} WithoutRearmOnce(initial: nat, n: nat)
    ensures Triggers(initial, seq(n, _ => 0xFF)) == if n > 0 && initial != 0xFF then 1 else 0
  {
    if n > 0 {
      WithoutRearmOnce(initial, n - 1);
      var repeated := seq(n - 1, _ => 0xFF);
      assert seq(n, _ => 0xFF) == repeated + [0xFF];
      TriggersAppend(initial, repeated, 0xFF);
    }
  }

  /** `tries` whole attempts and less than one more were sent, and the device saw exactly those. */
  predicate Delivered(initial: nat, sent: seq<nat>, tries: nat) {
    && ClearWrites(tries) <= sent && sent[|ClearWrites(tries)|..] < Trigger(tries > 0)
    && Triggers(initial, sent) == Effective(initial, tries)
  }

  lemma {:induction false} WholeAttemptsDelivered(initial: nat, n: nat)
    ensures Delivered(initial, ClearWrites(n), n)
  {
    ClearWritesTrigger(initial, n);
    assert ClearWrites(n)[|ClearWrites(n)|..] == [];
  }

  /** Less than a whole attempt fires nothing. */
  lemma {:induction false} PartialAttemptIsSilent(initial: nat, written: seq<nat>, rearm: bool, more: seq<nat>)
    requires more < Trigger(rearm)
    ensures Triggers(initial, written + more) == Triggers(initial, written)
  {
    if more == [] {
      assert written + more == written;
    } else {
      assert more == [0];
      TriggersAppend(initial, written, 0);
    }
  }

  lemma {:induction false} PartialAttemptDelivered(initial: nat, n: nat, more: seq<nat>)
    requires more < Trigger(n > 0)
    ensures Delivered(initial, ClearWrites(n) + more, n)
  {
    ClearWritesTrigger(initial, n);
    PartialAttemptIsSilent(initial, ClearWrites(n), n > 0, more);
    assert (ClearWrites(n) + more)[|ClearWrites(n)|..] == more;
  }

  lemma {:induction false} AttemptDelivered(initial: nat, sent: seq<nat>, n: nat, more: seq<nat>)
    requires sent == ClearWrites(n) && more <= Trigger(n > 0)
    ensures Delivered(initial, sent + more, if more == Trigger(n > 0) then n + 1 else n)
    ensures more == Trigger(n > 0) ==> sent + more == ClearWrites(n + 1)
  {
    if more == Trigger(n > 0) {
      WholeAttemptsDelivered(initial, n + 1);
    } else {
      PartialAttemptDelivered(initial, n, more);
    }
  }

  lemma {:induction false} Associative(x: seq<nat>, y: seq<nat>, z: seq<nat>)
    ensures x + y + z == x + (y + z)
  {
  }

  datatype Outcome = Cleared | NotConfirmed | Failed

  class Motor {
    /** The value of 0x4401, and every write to it that was delivered. */
    var held: nat
    var written: seq<nat>

    /** No transfer fails and the identity token stays current. */
    const undisturbed: bool

    /** What the motor shows after each attempt, counted from 0: whether the error is gone. */
    const clears: nat -> bool

    constructor (value: nat, calm: bool, shows: nat -> bool)
      ensures held == value && written == [] && undisturbed == calm && clears == shows
    {
      held := value;
      written := [];
      undisturbed, clears := calm, shows;
    }

    /** A failed write may still have reached the device. */
    method WriteOne(v: nat) returns (ok: bool)
      modifies this
      ensures (written == old(written) && held == old(held)) || (written == old(written) + [v] && held == v)
      ensures ok ==> written == old(written) + [v]
      ensures undisturbed ==> ok
    {
      var delivered: bool := *;
      var answered: bool := *;
      if delivered || undisturbed {
        written := written + [v];
        held := v;
        return answered || undisturbed;
      }
      return false;
    }

    /** `sent` is what was delivered of the attempt. */
    method TriggerClearError(rearm: bool) returns (ok: bool, ghost sent: seq<nat>)
      modifies this
      ensures written == old(written) + sent && sent <= Trigger(rearm)
      ensures ok ==> sent == if rearm then [0, 0xFF] else [0xFF]
      ensures undisturbed ==> ok
    {
      sent := [];
      if rearm {
        ok := WriteOne(0);
        sent := written[|old(written)|..];
        if !ok {
          return;
        }
      }
      ok := WriteOne(0xFF);
      sent := written[|old(written)|..];
    }

    /** One attempt: fails without the identity token, if a write fails, or if the motor does not answer. */
    method Attempt(number: nat) returns (outcome: Outcome, ghost sent: seq<nat>)
      modifies this
      ensures written == old(written) + sent && sent <= Trigger(number > 0)
      ensures !outcome.Failed? ==> sent == Trigger(number > 0) && (outcome.Cleared? <==> clears(number))
      ensures undisturbed ==> !outcome.Failed?
    {
      var tokenCurrent: bool := *;
      if !tokenCurrent && !undisturbed {
        return Failed, [];
      }
      var ok;
      ok, sent := TriggerClearError(number > 0);
      var answered: bool := *;
      answered := answered || undisturbed;
      outcome := if !ok || !answered then Failed else if clears(number) then Cleared else NotConfirmed;
    }

    /**
      Runs until an attempt is confirmed or fails. `tries` triggers were delivered
      completely and less than one more, and the device saw exactly all of them, or
      all but the first if it already held 0xFF. Left undisturbed it does not fail, and
      it is confirmed by the first attempt after which the motor shows no error, if
      there is one.
     */
    method ClearError(attempts: nat) returns (outcome: Outcome, ghost tries: nat, ghost sent: seq<nat>)
      modifies this
      ensures tries <= attempts && (outcome.NotConfirmed? ==> tries == attempts) && (outcome.Cleared? ==> tries > 0)
      ensures written == old(written) + sent
      ensures Delivered(old(held), sent, tries) && (!outcome.Failed? ==> sent == ClearWrites(tries))
      ensures undisturbed ==> !outcome.Failed?
      ensures !outcome.Failed? ==> (outcome.Cleared? <==> exists i :: 0 <= i < attempts && clears(i))
      ensures outcome.Cleared? ==> clears(tries - 1) && forall i :: 0 <= i < tries - 1 ==> !clears(i)
    {
      outcome, tries, sent := NotConfirmed, 0, [];
      for attempt := 0 to attempts
        invariant outcome.NotConfirmed? && tries == attempt && sent == ClearWrites(attempt)
        invariant written == old(written) + sent
        invariant forall i :: 0 <= i < attempt ==> !clears(i)
      {
        ghost var more;
        outcome, more := Attempt(attempt);
        AttemptDelivered(old(held), sent, attempt, more);
        Associative(old(written), sent, more);
        tries, sent := if more == Trigger(attempt > 0) then attempt + 1 else attempt, sent + more;
        if !outcome.NotConfirmed? {
          return;
        }
      }
      WholeAttemptsDelivered(old(held), tries);
    }
  }

  // ---------------------------------------------------------------------
  // Spacing of writes
  // ---------------------------------------------------------------------

  /** How long a writer that got the lock must still wait. */
  function RewriteDelay(lastCompleted: Option<nat>, now: nat): Option<nat> {
    if lastCompleted.None? then None
    else
      var elapsed := if now > lastCompleted.value then now - lastCompleted.value else 0;
      if elapsed >= 5_000 then None else Some(5_000 - elapsed)
  }

  /** A wait is long enough for the gap exactly if it is at least the delay. */
  lemma {:induction false} RewriteDelayMinimal(lastCompleted: Option<nat>, now: nat, wait: nat)
    requires lastCompleted.Some? ==> lastCompleted.value <= now
    ensures var delay := RewriteDelay(lastCompleted, now);
            (delay.Some? ==> delay.value <= wait)
            <==> (lastCompleted.Some? ==> lastCompleted.value + 5_000 <= now + wait)
  {
  }

  /** One SDO write to 0x4401 as the bus sees it. */
  datatype Write = Write(start: nat, end: nat)

  datatype Phase = Free | Waiting(until: nat) | Writing(start: nat)

  /** The per-node lock with the completion time it protects, and the writes so far. */
  datatype Lock = Lock(now: nat, phase: Phase, lastCompleted: Option<nat>, writes: seq<Write>)

  /**
    What can happen: time passes; some writer takes the free lock; the writer in
    the lock starts its write once its delay is over, finishes it, or is
    cancelled at either point. A write cancelled under way counts as completed.
   */
  datatype Step = Tick(us: nat) | TakeLock | StartWrite | FinishWrite | Cancel

  function Next(s: Lock, step: Step): Lock {
    match step
    case Tick(us) => s.(now := s.now + us)
    case TakeLock =>
      if !s.phase.Free? then s
      else
        var delay := RewriteDelay(s.lastCompleted, s.now);
        s.(phase := Waiting(if delay.Some? then s.now + delay.value else s.now))
    case StartWrite => if s.phase.Waiting? && s.now >= s.phase.until then s.(phase := Writing(s.now)) else s
    case FinishWrite => if s.phase.Writing? then Completed(s) else s
    case Cancel =>
      if s.phase.Writing? then Completed(s) else if s.phase.Waiting? then s.(phase := Free) else s
  }

  function Completed(s: Lock): Lock
    requires s.phase.Writing?
  {
    s.(phase := Free, lastCompleted := Some(s.now), writes := s.writes + [Write(s.phase.start, s.now)])
  }

  function Run(steps: seq<Step>): Lock {
    if steps == [] then Lock(0, Free, None, []) else Next(Run(steps[..|steps| - 1]), steps[|steps| - 1])
  }

  /** Writes do not overlap, and each starts at least the gap after the previous one ended. */
  ghost predicate Spaced(writes: seq<Write>) {
    && (forall i :: 0 <= i < |writes| ==> writes[i].start <= writes[i].end)
    && forall i, j :: 0 <= i < j < |writes| ==> writes[i].end + 5_000 <= writes[j].start
  }

  /** The earliest time the next write may start. */
  predicate NotBefore(s: Lock, t: nat) {
    s.lastCompleted.Some? ==> s.lastCompleted.value + 5_000 <= t
  }

  ghost predicate Orderly(s: Lock) {
    && Spaced(s.writes)
    && (s.writes == [] <==> s.lastCompleted.None?)
    && (s.writes != [] ==> s.lastCompleted == Some(s.writes[|s.writes| - 1].end))
    && (s.lastCompleted.Some? ==> s.lastCompleted.value <= s.now)
    && (s.phase.Waiting? ==> NotBefore(s, s.phase.until))
    && (s.phase.Writing? ==> NotBefore(s, s.phase.start) && s.phase.start <= s.now)
  }

  lemma {:induction false} CompletedOrderly(s: Lock)
    requires Orderly(s) && s.phase.Writing?
    ensures Orderly(Completed(s))
  {
    var n, all := |s.writes|, Completed(s).writes;
    forall i, j | 0 <= i < j < |all|
      ensures all[i].end + 5_000 <= all[j].start
    {
      if j == n && i < n - 1 {
        assert s.writes[i].end + 5_000 <= s.writes[n - 1].start <= s.writes[n - 1].end;
      }
    }
  }

  lemma {:induction false} NextOrderly(s: Lock, step: Step)
    requires Orderly(s)
    ensures Orderly(Next(s, step))
  {
    if s.phase.Writing? {
      CompletedOrderly(s);
    }
  }

  /** Under any interleaving and any cancellation. */
  lemma {:induction false} WritesNeverOverlap(steps: seq<Step>)
    ensures Orderly(Run(steps))
  {
    if steps != [] {
      WritesNeverOverlap(steps[..|steps| - 1]);
      NextOrderly(Run(steps[..|steps| - 1]), steps[|steps| - 1]);
    }
  }

  /**
    Whoever takes the free lock and waits `us` may start its write exactly if the
    gap is over by then: not earlier, and not later than it has to.
   */
  lemma {:induction false} WriterWaitsJustLongEnough(steps: seq<Step>, us: nat)
    requires Run(steps).phase.Free?
    ensures var s := Run(steps);
            Next(Next(Next(s, TakeLock), Tick(us)), StartWrite).phase.Writing? <==> NotBefore(s, s.now + us)
  {
    WritesNeverOverlap(steps);
    var s := Run(steps);
    RewriteDelayMinimal(s.lastCompleted, s.now, us);
    TakenLockWaits(s, us);
  }

  lemma {:induction false} TakenLockWaits(s: Lock, us: nat)
    requires s.phase.Free?
    ensures var delay := RewriteDelay(s.lastCompleted, s.now);
            Next(Next(Next(s, TakeLock), Tick(us)), StartWrite).phase.Writing? <==> (delay.Some? ==> delay.value <= us)
  {
  }
}
