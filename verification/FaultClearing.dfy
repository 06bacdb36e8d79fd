/**
  The fault-clear loop of src/cia402/initialize.rs: how many attempts it makes,
  and which of them decides between success, a communication reset and failure;
  and that the attempts of the session protocol take the same course.
 */
module FaultClearing {
  import opened Wrappers
  import opened SessionEntry
  import opened SessionProtocol

  /**
    What attempt k meets: an SDO write of the attempt fails; or the two reads
    give both values, or not; and the TPDO2 cache converges in time, or not.
   */
  datatype Attempted = Attempted(writesFail: bool, readings: Option<Observation>, converges: bool)

  datatype Result = FaultCleared(attempt: nat) | NeedsReset | StillFaulted | WriteFailed(attempt: nat)

  /** The attempt reads back clean and the TPDO2 cache agrees. */
  predicate Clears(a: Attempted) {
    !a.writesFail && a.readings.Some? && Clean(a.readings.value) && a.converges
  }

  /** The attempt ends the loop. */
  predicate Ends(a: Attempted) {
    a.writesFail || Clears(a)
  }

  ghost predicate NoneEnds(met: seq<Attempted>, n: nat)
    requires n <= |met|
  {
    forall k :: 0 <= k < n ==> !Ends(met[k])
  }

  /** Attempt k, counted from 1, is the first to end the loop. */
  ghost predicate EndsFirst(met: seq<Attempted>, attempts: nat, k: nat)
    requires attempts <= |met|
  {
    1 <= k <= attempts && NoneEnds(met, k - 1) && Ends(met[k - 1])
  }

  /** What the loop has to return for what the attempts meet. */
  ghost predicate Decides(met: seq<Attempted>, attempts: nat, r: Result)
    requires 1 <= attempts <= |met|
  {
    match r
    case FaultCleared(k) => EndsFirst(met, attempts, k) && Clears(met[k - 1])
    case WriteFailed(k) => EndsFirst(met, attempts, k) && met[k - 1].writesFail
    case NeedsReset => NoneEnds(met, attempts) && Sticky(met[attempts - 1].readings)
    case StillFaulted => NoneEnds(met, attempts) && !Sticky(met[attempts - 1].readings)
  }

  /** There is only one such result. */
  lemma {:induction false} DecisionIsUnique(met: seq<Attempted>, attempts: nat, r: Result, r': Result)
    requires 1 <= attempts <= |met| && Decides(met, attempts, r) && Decides(met, attempts, r')
    ensures r == r'
  {
    if EndingAttempt(r).Some? && EndingAttempt(r').Some? {
      FirstIsUnique(met, attempts, EndingAttempt(r).value, EndingAttempt(r').value);
    }
  }

  function EndingAttempt(r: Result): Option<nat> {
    match r
    case FaultCleared(k) => Some(k)
    case WriteFailed(k) => Some(k)
    case NeedsReset => None
    case StillFaulted => None
  }

  lemma {:induction false} FirstIsUnique(met: seq<Attempted>, attempts: nat, j: nat, k: nat)
    requires attempts <= |met| && EndsFirst(met, attempts, j) && EndsFirst(met, attempts, k)
    ensures j == k
  {
    assert Ends(met[j - 1]) && Ends(met[k - 1]);
  }

  /** `met` is what each attempt would meet. */
  method ClearHeartbeatFault(configured: nat, met: seq<Attempted>) returns (r: Result)
    requires |met| >= Attempts(configured)
    ensures Decides(met, Attempts(configured), r)
  {
    var attempts := if configured == 0 then 1 else configured;
    var last := None;
    for k := 0 to attempts
      invariant NoneEnds(met, k)
      invariant k > 0 ==> last == met[k - 1].readings
    {
      if met[k].writesFail {
        return WriteFailed(k + 1);
      }
      match met[k].readings {
        case Some(seen) =>
          last := Some(seen);
          if Clean(seen) && met[k].converges {
            return FaultCleared(k + 1);
          }
        case None => last := None;
      }
    }
    return if Sticky(last) then NeedsReset else StillFaulted;
  }

  // ---------------------------------------------------------------------
  // The same loop as steps of the session protocol
  // ---------------------------------------------------------------------

  /** The states of the node when the attempt takes its readings, and when its wait for TPDO2 ends. */
  datatype Moments = Moments(reading: System, waited: System)

  /** The wait ends in time exactly if the cache has converged. */
  predicate Fits(w: Moments, a: Attempted) {
    a.converges ==> FreshAndClean(w.waited.entry, w.reading.entry.tpdo2Revision)
  }

  /** The record of the call after one attempt: the step that reads, and then, if that came out clean, the wait. */
  function AfterAttempt(w: Moments, r: InitRun, a: Attempted): InitRun
    requires r.phase.Attempt?
  {
    var t := TaskStep(w.reading, Initing(r), if a.writesFail then Fails else Observed(a.readings)).task;
    if t.init.phase.Converge? then TaskStep(w.waited, t, Waits(a.converges)).task.init else t.init
  }

  /** The record after n attempts, or after those that were made. */
  function AfterAttempts(ws: seq<Moments>, r: InitRun, met: seq<Attempted>, n: nat): InitRun
    requires n <= |met| && |ws| == |met|
  {
    if n == 0 then r
    else
      var earlier := AfterAttempts(ws, r, met, n - 1);
      if earlier.phase.Attempt? then AfterAttempt(ws[n - 1], earlier, met[n - 1]) else earlier
  }

  lemma {:induction false} OneAttempt(w: Moments, r: InitRun, a: Attempted)
    requires r.phase.Attempt? && Fits(w, a)
    ensures var r' := AfterAttempt(w, r, a);
            if a.writesFail then r' == r.(phase := Unwind, sticky := false)
            else if Clears(a) then r' == r.(phase := Commit, tried := r.tried + 1, last := a.readings)
            else r' == NextAttempt(r.(tried := r.tried + 1, last := a.readings))
  {
  }

  ghost predicate AllFit(ws: seq<Moments>, met: seq<Attempted>)
    requires |ws| == |met|
  {
    forall k :: 0 <= k < |met| ==> Fits(ws[k], met[k])
  }

  /** The record of a loop that has made n attempts, none of which ended it. */
  predicate GoesOn(r: InitRun, met: seq<Attempted>, n: nat, r': InitRun)
    requires n <= |met|
  {
    && r'.attempts == r.attempts && r'.tried == n
    && r'.phase == (if n < r.attempts then Attempt else Exhausted)
    && (n > 0 ==> r'.last == met[n - 1].readings)
  }

  lemma {:induction false} GoesOnStep(w: Moments, r: InitRun, met: seq<Attempted>, n: nat, r': InitRun)
    requires 0 < n <= r.attempts && n <= |met| && Fits(w, met[n - 1]) && !Ends(met[n - 1])
    requires GoesOn(r, met, n - 1, r')
    ensures GoesOn(r, met, n, AfterAttempt(w, r', met[n - 1]))
  {
    OneAttempt(w, r', met[n - 1]);
  }

  lemma {:induction false} AttemptsGoOn(ws: seq<Moments>, r: InitRun, met: seq<Attempted>, n: nat)
    requires |ws| == |met| && AllFit(ws, met) && n <= r.attempts <= |met|
    requires r.phase.Attempt? && r.tried == 0 && r.attempts > 0 && NoneEnds(met, n)
    ensures GoesOn(r, met, n, AfterAttempts(ws, r, met, n))
  {
    if n > 0 {
      AttemptsGoOn(ws, r, met, n - 1);
      GoesOnStep(ws[n - 1], r, met, n, AfterAttempts(ws, r, met, n - 1));
    }
  }

  lemma {:induction false} EndedStays(ws: seq<Moments>, r: InitRun, met: seq<Attempted>, k: nat, n: nat)
    requires |ws| == |met| && k <= n <= |met| && !AfterAttempts(ws, r, met, k).phase.Attempt?
    ensures AfterAttempts(ws, r, met, n) == AfterAttempts(ws, r, met, k)
  {
    if k < n {
      EndedStays(ws, r, met, k, n - 1);
    }
  }

  /**
    Whatever else happens to the node meanwhile, the attempts of the session
    protocol come to Commit, to a rollback, or to the end of the attempts with or
    without the sticky observation, exactly as the loop decides, and after as many
    attempts.
   */
  lemma {:induction false} LoopIsProtocol(ws: seq<Moments>, run: InitRun, met: seq<Attempted>, r: Result)
    requires |ws| == |met| && AllFit(ws, met) && 1 <= run.attempts <= |met|
    requires run.phase.Attempt? && run.tried == 0 && Decides(met, run.attempts, r)
    ensures var end := AfterAttempts(ws, run, met, run.attempts);
            match r
            case FaultCleared(k) => end.phase.Commit? && end.tried == k && end.last == met[k - 1].readings
            case WriteFailed(k) => end.phase.Unwind? && !end.sticky && end.tried == k - 1
            case NeedsReset => end.phase.Exhausted? && Sticky(end.last)
            case StillFaulted => end.phase.Exhausted? && !Sticky(end.last)
  {
    if EndingAttempt(r).Some? {
      var k := EndingAttempt(r).value;
      AttemptsGoOn(ws, run, met, k - 1);
      OneAttempt(ws[k - 1], AfterAttempts(ws, run, met, k - 1), met[k - 1]);
      EndedStays(ws, run, met, k, run.attempts);
    } else {
      AttemptsGoOn(ws, run, met, run.attempts);
    }
  }
}
