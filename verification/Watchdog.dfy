/** `_monitor_worker` (`scripts/validate_model_adapters.py`): a loop that samples a worker
    until it exits, uses too much memory, cannot be measured, or runs out of time. */
module Watchdog {
  import opened Wrappers

  /** What one pass of the loop would see: whether the worker runs, its memory in MiB if it can
      be measured, whether it still runs right after, and the clock. */
  datatype Sample = Sample(running: bool, memory: Option<real>, stillRunning: bool, now: real)

  type Trace = nat -> Sample

  const MEMORY_CAP: real := 28672.0
  const PAUSE: real := 0.25
  const MISSING_LIMIT: nat := 5

  /** Passes are at least a pause apart: `time.sleep` never returns early. */
  ghost predicate ClockAdvances(trace: Trace, start: real) {
    trace(0).now >= start && forall i: nat :: trace(i + 1).now >= trace(i).now + PAUSE
  }

  datatype Verdict =
    | Exited
    | TelemetryUnavailable
    | MemoryExceeded(mib: real)
    | TimedOut

  /** The verdict, or the exception of a worker that survived both attempts to end it. */
  datatype Outcome = Returned(verdict: Verdict) | TerminationFailed(verdict: Verdict)

  // ----- what decides a run -----

  ghost predicate FiveMissing(trace: Trace, i: nat) {
    i + 1 >= MISSING_LIMIT && forall j: nat :: i + 1 - MISSING_LIMIT <= j <= i ==> trace(j).memory.None?
  }

  /** What pass `i` decides, if anything. */
  ghost function Decision(trace: Trace, deadline: real, i: nat): Option<Verdict> {
    var s := trace(i);
    if !s.running then Some(Exited)
    else if s.memory.None? then
      if !s.stillRunning then Some(Exited)
      else if FiveMissing(trace, i) then Some(TelemetryUnavailable)
      else None
    else if s.memory.value > MEMORY_CAP then Some(MemoryExceeded(s.memory.value))
    else if s.now >= deadline then Some(TimedOut)
    else None
  }

  /** Pass `n` is the first to decide, and decides `v`. */
  ghost predicate FirstDecision(trace: Trace, deadline: real, n: nat, v: Verdict) {
    Decision(trace, deadline, n) == Some(v) && forall i: nat :: i < n ==> Decision(trace, deadline, i).None?
  }

  /** A pass leaves the worker alone exactly when it runs and either could not be measured, for
      fewer than five passes in a row, or is within 28 GiB before the deadline. */
  lemma LeftAloneIff(trace: Trace, deadline: real, i: nat)
    ensures Decision(trace, deadline, i).None? <==>
            (&& trace(i).running
             && (|| (trace(i).memory.None? && trace(i).stillRunning && (i < 4 || exists j: nat :: i - 4 <= j <= i && trace(j).memory.Some?))
                 || (trace(i).memory.Some? && trace(i).memory.value <= 28672.0 && trace(i).now < deadline)))
  {
    if i >= 4 {
      assert FiveMissing(trace, i) <==> forall j: nat :: i - 4 <= j <= i ==> trace(j).memory.None?;
    }
  }

  /** What each verdict says about the pass that gave it. */
  lemma VerdictMeans(trace: Trace, deadline: real, i: nat, v: Verdict)
    requires Decision(trace, deadline, i) == Some(v)
    ensures match v
            case Exited => !trace(i).running || (trace(i).memory.None? && !trace(i).stillRunning)
            case TelemetryUnavailable => trace(i).running && i >= 4 && forall j: nat :: i - 4 <= j <= i ==> trace(j).memory.None?
            case MemoryExceeded(mib) => trace(i).running && trace(i).memory == Some(mib) && mib > 28672.0
            case TimedOut => trace(i).running && trace(i).memory.Some? && trace(i).memory.value <= 28672.0 && trace(i).now >= deadline
  {
  }

  /** A worker that is measured within the cap on every pass before the deadline, until it exits, is
      never ended: the run is over at its exit. */
  lemma GoodWorkerIsLeftAlone(trace: Trace, deadline: real, n: nat)
    requires forall i: nat :: i < n ==>
               trace(i).running && trace(i).memory.Some? && trace(i).memory.value <= 28672.0 && trace(i).now < deadline
    requires !trace(n).running
    ensures FirstDecision(trace, deadline, n, Exited)
  {
    forall i: nat | i < n
      ensures Decision(trace, deadline, i).None?
    {
      LeftAloneIff(trace, deadline, i);
    }
  }

  // ----- time -----

  /** Passes that may still begin before the deadline. */
  function Ticks(deadline: real, now: real): nat {
    if now >= deadline then 0 else ((deadline - now) * 4.0).Floor + 1
  }

  lemma TicksFall(deadline: real, now: real, later: real)
    requires later >= now + PAUSE
    ensures now < deadline ==> Ticks(deadline, later) < Ticks(deadline, now)
    ensures now >= deadline ==> Ticks(deadline, later) == 0
  {
  }

  lemma {:induction false} ClockAt(trace: Trace, start: real, i: nat)
    requires ClockAdvances(trace, start)
    ensures trace(i).now >= start + i as real * PAUSE
  {
    if i > 0 {
      ClockAt(trace, start, i - 1);
      assert trace(i - 1 + 1).now >= trace(i - 1).now + PAUSE;
    }
  }

  lemma {:induction false} ClockNeverTurnsBack(trace: Trace, start: real, i: nat, j: nat)
    requires ClockAdvances(trace, start) && i <= j
    ensures trace(i).now <= trace(j).now
    decreases j
  {
    if i < j {
      ClockNeverTurnsBack(trace, start, i, j - 1);
      assert trace(j - 1 + 1).now >= trace(j - 1).now + PAUSE;
    }
  }

  /** However missing and present telemetry alternate, a run that is undecided for four passes
      at or after the deadline is decided by the fifth. */
  lemma FifthPassDecides(trace: Trace, start: real, deadline: real, d: nat)
    requires ClockAdvances(trace, start) && trace(d).now >= deadline
    requires forall j: nat :: d <= j < d + 4 ==> Decision(trace, deadline, j).None?
    ensures Decision(trace, deadline, d + 4).Some?
  {
    var i := d + 4;
    ClockNeverTurnsBack(trace, start, d, i);
    if trace(i).memory.None? {
      forall j: nat | d <= j <= i
        ensures trace(j).memory.None?
      {
        ClockNeverTurnsBack(trace, start, d, j);
        assert j < i ==> Decision(trace, deadline, j).None?;
      }
      assert FiveMissing(trace, i);
    }
  }

  /** At most five samples are taken at or after the deadline, the deciding one included; so a
      run ends within its timeout, in pauses, plus four more. */
  lemma RunIsShort(trace: Trace, start: real, timeout: real, n: nat, v: Verdict)
    requires ClockAdvances(trace, start) && FirstDecision(trace, start + timeout, n, v)
    ensures forall d: nat :: trace(d).now >= start + timeout ==> n <= d + 4
    ensures n <= Ticks(start + timeout, start) + 4
  {
    hide Decision;
    var deadline := start + timeout;
    forall d: nat | trace(d).now >= deadline
      ensures n <= d + 4
    {
      if n > d + 4 {
        FifthPassDecides(trace, start, deadline, d);
      }
    }
    var d := Ticks(deadline, start);
    ClockAt(trace, start, d);
    assert trace(d).now >= deadline;
  }

  // ----- the loop -----

  /** How a worker takes being ended: whether it is gone by the time it is polled for that; else
      whether it exits within the wait after SIGTERM, or within the wait after SIGKILL. */
  datatype Reaction = Reaction(gone: bool, obeys: bool, dies: bool)

  class Worker {
    const trace: Trace
    const reaction: Reaction
    var samples: nat
    var exited: bool      // the exit status has been collected
    var terminated: bool  // SIGTERM was sent
    var killed: bool      // SIGKILL was sent

    constructor (trace: Trace, reaction: Reaction)
      ensures this.trace == trace && this.reaction == reaction && samples == 0 && !exited && !terminated && !killed
    {
      this.trace := trace;
      this.reaction := reaction;
      samples := 0;
      exited, terminated, killed := false, false, false;
    }

    /** The worker is dead at the end of a wait: it was gone, or a signal it was sent worked. */
    predicate Dead()
      reads this
    {
      reaction.gone || (terminated && reaction.obeys) || (killed && reaction.dies)
    }

    /** `process.poll()`, given what it finds. */
    method Poll(running: bool) returns (r: bool)
      modifies this`exited
      ensures r == running && exited == (old(exited) || !running)
    {
      if !running {
        exited := true;
      }
      return running;
    }

    /** `process.wait(timeout=3.0)`: it collects the exit status, or the wait expires. */
    method Wait() returns (expired: bool)
      modifies this`exited
      ensures expired == !Dead() && exited == (old(exited) || Dead())
    {
      expired := !Dead();
      if !expired {
        exited := true;
      }
    }

    /** `_terminate_worker_tree` on the worker itself: terminate, wait, kill, wait. It raises
        exactly when both waits expire, that is when the worker outlives both signals; a return
        means that the worker has exited; SIGKILL goes only to a worker that outlived SIGTERM. */
    method Terminate(verdict: Verdict) returns (outcome: Outcome)
      requires !exited && !terminated && !killed
      modifies this`exited, this`terminated, this`killed
      ensures outcome.verdict == verdict
      ensures outcome.TerminationFailed? <==> !reaction.gone && !reaction.obeys && !reaction.dies
      ensures outcome.Returned? <==> exited
      ensures exited ==> Dead()
      ensures terminated <==> !reaction.gone
      ensures killed <==> !reaction.gone && !reaction.obeys
    {
      var running := Poll(!reaction.gone);
      if running {
        terminated := true;
      }
      var expired := Wait();
      if expired {
        killed := true;
        expired := Wait();
        if expired {
          return TerminationFailed(verdict);
        }
      }
      return Returned(verdict);
    }
  }

  /** The counter is the length of the present run of missing samples. */
  ghost predicate Counts(trace: Trace, i: nat, missing: nat) {
    && missing <= i && missing < MISSING_LIMIT
    && (forall j: nat :: i - missing <= j < i ==> trace(j).memory.None?)
    && (missing < i ==> trace(i - missing - 1).memory.Some?)
  }

  lemma CountStep(trace: Trace, i: nat, missing: nat)
    requires Counts(trace, i, missing) && trace(i).memory.None?
    ensures missing + 1 >= MISSING_LIMIT <==> FiveMissing(trace, i)
    ensures missing + 1 < MISSING_LIMIT ==> Counts(trace, i + 1, missing + 1)
  {
    if FiveMissing(trace, i) && missing < i {
      assert trace(i - missing - 1).memory.Some?;
    }
  }

  /** `_monitor_worker`: it ends, at the first pass that decides, with that pass's verdict; it
      does not return while the worker runs, and raises exactly when a worker to be ended outlives
      both signals. */
  method MonitorWorker(worker: Worker, start: real, timeout: real) returns (outcome: Outcome)
    requires worker.samples == 0 && !worker.exited && !worker.terminated && !worker.killed && ClockAdvances(worker.trace, start)
    modifies worker
    ensures FirstDecision(worker.trace, start + timeout, worker.samples, outcome.verdict)
    ensures outcome.Returned? <==> worker.exited
    ensures outcome.TerminationFailed? <==>
            !outcome.verdict.Exited? && !worker.reaction.gone && !worker.reaction.obeys && !worker.reaction.dies
  {
    hide FiveMissing, Ticks;
    var deadline := start + timeout;
    var missing := 0;
    var i := 0;
    while true
      invariant worker.samples == i && !worker.exited && !worker.terminated && !worker.killed && Counts(worker.trace, i, missing)
      invariant forall j: nat :: j < i ==> Decision(worker.trace, deadline, j).None?
      decreases Ticks(deadline, worker.trace(i).now), MISSING_LIMIT - missing
    {
      var seen := worker.trace(i);
      var running := worker.Poll(seen.running);
      if !running {
        return Returned(Exited);
      }
      assert worker.trace(i + 1).now >= seen.now + PAUSE;
      TicksFall(deadline, seen.now, worker.trace(i + 1).now);
      if seen.memory.None? {
        var still := worker.Poll(seen.stillRunning);
        if !still {
          return Returned(Exited);
        }
        CountStep(worker.trace, i, missing);
        missing := missing + 1;
        if missing >= MISSING_LIMIT {
          outcome := worker.Terminate(TelemetryUnavailable);
          return;
        }
      } else {
        missing := 0;
        if seen.memory.value > MEMORY_CAP {
          outcome := worker.Terminate(MemoryExceeded(seen.memory.value));
          return;
        }
        if seen.now >= deadline {
          outcome := worker.Terminate(TimedOut);
          return;
        }
      }
      i := i + 1;
      worker.samples := i;
    }
  }
}
