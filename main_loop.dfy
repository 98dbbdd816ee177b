/** The main loop of `worker()` (worker/worker.py): fetch and run one task
    after another, sleeping with exponential back-off after a failure,
    until a "fish.exit" file appears, a signal stops the worker, or (in
    fleet mode) a task fails. What happens inside a task, the file test
    and the signals are inputs: one `Attempt` per pass of the loop. */
module MainLoop {

  const InitialRetryTime: int := 15
  const MaxRetryTime: int := 900

  /** What one pass of the loop observes. */
  datatype Attempt = Attempt(
    success: bool,          // what fetch_and_handle_task returned
    fishExit: bool,         // a "fish.exit" file exists afterwards
    alive: bool,            // current_state["alive"] afterwards (a signal clears it)
    signalledInSleep: bool) // a signal arrives during the back-off sleep

  /** Why the loop ended; `Unfinished` when the attempts given ran out
      while the worker was still alive. */
  datatype Stop = FishExit | Stopped | FleetError | Unfinished

  /** The observable course of the loop: why it stopped, the back-off
      sleeps in order, the delay it ended with, and the number of passes. */
  datatype Trace = Trace(stop: Stop, sleeps: seq<int>, delay: int, passes: nat)

  /** `min(MAX_RETRY_TIME, delay * 2)`. */
  function NextDelay(delay: int): int
  {
    if delay * 2 < MaxRetryTime then delay * 2 else MaxRetryTime
  }

  /** The loop as a function of the attempts and the current delay. */
  function Run(fleet: bool, attempts: seq<Attempt>, delay: int): Trace
    decreases |attempts|
  {
    if attempts == [] then Trace(Unfinished, [], delay, 0)
    else
      var a := attempts[0];
      if a.fishExit then Trace(FishExit, [], delay, 1)
      else if !a.alive then Trace(Stopped, [], delay, 1)
      else if !a.success then
        if fleet then Trace(FleetError, [], delay, 1)
        else if a.signalledInSleep then Trace(Stopped, [delay], NextDelay(delay), 1)
        else After([delay], 1, Run(fleet, attempts[1..], NextDelay(delay)))
      else After([], 1, Run(fleet, attempts[1..], InitialRetryTime))
  }

  /** A trace preceded by some sleeps and passes already made. */
  function After(sleeps: seq<int>, passes: nat, t: Trace): Trace
  {
    Trace(t.stop, sleeps + t.sleeps, t.delay, passes + t.passes)
  }

  /** The exit code `worker()` returns: 0 only when stopped by "fish.exit". */
  function ExitCode(stop: Stop): (code: int)
    requires stop != Unfinished
    ensures code == 0 <==> stop == FishExit
    ensures code == 0 || code == 1
  {
    if stop == FishExit then 0 else 1
  }

  /** The main loop of `worker()`. The delay starts at 15 seconds, doubles
      after each failed task up to 900 seconds, and is reset by a success. */
  method WorkerLoop(fleet: bool, attempts: seq<Attempt>) returns (t: Trace, exitCode: int)
    ensures t == Run(fleet, attempts, InitialRetryTime)
    ensures t.stop != Unfinished ==> exitCode == ExitCode(t.stop)
    ensures InitialRetryTime <= t.delay <= MaxRetryTime
  {
    var delay := InitialRetryTime;
    var alive := true;
    var sleeps: seq<int> := [];
    var i := 0;
    var stop := Unfinished;
    while alive && i < |attempts|
      invariant 0 <= i <= |attempts|
      invariant InitialRetryTime <= delay <= MaxRetryTime
      invariant alive ==> Run(fleet, attempts, InitialRetryTime) == After(sleeps, i, Run(fleet, attempts[i..], delay))
      invariant !alive ==> Run(fleet, attempts, InitialRetryTime) == Trace(stop, sleeps, delay, i)
      invariant alive <==> stop == Unfinished
      decreases |attempts| - i, alive
    {
      var a := attempts[i];
      ghost var rest := attempts[i..];
      assert rest[0] == a && rest[1..] == attempts[i + 1..];
      assert sleeps + [] == sleeps;
      i := i + 1;
      alive := a.alive;
      if a.fishExit {
        alive := false;
        stop := FishExit;
        break;
      } else if !alive {
        stop := Stopped;
        break;
      } else if !a.success {
        if fleet {
          alive := false;
          stop := FleetError;
          break;
        } else {
          sleeps := sleeps + [delay];
          if a.signalledInSleep {
            alive := false;
            stop := Stopped;
          }
          delay := NextDelay(delay);
        }
      } else {
        delay := InitialRetryTime;
      }
    }
    if alive {
      assert attempts[i..] == [] && sleeps + [] == sleeps;
    }
    t := Trace(stop, sleeps, delay, i);
    exitCode := if stop == FishExit then 0 else 1;
  }

  /** Every back-off sleep lies between 15 and 900 seconds. */
  lemma {:induction false} SleepsBounded(fleet: bool, attempts: seq<Attempt>, delay: int)
    requires InitialRetryTime <= delay <= MaxRetryTime
    ensures var t := Run(fleet, attempts, delay);
      (forall k :: 0 <= k < |t.sleeps| ==> InitialRetryTime <= t.sleeps[k] <= MaxRetryTime)
      && InitialRetryTime <= t.delay <= MaxRetryTime
  {
    if attempts != [] {
      SleepsBounded(fleet, attempts[1..], NextDelay(delay));
      SleepsBounded(fleet, attempts[1..], InitialRetryTime);
    }
  }

  /** In fleet mode the worker never sleeps: the first failure ends it. */
  lemma {:induction false} FleetNeverSleeps(attempts: seq<Attempt>, delay: int)
    ensures Run(true, attempts, delay).sleeps == []
    ensures Run(true, attempts, delay).stop == FleetError ==>
      var n := Run(true, attempts, delay).passes;
      0 < n <= |attempts| && !attempts[n - 1].success
  {
    if attempts != [] && !attempts[0].fishExit && attempts[0].alive && attempts[0].success {
      FleetNeverSleeps(attempts[1..], InitialRetryTime);
    }
  }

  function Pow2(n: nat): (p: nat)
    ensures p >= 1
  {
    if n == 0 then 1 else 2 * Pow2(n - 1)
  }

  /** The delay after `n` failures in a row: 15 * 2^n seconds, capped at 900. */
  function Backoff(n: nat): int
  {
    if InitialRetryTime * Pow2(n) < MaxRetryTime then InitialRetryTime * Pow2(n) else MaxRetryTime
  }

  /** Doubling with the cap steps the closed form by one. */
  lemma NextDelayBackoff(n: nat)
    ensures NextDelay(Backoff(n)) == Backoff(n + 1)
  {
    assert Pow2(n + 1) == 2 * Pow2(n);
  }

  /** The cap is reached after the sixth failure in a row (15 * 2^6 = 960). */
  lemma {:induction false} BackoffCapped(n: nat)
    ensures n < 6 ==> Backoff(n) == InitialRetryTime * Pow2(n) < MaxRetryTime
    ensures n >= 6 ==> Backoff(n) == MaxRetryTime
  {
    if n >= 6 {
      PowMonotone(6, n);
      assert Pow2(6) == 64;
    } else {
      PowMonotone(n, 5);
      assert Pow2(5) == 32;
    }
  }

  lemma {:induction false} PowMonotone(m: nat, n: nat)
    requires m <= n
    ensures Pow2(m) <= Pow2(n)
  {
    if m < n {
      PowMonotone(m, n - 1);
    }
  }

  /** A failure that stops nothing: the worker is alive, there is no
      "fish.exit" file and no signal during the sleep. */
  predicate PlainFailure(a: Attempt)
  {
    !a.success && !a.fishExit && a.alive && !a.signalledInSleep
  }

  /** After `m` failures in a row, a run of further plain failures sleeps
      15 * 2^m, 15 * 2^(m+1), ... seconds, each capped at 900. */
  lemma {:induction false} SleepsDouble(attempts: seq<Attempt>, m: nat, n: nat)
    requires n <= |attempts|
    requires forall k :: 0 <= k < n ==> PlainFailure(attempts[k])
    ensures |Run(false, attempts, Backoff(m)).sleeps| >= n
    ensures forall k :: 0 <= k < n ==> Run(false, attempts, Backoff(m)).sleeps[k] == Backoff(m + k)
  {
    if n > 0 {
      NextDelayBackoff(m);
      SleepsDouble(attempts[1..], m + 1, n - 1);
    }
  }

  /** A success forgets the history: what follows it does not depend on
      the delay the worker had before. */
  lemma SuccessResets(fleet: bool, attempts: seq<Attempt>, d1: int, d2: int)
    requires attempts != [] && attempts[0].success && !attempts[0].fishExit && attempts[0].alive
    ensures Run(fleet, attempts, d1) == Run(fleet, attempts, d2)
  {
  }
}
