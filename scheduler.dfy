/** The worker's throttle on asking the scheduler for a task: free calls
    while there is work, one call every 3 seconds when there is none. Times
    are seconds on the monotonic clock, passed in as reals. */
module Scheduler {
  import opened Wrappers

  const NoTaskWait: real := 3.0

  /** The decision `_check_call` takes, and the call time it records. */
  function Decide(hasTask: bool, lastCallTime: Option<real>, now: real): (r: (bool, Option<real>))
    ensures hasTask ==> r == (true, lastCallTime)
    ensures !hasTask && lastCallTime.None? ==> r == (true, Some(now))
    ensures !hasTask && lastCallTime.Some? ==>
      (r.0 <==> now - lastCallTime.value >= NoTaskWait) &&
      r.1 == (if r.0 then Some(now) else lastCallTime)
  {
    if hasTask then (true, lastCallTime)
    else if lastCallTime.None? then (true, Some(now))
    else if now - lastCallTime.value >= NoTaskWait then (true, Some(now))
    else (false, lastCallTime)
  }

  /** `WorkerGetTaskService`. */
  class WorkerGetTaskService {
    var hasTask: bool
    var lastCallTime: Option<real>

    constructor ()
      ensures hasTask && lastCallTime.None?
    {
      hasTask := true;
      lastCallTime := None;
    }

    /** `_check_call()` at time `now`. */
    method CheckCall(now: real) returns (allowed: bool)
      modifies this
      ensures (allowed, lastCallTime) == Decide(old(hasTask), old(lastCallTime), now)
      ensures hasTask == old(hasTask)
    {
      if hasTask {
        return true;
      }
      if lastCallTime.None? {
        lastCallTime := Some(now);
        return true;
      }
      if now - lastCallTime.value >= NoTaskWait {
        lastCallTime := Some(now);
        return true;
      }
      return false;
    }

    /** `get_task()` at time `now`; `remote` is what the scheduler would
        answer. A throttled call returns None without asking and leaves
        `hasTask` alone; otherwise `hasTask` records whether a task came. */
    method GetTask(now: real, remote: Option<string>) returns (task: Option<string>)
      modifies this
      ensures var d := Decide(old(hasTask), old(lastCallTime), now);
        lastCallTime == d.1 &&
        (d.0 ==> task == remote && hasTask == remote.Some?) &&
        (!d.0 ==> task.None? && hasTask == old(hasTask))
    {
      var allowed := CheckCall(now);
      if !allowed {
        return None;
      }
      task := remote;
      hasTask := task.Some?;
    }
  }

  /** The decisions over successive call times when no task is ever found,
      starting from the recorded time `last`. */
  function Run(last: Option<real>, times: seq<real>): (r: seq<bool>)
    ensures |r| == |times|
    decreases |times|
  {
    if times == [] then []
    else
      var d := Decide(false, last, times[0]);
      [d.0] + Run(d.1, times[1..])
  }

  /** The time recorded after the first `n` calls of a run. */
  function LastAfter(last: Option<real>, times: seq<real>, n: nat): Option<real>
    requires n <= |times|
    decreases n
  {
    if n == 0 then last else Decide(false, LastAfter(last, times, n - 1), times[n - 1]).1
  }

  lemma {:induction false} RunStep(last: Option<real>, times: seq<real>, n: nat)
    requires n < |times|
    ensures Run(last, times)[n] == Decide(false, LastAfter(last, times, n), times[n]).0
    decreases n
  {
    if n > 0 {
      var d := Decide(false, last, times[0]);
      RunStep(d.1, times[1..], n - 1);
      LastAfterShift(last, times, n);
    }
  }

  lemma {:induction false} LastAfterShift(last: Option<real>, times: seq<real>, n: nat)
    requires 0 < n <= |times|
    ensures LastAfter(Decide(false, last, times[0]).1, times[1..], n - 1) == LastAfter(last, times, n)
    decreases n
  {
    if n > 1 {
      LastAfterShift(last, times, n - 1);
    }
  }

  /** The recorded time is the time of the latest allowed call. */
  lemma {:induction false} LastIsLatestAllowed(last: Option<real>, times: seq<real>, i: nat, n: nat)
    requires i < n <= |times| && Run(last, times)[i]
    requires forall k :: i < k < n ==> !Run(last, times)[k]
    ensures LastAfter(last, times, n) == Some(times[i])
    decreases n
  {
    RunStep(last, times, n - 1);
    if n - 1 > i {
      LastIsLatestAllowed(last, times, i, n - 1);
    }
  }

  /** With no task, two allowed calls with none allowed between them are at
      least 3 seconds apart. */
  lemma {:induction false} RunSpacing(last: Option<real>, times: seq<real>, i: nat, j: nat)
    requires i < j < |times| && Run(last, times)[i] && Run(last, times)[j]
    requires forall k :: i < k < j ==> !Run(last, times)[k]
    ensures times[j] - times[i] >= NoTaskWait
  {
    LastIsLatestAllowed(last, times, i, j);
    RunStep(last, times, j);
  }

  /** The first call is always allowed. */
  lemma {:induction false} FirstCallAllowed(times: seq<real>)
    requires times != []
    ensures Run(None, times)[0]
  {
  }
}
