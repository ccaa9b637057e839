/** The movable deadline of internal/server/stack_jobs.go. A deadline is a value that the timer
    goroutine, callers of Extend and the worker's Stop change in any order; `Step` is one such
    change, made under the deadline's mutex, and a run is any sequence of them on a clock that
    never goes back. Times are integers in nanoseconds. */
module Deadlines {

  /** time.Timer of time.AfterFunc: waiting, its function started, or stopped. */
  datatype Timer = Armed(fireAt: int) | Expired | Halted

  /** The cause recorded by context.WithCancelCause; only the first cancel is recorded. */
  datatype Cause = Active | TimedOut | Released

  datatype Deadline = Deadline(deadline: int, timer: Timer, cancelling: bool, cause: Cause)

  /** `read` is the clock reading used in the arithmetic and `armed` the later moment at which the
      runtime starts the timer. `Expire` launches the timer's goroutine, `RunCancel` is that
      goroutine calling cancel. */
  datatype Event =
    | Extend(extra: int, read: int, armed: int)
    | Expire(at: int)
    | RunCancel(at: int)
    | Stop(at: int)
  {
    function Time(): int {
      match this
      case Extend(_, _, armed) => armed
      case Expire(at) => at
      case RunCancel(at) => at
      case Stop(at) => at
    }
  }

  function Max(a: int, b: int): int { if a < b then b else a }

  /** newExtendableDeadline */
  function New(timeout: int, read: int, armed: int): Deadline {
    Deadline(read + timeout, Armed(armed + Max(0, timeout)), false, Active)
  }

  /** What a state and an event need for the event to be possible after time `now`. */
  predicate Enabled(d: Deadline, e: Event, now: int) {
    && now <= e.Time()
    && match e
       case Extend(extra, read, armed) => now <= read <= armed
       case Expire(at) => d.timer.Armed? && d.timer.fireAt <= at
       case RunCancel(_) => d.cancelling
       case Stop(_) => true
  }

  /** (*extendableDeadline).Extend reports whether the timer could still be stopped. */
  predicate Granted(d: Deadline, e: Event) {
    e.Extend? && d.timer.Armed?
  }

  function Cancel(c: Cause, cause: Cause): Cause {
    if c.Active? then cause else c
  }

  function Step(d: Deadline, e: Event): Deadline {
    match e
    case Extend(extra, read, armed) =>
      if d.timer.Armed? then
        d.(deadline := d.deadline + extra, timer := Armed(armed + Max(0, d.deadline + extra - read)))
      else d
    case Expire(_) => d.(timer := Expired, cancelling := true)
    case RunCancel(_) => d.(cancelling := false, cause := Cancel(d.cause, TimedOut))
    case Stop(_) =>
      d.(timer := if d.timer.Armed? then Halted else d.timer, cause := Cancel(d.cause, Released))
  }

  /** Nothing has happened early: the timer is not set before the deadline, and once it went off
      the deadline has passed. */
  predicate OnTime(d: Deadline, now: int) {
    && (d.timer.Armed? ==> d.deadline <= d.timer.fireAt && d.cause.Active? && !d.cancelling)
    && (d.timer.Expired? ==> d.deadline <= now)
    && (d.cancelling || d.cause.TimedOut? ==> d.timer.Expired?)
  }

  lemma StepStaysOnTime(d: Deadline, e: Event, now: int)
    requires OnTime(d, now) && Enabled(d, e, now)
    ensures OnTime(Step(d, e), e.Time())
  {
  }

  /** A run of a deadline created at `read`/`armed`: all states, one more than the events. */
  ghost predicate IsRun(ds: seq<Deadline>, es: seq<Event>, timeout: int, read: int, armed: int) {
    && |ds| == |es| + 1
    && read <= armed
    && ds[0] == New(timeout, read, armed)
    && forall i :: 0 <= i < |es| ==>
         Enabled(ds[i], es[i], Clock(es, i, armed)) && ds[i + 1] == Step(ds[i], es[i])
  }

  /** The clock before event `i`. */
  ghost function Clock(es: seq<Event>, i: nat, start: int): int
    requires i <= |es|
  {
    if i == 0 then start else es[i - 1].Time()
  }

  /** The time added by the granted extensions among the first `n` events. */
  ghost function Added(ds: seq<Deadline>, es: seq<Event>, n: nat): int
    requires n <= |es| <= |ds|
  {
    if n == 0 then 0
    else Added(ds, es, n - 1) + if Granted(ds[n - 1], es[n - 1]) then es[n - 1].extra else 0
  }

  /** Every state of every run is on time, and its deadline is the initial one plus exactly the
      granted extensions. */
  lemma {:induction false} RunInvariant(ds: seq<Deadline>, es: seq<Event>, timeout: int, read: int, armed: int, n: nat)
    requires IsRun(ds, es, timeout, read, armed) && n <= |es|
    ensures OnTime(ds[n], Clock(es, n, armed))
    ensures ds[n].deadline == read + timeout + Added(ds, es, n)
  {
    if n > 0 {
      RunInvariant(ds, es, timeout, read, armed, n - 1);
      StepStaysOnTime(ds[n - 1], es[n - 1], Clock(es, n - 1, armed));
    }
  }

  /** Once the timer went off or was stopped, it stays so and the deadline is frozen. */
  lemma {:induction false} FrozenAfter(ds: seq<Deadline>, es: seq<Event>, timeout: int, read: int, armed: int, i: nat,
                                       j: nat)
    requires IsRun(ds, es, timeout, read, armed) && i <= j <= |es|
    requires !ds[i].timer.Armed?
    ensures !ds[j].timer.Armed? && ds[j].deadline == ds[i].deadline
    decreases j
  {
    if i < j {
      FrozenAfter(ds, es, timeout, read, armed, i, j - 1);
    }
  }

  /** No extension is granted after the deadline fired or the work stopped. */
  lemma NoExtensionAfterFireOrStop(ds: seq<Deadline>, es: seq<Event>, timeout: int, read: int, armed: int, i: nat,
                                   j: nat)
    requires IsRun(ds, es, timeout, read, armed) && i < j < |es|
    requires es[i].Expire? || es[i].Stop?
    ensures !Granted(ds[j], es[j])
  {
    FrozenAfter(ds, es, timeout, read, armed, i + 1, j);
  }

  /** A timeout cancel never comes before the last deadline the whole run ever grants, not even
      one granted by an event that follows the cancel. */
  lemma TimeoutNotBeforeLastDeadline(ds: seq<Deadline>, es: seq<Event>, timeout: int, read: int, armed: int, i: nat)
    requires IsRun(ds, es, timeout, read, armed) && i < |es|
    requires es[i].RunCancel?
    ensures read + timeout + Added(ds, es, |es|) <= es[i].at
  {
    RunInvariant(ds, es, timeout, read, armed, i);
    FrozenAfter(ds, es, timeout, read, armed, i, |es|);
    RunInvariant(ds, es, timeout, read, armed, |es|);
  }

  // ---- What does happen -----------------------------------------------------------------

  /** The clock readings the timer was last set with. */
  function LastRead(ds: seq<Deadline>, es: seq<Event>, n: nat, read: int): int
    requires n <= |es| <= |ds|
  {
    if n == 0 then read
    else if Granted(ds[n - 1], es[n - 1]) then es[n - 1].read
    else LastRead(ds, es, n - 1, read)
  }

  function LastArmed(ds: seq<Deadline>, es: seq<Event>, n: nat, armed: int): int
    requires n <= |es| <= |ds|
  {
    if n == 0 then armed
    else if Granted(ds[n - 1], es[n - 1]) then es[n - 1].armed
    else LastArmed(ds, es, n - 1, armed)
  }

  /** The timer is not late either: it is set for the deadline, or at once if that has passed, plus only
      the time between the two clock readings it was last set with. */
  lemma {:induction false} TimerIsNotLate(ds: seq<Deadline>, es: seq<Event>, timeout: int, read: int, armed: int,
                                          n: nat)
    requires IsRun(ds, es, timeout, read, armed) && n <= |es| && ds[n].timer.Armed?
    ensures var r, a := LastRead(ds, es, n, read), LastArmed(ds, es, n, armed);
            ds[n].timer.fireAt == (if ds[n].deadline < r then r else ds[n].deadline) + (a - r)
  {
    if n > 0 {
      assert Enabled(ds[n - 1], es[n - 1], Clock(es, n - 1, armed));
      TimerIsNotLate(ds, es, timeout, read, armed, n - 1);
    }
  }

  /** An extension is granted exactly if neither the timer went off nor the work stopped before it. */
  lemma {:induction false} ExtensionGrantedIff(ds: seq<Deadline>, es: seq<Event>, timeout: int, read: int, armed: int,
                                               n: nat)
    requires IsRun(ds, es, timeout, read, armed) && n <= |es|
    ensures ds[n].timer.Armed? <==> forall k :: 0 <= k < n ==> !es[k].Expire? && !es[k].Stop?
    ensures n < |es| && es[n].Extend? ==>
              (Granted(ds[n], es[n]) <==> forall k :: 0 <= k < n ==> !es[k].Expire? && !es[k].Stop?)
  {
    if n > 0 {
      ExtensionGrantedIff(ds, es, timeout, read, armed, n - 1);
    }
  }

  /** Nothing cancels the context among the first `n` events. */
  ghost predicate NoCancel(es: seq<Event>, n: nat) {
    n <= |es| && forall k :: 0 <= k < n ==> !es[k].RunCancel? && !es[k].Stop?
  }

  lemma {:induction false} CauseStep(d: Deadline, e: Event, d': Deadline)
    requires d' == Step(d, e)
    ensures d'.cause == if e.RunCancel? then Cancel(d.cause, TimedOut)
                        else if e.Stop? then Cancel(d.cause, Released) else d.cause
  {
  }

  lemma {:induction false} ActiveUntilCancelled(ds: seq<Deadline>, es: seq<Event>, timeout: int, read: int, armed: int,
                                                n: nat)
    requires IsRun(ds, es, timeout, read, armed) && n <= |es|
    ensures ds[n].cause.Active? <==> NoCancel(es, n)
  {
    if n > 0 {
      ActiveUntilCancelled(ds, es, timeout, read, armed, n - 1);
      CauseStep(ds[n - 1], es[n - 1], ds[n]);
    }
  }

  /** Among the first `n` events a cancel of the timer is the first cancel. */
  ghost predicate TimerCameFirst(es: seq<Event>, n: nat)
    requires n <= |es|
  {
    exists k :: 0 <= k < n && NoCancel(es, k) && es[k].RunCancel?
  }

  lemma {:induction false} OneMoreCancel(es: seq<Event>, n: nat)
    requires n < |es|
    ensures TimerCameFirst(es, n + 1) <==> TimerCameFirst(es, n) || (NoCancel(es, n) && es[n].RunCancel?)
  {
  }

  /** The cause recorded is that of the first cancel: a timeout exactly if the timer's came first. */
  lemma {:induction false} FirstCancelWins(ds: seq<Deadline>, es: seq<Event>, timeout: int, read: int, armed: int,
                                           n: nat)
    requires IsRun(ds, es, timeout, read, armed) && n <= |es|
    ensures ds[n].cause.TimedOut? <==> TimerCameFirst(es, n)
  {
    if n > 0 {
      FirstCancelWins(ds, es, timeout, read, armed, n - 1);
      ActiveUntilCancelled(ds, es, timeout, read, armed, n - 1);
      OneMoreCancel(es, n - 1);
      CauseStep(ds[n - 1], es[n - 1], ds[n]);
    }
  }

  /** The struct behind the value: fields changed in place, one method per mutex section. */
  class ExtendableDeadline {
    var deadline: int
    var timer: Timer
    var cancelling: bool
    var cause: Cause

    ghost function Value(): Deadline
      reads this
    {
      Deadline(deadline, timer, cancelling, cause)
    }

    constructor (timeout: int, read: int, armed: int)
      ensures Value() == New(timeout, read, armed)
    {
      deadline := read + timeout;
      timer := Armed(armed + Max(0, timeout));
      cancelling := false;
      cause := Active;
    }

    method Extend(extra: int, read: int, armed: int) returns (until: int, ok: bool)
      modifies this
      ensures Value() == Step(old(Value()), Event.Extend(extra, read, armed))
      ensures ok == Granted(old(Value()), Event.Extend(extra, read, armed))
      ensures until == deadline
    {
      if !timer.Armed? {
        return deadline, false;
      }
      deadline := deadline + extra;
      timer := Armed(armed + Max(0, deadline - read));
      return deadline, true;
    }

    method Stop(at: int)
      modifies this
      ensures Value() == Step(old(Value()), Event.Stop(at))
    {
      if timer.Armed? {
        timer := Halted;
      }
      if cause.Active? {
        cause := Released;
      }
    }
  }
}
