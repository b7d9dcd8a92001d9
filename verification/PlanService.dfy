/** The state one `PlanService` process keeps in memory: its shared pending initializations and its
  * throttled failure warnings. Each method is one synchronous stretch of the service.
  */
module Plan {
  import opened Prelude
  import opened QuotaProtocol

  const WARN_WINDOW_MS := 60 * 1000

  /** `lastAt` is when a warning was last logged, `suppressed` how many were swallowed since. */
  datatype Throttle = Throttle(lastAt: int, suppressed: nat)

  /** One failure at time `now`: the new throttle, and the suppressed count if a line is logged. */
  function Warn(t: Throttle, now: int): (Throttle, Option<nat>) {
    if now - t.lastAt < WARN_WINDOW_MS then (t.(suppressed := t.suppressed + 1), None)
    else (Throttle(now, 0), Some(t.suppressed))
  }

  class PlanService {
    const process: Process
    var requestUsageInitializations: map<Key, InitId>
    var countWarnings: Throttle
    var limitWarnings: Throttle

    constructor (process: Process)
      ensures this.process == process && requestUsageInitializations == map[]
      ensures countWarnings == limitWarnings == Throttle(0, 0)
    {
      this.process := process;
      requestUsageInitializations := map[];
      countWarnings, limitWarnings := Throttle(0, 0), Throttle(0, 0);
    }

    /** This process's part of the protocol state is exactly what the object holds. */
    ghost predicate Holds(s: State)
      reads this
    {
      forall k :: (k in requestUsageInitializations <==> (process, k) in s.slots)
        && (k in requestUsageInitializations ==> requestUsageInitializations[k] == s.slots[(process, k)])
    }

    /** The stretch of `countRequestsSince` after its SELECT saw no counted baseline. `next` names
      * the promise that starting an initialization would create. */
    method ShareOrStart(k: Key, next: InitId, ghost s: State, ghost c: CallId) returns (pending: InitId, started: bool)
      requires Holds(s)
      requires InPhase(s, c, SawUncounted) && s.calls[c].process == process && s.calls[c].key == k
      modifies this`requestUsageInitializations
      ensures Holds(AfterResume(s, c, next))
      ensures AfterResume(s, c, next).calls[c].phase == Waiting(pending)
      ensures started <==> k !in old(requestUsageInitializations)
      ensures started ==> pending == next && AfterResume(s, c, next).inits == s.inits[next := Init(process, k, ReadingCutover)]
      ensures !started ==> AfterResume(s, c, next).inits == s.inits
    {
      if k in requestUsageInitializations {
        return requestUsageInitializations[k], false;
      }
      requestUsageInitializations := requestUsageInitializations[k := next];
      return next, true;
    }

    /** The `finally` callback of the promise `pending`. */
    method Release(k: Key, pending: InitId, ghost s: State)
      requires Holds(s)
      requires pending in s.inits && s.inits[pending].process == process && s.inits[pending].key == k
      modifies this`requestUsageInitializations
      ensures Holds(AfterSettle(s, pending))
      ensures forall j | j != k && j in old(requestUsageInitializations) ::
                j in requestUsageInitializations && requestUsageInitializations[j] == old(requestUsageInitializations)[j]
    {
      if k in requestUsageInitializations && requestUsageInitializations[k] == pending {
        requestUsageInitializations := requestUsageInitializations - {k};
      }
    }

    /** A step of another process leaves this object in agreement with the protocol state. */
    lemma OthersLeaveMeAlone(s: State, e: Event, w: World, limit: Limit)
      requires Holds(s) && Enabled(w, s, e)
      requires e.Resume? ==> s.calls[e.c].process != process
      requires e.Settle? ==> s.inits[e.i].process != process
      ensures Holds(Next(w, limit, s, e))
    {
    }

    method WarnCountFailureThrottled(now: int) returns (logged: Option<nat>)
      modifies this`countWarnings
      ensures (countWarnings, logged) == Warn(old(countWarnings), now)
    {
      if now - countWarnings.lastAt < WARN_WINDOW_MS {
        countWarnings := countWarnings.(suppressed := countWarnings.suppressed + 1);
        return None;
      }
      logged := Some(countWarnings.suppressed);
      countWarnings := Throttle(now, 0);
    }

    method WarnLimitFailureThrottled(now: int) returns (logged: Option<nat>)
      modifies this`limitWarnings
      ensures (limitWarnings, logged) == Warn(old(limitWarnings), now)
    {
      if now - limitWarnings.lastAt < WARN_WINDOW_MS {
        limitWarnings := limitWarnings.(suppressed := limitWarnings.suppressed + 1);
        return None;
      }
      logged := Some(limitWarnings.suppressed);
      limitWarnings := Throttle(now, 0);
    }
  }

  // ----- what throttling loses: nothing ------------------------------------------------------------

  /** A logged line: when, and how many suppressed failures it reports. */
  datatype Line = Line(at: int, suppressed: nat)

  /** The throttle and the log after failures at the given times, oldest first. */
  function Outage(t: Throttle, times: seq<int>): (Throttle, seq<Line>)
    decreases |times|
  {
    if times == [] then (t, [])
    else
      var (t', logged) := Warn(t, times[0]);
      var (final, log) := Outage(t', times[1..]);
      (final, (if logged.Some? then [Line(times[0], logged.value)] else []) + log)
  }

  function Reported(log: seq<Line>): nat {
    if log == [] then 0 else 1 + log[0].suppressed + Reported(log[1..])
  }

  /** Every failure is either a line of its own, counted in a later line's tail, or still pending. */
  lemma {:induction false} EveryFailureIsAccountedFor(t: Throttle, times: seq<int>)
    ensures var (final, log) := Outage(t, times);
      t.suppressed + |times| == Reported(log) + final.suppressed
    decreases |times|
  {
    if times != [] {
      var (t', logged) := Warn(t, times[0]);
      EveryFailureIsAccountedFor(t', times[1..]);
      var (final, rest) := Outage(t', times[1..]);
      if logged.Some? {
        var log := [Line(times[0], logged.value)] + rest;
        assert log[1..] == rest;
      } else {
        assert [] + rest == rest;
      }
    }
  }

  /** Two lines are never logged within one warning window, whatever the clock does in between. */
  lemma {:induction false} LinesAreSpaced(t: Throttle, times: seq<int>)
    ensures var log := Outage(t, times).1;
      && (log != [] ==> log[0].at >= t.lastAt + 60_000)
      && forall i | 0 < i < |log| :: log[i].at >= log[i - 1].at + 60_000
    decreases |times|
  {
    if times != [] {
      LinesAreSpaced(Warn(t, times[0]).0, times[1..]);
    }
  }

  /** Some line of the log was written less than a window before `at`. */
  ghost predicate LoggedWithin(log: seq<Line>, at: int) {
    exists i | 0 <= i < |log| :: at - log[i].at < 60_000
  }

  /** No failure goes by without a line in the window before it, up to the failure itself, be it a line of
    * this outage or the last one before it. */
  lemma {:induction false} NoSilentWindow(t: Throttle, times: seq<int>, k: nat)
    requires k < |times|
    ensures times[k] - t.lastAt < 60_000 || LoggedWithin(Outage(t, times[..k + 1]).1, times[k])
    decreases |times|
  {
    var now, rest := times[0], times[1..];
    var (next, logged) := Warn(t, now);
    assert times[..k + 1][0] == now && times[..k + 1][1..] == rest[..k];
    var later := Outage(next, rest[..k]).1;
    var log := Outage(t, times[..k + 1]).1;
    assert log == (if logged.Some? then [Line(now, logged.value)] else []) + later;
    if k > 0 {
      NoSilentWindow(next, rest, k - 1);
      assert rest[..k - 1 + 1] == rest[..k];
      if LoggedWithin(later, times[k]) {
        var i :| 0 <= i < |later| && times[k] - later[i].at < 60_000;
        assert log[|log| - |later| + i] == later[i];
      } else if logged.Some? {
        assert log[0] == Line(now, logged.value);
      }
    } else if logged.Some? {
      assert log[0] == Line(now, logged.value);
    }
  }
}
