/** Poll delays, foreground tracking and failure counting
    (crates/pebble-mail/src/realtime_policy.rs and backoff.rs), in 64- and 32-bit
    saturating arithmetic; jitter is over the reals. */
module PollPolicy {
  import opened Basics
  import opened Sequences

  const U32_MAX := 0xFFFF_FFFF
  const U64_MAX := 0xFFFF_FFFF_FFFF_FFFF

  type U32 = n: nat | n <= U32_MAX
  type U64 = n: nat | n <= U64_MAX

  function PowerOfTwo(e: nat): nat { if e == 0 then 1 else 2 * PowerOfTwo(e - 1) }

  function SaturatingPowerOfTwo(e: U32): U64 { Min(PowerOfTwo(e), U64_MAX) }

  function SaturatingMul(a: U64, b: U64): U64 { Min(a * b, U64_MAX) }

  function SaturatingDecrement(n: U32): U32 { if n == 0 then 0 else n - 1 }

  function SaturatingIncrement(n: U32): U32 { if n == U32_MAX then n else n + 1 }

  // ---------------------------------------------------------------- poll delays

  datatype Policy = Policy(recent: U64, idle: U64, background: U64, maxBackoff: U64)

  datatype Context = Context(foreground: bool, recentActivity: bool, failures: U32)

  const DEFAULT := Policy(10, 30, 120, 300)

  function FromForegroundInterval(secs: U64): Policy {
    var recent := Max(secs, 1);
    var idle := Max(DEFAULT.idle, recent);
    Policy(recent, idle, Max(DEFAULT.background, idle), DEFAULT.maxBackoff)
  }

  function NextDelay(p: Policy, ctx: Context): U64 {
    if ctx.failures > 0 then
      Min(SaturatingMul(p.idle, SaturatingPowerOfTwo(SaturatingDecrement(ctx.failures))), p.maxBackoff)
    else if ctx.foreground && ctx.recentActivity then p.recent
    else if ctx.foreground then p.idle
    else p.background
  }

  lemma IntervalsOrdered(secs: U64)
    ensures var p := FromForegroundInterval(secs);
            1 <= p.recent <= p.idle <= p.background && secs <= p.recent && p.idle >= 30 && p.background >= 120
  {
  }

  /** Without failures the delay is the chosen interval in the foreground after recent
      activity, at least 30 seconds in the foreground without it, and at least two minutes in
      the background. */
  lemma StableDelays(secs: U64, recentActivity: bool)
    ensures var p := FromForegroundInterval(secs);
            && NextDelay(p, Context(true, true, 0)) == (if secs < 1 then 1 else secs)
            && NextDelay(p, Context(true, false, 0)) == (if secs < 30 then 30 else secs)
            && NextDelay(p, Context(false, recentActivity, 0)) == (if secs < 120 then 120 else secs)
  {
  }

  lemma {:induction false} PowerGrows(e: nat, f: nat)
    requires e <= f
    ensures 1 <= PowerOfTwo(e) <= PowerOfTwo(f)
  {
    if e < f {
      PowerGrows(e, f - 1);
    } else if e > 0 {
      PowerGrows(e - 1, f - 1);
    }
  }

  lemma ProductGrows(a: nat, b: nat, c: nat)
    requires b <= c
    ensures a * b <= a * c
  {
  }

  /** Saturation does not show below the cap. */
  lemma SaturationIsExact(idle: U64, power: nat, cap: U64)
    ensures Min(SaturatingMul(idle, Min(power, U64_MAX)), cap) == Min(idle * power, cap)
  {
    if power > U64_MAX && idle > 0 {
      ProductGrows(U64_MAX, 1, idle);
      ProductGrows(idle, U64_MAX, power);
    }
  }

  /** For every interval and every number of failures from one on, the delay after failures
      is exactly the idle delay doubled for each further failure, up to 300 seconds. */
  lemma FailureDelayIsExact(secs: U64, ctx: Context)
    requires ctx.failures > 0
    ensures var p := FromForegroundInterval(secs);
            NextDelay(p, ctx) == Min(p.idle * PowerOfTwo(ctx.failures - 1), 300)
  {
    var p := FromForegroundInterval(secs);
    SaturationIsExact(p.idle, PowerOfTwo(ctx.failures - 1), p.maxBackoff);
  }

  /** Among failures the delay never falls, and from the fifth on it is 300 seconds. */
  lemma FailureDelayGrows(secs: U64, ctx: Context, more: Context)
    requires 0 < ctx.failures <= more.failures
    ensures var p := FromForegroundInterval(secs);
            && NextDelay(p, ctx) <= NextDelay(p, more)
            && (ctx.failures >= 5 ==> NextDelay(p, ctx) == 300)
  {
    var p := FromForegroundInterval(secs);
    FailureDelayIsExact(secs, ctx);
    FailureDelayIsExact(secs, more);
    PowerGrows(ctx.failures - 1, more.failures - 1);
    ProductGrows(p.idle, PowerOfTwo(ctx.failures - 1), PowerOfTwo(more.failures - 1));
    if ctx.failures >= 5 {
      PowerGrows(4, ctx.failures - 1);
      ProductGrows(p.idle, PowerOfTwo(4), PowerOfTwo(ctx.failures - 1));
      assert PowerOfTwo(4) == 2 * (2 * (2 * (2 * PowerOfTwo(0))));
    }
  }

  /** The first failure can shorten the delay: in the background it does so exactly when the
      chosen interval is below two minutes or above five. */
  lemma FirstFailureShortensIff(secs: U64, recentActivity: bool)
    ensures var p := FromForegroundInterval(secs);
            NextDelay(p, Context(false, recentActivity, 1)) < NextDelay(p, Context(false, recentActivity, 0))
            <==> secs < 120 || secs > 300
  {
    FailureDelayIsExact(secs, Context(false, recentActivity, 1));
    assert PowerOfTwo(0) == 1;
  }

  // ---------------------------------------------------------------- foreground tracking

  datatype Trigger = Startup | Manual | Timer | NetworkOnline | WindowFocus | WindowBlur | ProviderPush

  /** Triggers with the times they were recorded at. */
  type History = seq<(Trigger, int)>

  datatype Tracking = Tracking(foreground: bool, lastActivity: Option<int>)

  function Recorded(t: Tracking, trigger: Trigger, now: int): Tracking {
    match trigger
    case WindowBlur => Tracking(false, None)
    case WindowFocus => Tracking(true, Some(now))
    case Timer => t
    case _ => t.(lastActivity := Some(now))
  }

  function After(start: int, history: History): Tracking {
    if history == [] then Tracking(true, Some(start))
    else
      var n := |history| - 1;
      Recorded(After(start, history[..n]), history[n].0, history[n].1)
  }

  class RuntimeState {
    var appForeground: bool
    var lastActivityAt: Option<int>
    const recentActivityWindow: nat

    function Abs(): Tracking
      reads this
    {
      Tracking(appForeground, lastActivityAt)
    }

    constructor (window: nat, now: int)
      ensures Abs() == After(now, []) && recentActivityWindow == window
    {
      appForeground, lastActivityAt, recentActivityWindow := true, Some(now), window;
    }

    method RecordTrigger(trigger: Trigger, now: int)
      modifies this
      ensures Abs() == Recorded(old(Abs()), trigger, now)
    {
      match trigger {
        case WindowBlur =>
          appForeground := false;
          lastActivityAt := None;
        case WindowFocus =>
          appForeground := true;
          lastActivityAt := Some(now);
        case Timer =>
        case _ =>
          lastActivityAt := Some(now);
      }
    }

    /** A time before the last activity counts as no time since. */
    function CurrentContext(failures: U32, now: int): (ctx: Context)
      reads this
      ensures ctx.foreground == appForeground && ctx.failures == failures
      ensures ctx.recentActivity <==> lastActivityAt.Some? && now <= lastActivityAt.value + recentActivityWindow
    {
      var since := if lastActivityAt.Some? && now > lastActivityAt.value then now - lastActivityAt.value else 0;
      Context(appForeground, lastActivityAt.Some? && since <= recentActivityWindow, failures)
    }
  }

  /** After any triggers the application is in the foreground exactly when every blur was
      followed by a focus. */
  lemma {:induction false} ForegroundIff(start: int, history: History)
    ensures After(start, history).foreground <==>
              forall i :: 0 <= i < |history| && history[i].0.WindowBlur? ==>
                exists j :: i < j < |history| && history[j].0.WindowFocus?
  {
    if history == [] {
    } else {
      var n := |history| - 1;
      ForegroundIff(start, history[..n]);
      var shorter := history[..n];
      assert forall i :: 0 <= i < n ==> shorter[i] == history[i];
      if history[n].0.WindowFocus? {
      } else if history[n].0.WindowBlur? {
      } else if After(start, shorter).foreground {
        forall i | 0 <= i < |history| && history[i].0.WindowBlur?
          ensures exists j :: i < j < |history| && history[j].0.WindowFocus?
        {
          assert shorter[i].0.WindowBlur?;
          var j :| i < j < n && shorter[j].0.WindowFocus?;
          assert history[j].0.WindowFocus?;
        }
      } else {
        var i :| 0 <= i < n && shorter[i].0.WindowBlur? && !exists j :: i < j < n && shorter[j].0.WindowFocus?;
        assert history[i].0.WindowBlur?;
        forall j | i < j < |history| ensures !history[j].0.WindowFocus? {
          assert j < n ==> !shorter[j].0.WindowFocus?;
        }
      }
    }
  }

  predicate IsActivity(t: Trigger) { !t.Timer? && !t.WindowBlur? }

  /** The last activity is the last trigger that is neither a timer nor a blur, unless a blur
      came after it. */
  lemma {:induction false} LastActivityIs(start: int, history: History, i: nat)
    requires i < |history| && !history[i].0.Timer?
    requires forall j :: i < j < |history| ==> history[j].0.Timer?
    ensures After(start, history).lastActivity == if IsActivity(history[i].0) then Some(history[i].1) else None
  {
    if i < |history| - 1 {
      LastActivityIs(start, history[..|history| - 1], i);
    }
  }

  // ---------------------------------------------------------------- failure counting

  const BASE_DELAY := 15.0
  const MAX_DELAY := 300.0
  const CIRCUIT_BREAK_THRESHOLD := 5

  /** Outcomes in order; true is a success. */
  function FailureCount(outcomes: seq<bool>): U32 {
    if outcomes == [] || outcomes[|outcomes| - 1] then 0
    else SaturatingIncrement(FailureCount(outcomes[..|outcomes| - 1]))
  }

  function RealPowerOfTwo(e: nat): real { if e == 0 then 1.0 else 2.0 * RealPowerOfTwo(e - 1) }

  function LesserReal(a: real, b: real): real { if a <= b then a else b }

  /** The exponent is cut off at ten. */
  function CappedDelay(failures: U32): real
    requires failures > 0
  {
    LesserReal(BASE_DELAY * RealPowerOfTwo(Min(failures - 1, 10)), MAX_DELAY)
  }

  function Jittered(delay: real, jitter: real): real { delay * jitter }

  function CurrentDelay(failures: U32, jitter: real): real {
    if failures == 0 then 0.0 else Jittered(CappedDelay(failures), jitter)
  }

  class SyncBackoff {
    var consecutiveFailures: U32

    constructor ()
      ensures consecutiveFailures == FailureCount([])
    {
      consecutiveFailures := 0;
    }

    method RecordFailure(jitter: real) returns (delay: real)
      modifies this
      ensures consecutiveFailures == SaturatingIncrement(old(consecutiveFailures))
      ensures delay == CurrentDelay(consecutiveFailures, jitter)
    {
      consecutiveFailures := SaturatingIncrement(consecutiveFailures);
      delay := CurrentDelay(consecutiveFailures, jitter);
    }

    method RecordSuccess()
      modifies this
      ensures consecutiveFailures == 0
    {
      consecutiveFailures := 0;
    }

    predicate IsCircuitOpen()
      reads this
    {
      consecutiveFailures >= CIRCUIT_BREAK_THRESHOLD
    }
  }

  /** The counter is the length of the current run of failures, as far as 32 bits hold it. */
  lemma {:induction false} CountIsCurrentRun(outcomes: seq<bool>, run: nat)
    requires run <= |outcomes| && forall i :: |outcomes| - run <= i < |outcomes| ==> !outcomes[i]
    requires run == |outcomes| || outcomes[|outcomes| - 1 - run]
    ensures FailureCount(outcomes) == Min(run, U32_MAX)
  {
    if run == 0 {
    } else {
      CountIsCurrentRun(outcomes[..|outcomes| - 1], run - 1);
    }
  }

  /** The circuit is open exactly when the last five outcomes were failures. */
  lemma CircuitOpenIff(outcomes: seq<bool>)
    ensures FailureCount(outcomes) >= CIRCUIT_BREAK_THRESHOLD <==>
              |outcomes| >= CIRCUIT_BREAK_THRESHOLD
              && forall i :: |outcomes| - CIRCUIT_BREAK_THRESHOLD <= i < |outcomes| ==> !outcomes[i]
  {
    var run := CurrentRun(outcomes);
    CountIsCurrentRun(outcomes, run);
    if run < CIRCUIT_BREAK_THRESHOLD && |outcomes| >= CIRCUIT_BREAK_THRESHOLD {
      assert outcomes[|outcomes| - 1 - run];
    }
  }

  ghost function CurrentRun(outcomes: seq<bool>): (run: nat)
    ensures run <= |outcomes| && forall i :: |outcomes| - run <= i < |outcomes| ==> !outcomes[i]
    ensures run == |outcomes| || outcomes[|outcomes| - 1 - run]
  {
    if outcomes == [] || outcomes[|outcomes| - 1] then 0
    else 1 + CurrentRun(outcomes[..|outcomes| - 1])
  }

  lemma {:induction false} RealPowerGrows(e: nat, f: nat)
    requires e <= f
    ensures 1.0 <= RealPowerOfTwo(e) <= RealPowerOfTwo(f)
  {
    if e < f {
      RealPowerGrows(e, f - 1);
    } else if e > 0 {
      RealPowerGrows(e - 1, f - 1);
    }
  }

  lemma RealPowers()
    ensures RealPowerOfTwo(5) == 32.0
  {
    Doubles(1);
    Doubles(2);
    Doubles(3);
    Doubles(4);
    Doubles(5);
  }

  lemma Doubles(e: nat)
    requires e > 0
    ensures RealPowerOfTwo(e) == 2.0 * RealPowerOfTwo(e - 1)
  {
  }

  /** Cutting off the exponent does not show: the delay doubles from 15 seconds with every
      failure up to 300. */
  lemma BackoffIsExact(failures: U32)
    requires failures > 0
    ensures CappedDelay(failures) == LesserReal(BASE_DELAY * RealPowerOfTwo(failures - 1), MAX_DELAY)
    ensures BASE_DELAY <= CappedDelay(failures) <= MAX_DELAY
  {
    RealPowerGrows(0, failures - 1);
    RealPowerGrows(0, Min(failures - 1, 10));
    if failures - 1 > 10 {
      RealPowers();
      RealPowerGrows(5, 10);
      RealPowerGrows(5, failures - 1);
    }
  }

  /** With jitter of a quarter either way a delay after failures stays within 11.25 and 375
      seconds. */
  lemma JitteredDelayBounds(failures: U32, jitter: real)
    requires 0.75 <= jitter <= 1.25
    ensures if failures == 0 then CurrentDelay(failures, jitter) == 0.0
            else 11.25 <= CurrentDelay(failures, jitter) <= 375.0
  {
    if failures > 0 {
      BackoffIsExact(failures);
      JitteredWithin(CappedDelay(failures), jitter);
    }
  }

  lemma JitterGrows(delay: real, low: real, high: real)
    requires delay >= 0.0 && low <= high
    ensures Jittered(delay, low) <= Jittered(delay, high)
  {
    assert delay * (high - low) >= 0.0;
  }

  lemma JitteredWithin(delay: real, jitter: real)
    requires 15.0 <= delay <= 300.0 && 0.75 <= jitter <= 1.25
    ensures 11.25 <= Jittered(delay, jitter) <= 375.0
  {
    JitterGrows(delay, 0.75, jitter);
    JitterGrows(delay, jitter, 1.25);
  }
}
