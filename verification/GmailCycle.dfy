/** The poll cycles of a Gmail account (crates/pebble-mail/src/gmail_sync.rs): which of them
    run while the failure circuit is open. */
module GmailCycle {
  import opened PollPolicy

  /** What starts a cycle: the delay elapsing, or a trigger. */
  datatype Cause = Timed | Triggered(trigger: Trigger)

  /** A possible cycle and how its poll would end, token refresh included. */
  datatype Cycle = Cycle(cause: Cause, succeeds: bool)

  predicate ShouldSyncNow(t: Trigger) { t.Manual? || t.NetworkOnline? || t.WindowFocus? || t.ProviderPush? }

  predicate BypassesCircuit(t: Trigger) { t.Manual? || t.NetworkOnline? }

  predicate Attempted(failures: U32, cause: Cause) {
    match cause
    case Timed => true
    case Triggered(t) => ShouldSyncNow(t) && (failures < CIRCUIT_BREAK_THRESHOLD || BypassesCircuit(t))
  }

  function AfterCycle(failures: U32, c: Cycle): U32 {
    if !Attempted(failures, c.cause) then failures else if c.succeeds then 0 else SaturatingIncrement(failures)
  }

  function Failures(cycles: seq<Cycle>): U32 {
    if cycles == [] then 0 else AfterCycle(Failures(cycles[..|cycles| - 1]), cycles[|cycles| - 1])
  }

  /** The outcomes of the polls that were made. */
  function Attempts(cycles: seq<Cycle>): seq<bool> {
    if cycles == [] then []
    else
      var n := |cycles| - 1;
      Attempts(cycles[..n]) + if Attempted(Failures(cycles[..n]), cycles[n].cause) then [cycles[n].succeeds] else []
  }

  method RunPollCycle(backoff: SyncBackoff, allowCircuitAttempt: bool, tokenValid: bool, pollSucceeds: bool)
    modifies backoff
    ensures backoff.consecutiveFailures
            == if old(backoff.consecutiveFailures) >= CIRCUIT_BREAK_THRESHOLD && !allowCircuitAttempt
               then old(backoff.consecutiveFailures)
               else if tokenValid && pollSucceeds then 0 else SaturatingIncrement(old(backoff.consecutiveFailures))
  {
    if backoff.IsCircuitOpen() {
      if !allowCircuitAttempt {
        return;
      }
    }
    if !tokenValid {
      var _ := backoff.RecordFailure(1.0);
      return;
    }
    if pollSucceeds {
      backoff.RecordSuccess();
    } else {
      var _ := backoff.RecordFailure(1.0);
    }
  }

  /** One turn of the main loop. */
  method Turn(backoff: SyncBackoff, c: Cycle)
    modifies backoff
    ensures backoff.consecutiveFailures == AfterCycle(old(backoff.consecutiveFailures), c)
  {
    match c.cause {
      case Timed => RunPollCycle(backoff, true, true, c.succeeds);
      case Triggered(t) =>
        if ShouldSyncNow(t) {
          RunPollCycle(backoff, BypassesCircuit(t), true, c.succeeds);
        }
    }
  }

  /** The failure counter is that of the polls made, whatever was skipped. */
  lemma {:induction false} FailuresOfAttempts(cycles: seq<Cycle>)
    ensures Failures(cycles) == FailureCount(Attempts(cycles))
  {
    if cycles == [] {
    } else {
      var n := |cycles| - 1;
      FailuresOfAttempts(cycles[..n]);
      FailureCountSnoc(Attempts(cycles[..n]), cycles[n].succeeds);
      assert Attempts(cycles[..n]) + [] == Attempts(cycles[..n]);
    }
  }

  lemma FailureCountSnoc(outcomes: seq<bool>, outcome: bool)
    ensures FailureCount(outcomes + [outcome]) == if outcome then 0 else SaturatingIncrement(FailureCount(outcomes))
  {
    assert (outcomes + [outcome])[..|outcomes|] == outcomes;
  }

  /** A window focus or a push is skipped exactly when the last five polls made failed; no
      other cause is ever skipped, so unlike the POP3 circuit this one can close again. */
  lemma SkippedIff(cycles: seq<Cycle>, cause: Cause)
    requires cause.Timed? || ShouldSyncNow(cause.trigger)
    ensures var made := Attempts(cycles);
            !Attempted(Failures(cycles), cause) <==>
              && cause.Triggered? && (cause.trigger.WindowFocus? || cause.trigger.ProviderPush?)
              && |made| >= CIRCUIT_BREAK_THRESHOLD
              && forall i :: |made| - CIRCUIT_BREAK_THRESHOLD <= i < |made| ==> !made[i]
  {
    FailuresOfAttempts(cycles);
    CircuitOpenIff(Attempts(cycles));
  }

  /** Exactly which causes poll: the delay, the user and the network's return always; a window
      focus or a push unless the last five polls made failed; nothing else ever. */
  lemma AttemptedIff(cycles: seq<Cycle>, cause: Cause)
    ensures var made := Attempts(cycles);
            var broken := |made| >= 5 && forall i :: |made| - 5 <= i < |made| ==> !made[i];
            Attempted(Failures(cycles), cause) <==>
              match cause
              case Timed => true
              case Triggered(t) =>
                t == Manual || t == NetworkOnline || ((t == WindowFocus || t == ProviderPush) && !broken)
  {
    FailuresOfAttempts(cycles);
    CircuitOpenIff(Attempts(cycles));
  }

  /** From any state one timed poll that succeeds closes the circuit. */
  lemma CircuitCloses(cycles: seq<Cycle>, focus: Cause)
    requires focus.Triggered? && ShouldSyncNow(focus.trigger)
    ensures Attempted(Failures(cycles + [Cycle(Timed, true)]), focus)
  {
    assert (cycles + [Cycle(Timed, true)])[..|cycles|] == cycles;
  }
}
