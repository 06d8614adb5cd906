/**
 * The checker object itself: its three mutable fields, updated in place by the
 * methods the source defines. A fired check with its continuation is proved to
 * perform exactly one transition of the state machine in module Escalation.
 */
module Checker {
  import opened Escalation

  /** The result of one HTTP probe: a response with its status, or no response (timeout, network error). */
  datatype Probe = Responded(status: int) | NoResponse

  /** The status filter handed to the HTTP client: statuses below 400 are accepted. */
  predicate ValidateStatus(status: int)
  {
    status < 400
  }

  /** A probe succeeds when a response arrived and its status passed the filter. */
  predicate ProbeSucceeds(p: Probe)
  {
    p.Responded? && ValidateStatus(p.status)
  }

  /** One scheduled check: the probe's result and the outcome an alert send would have during it. */
  datatype Check = Check(probe: Probe, sendSucceeds: bool)

  function EventOf(k: Check): Event
  {
    if ProbeSucceeds(k.probe) then Success else Failure(k.sendSucceeds)
  }

  function Events(ks: seq<Check>): seq<Event>
  {
    seq(|ks|, i requires 0 <= i < |ks| => EventOf(ks[i]))
  }

  class WebServiceChecker {
    const normalInterval: nat := 30 * 60 * 1000
    const retryInterval: nat := 5 * 60 * 1000
    const maxRetries: nat := 3
    var failureCount: nat
    var isInRetryMode: bool
    var emailSent: bool

    function Cfg(): Config
    {
      Config(normalInterval, retryInterval, maxRetries)
    }

    /** The fields as a value of the state machine. */
    function Snapshot(): State
      reads this
    {
      State(failureCount, isInRetryMode, emailSent)
    }

    predicate Valid()
      reads this
    {
      Inv(Cfg(), Snapshot())
    }

    constructor ()
      ensures Snapshot() == Initial && Cfg() == Default && Valid()
    {
      failureCount := 0;
      isInRetryMode := false;
      emailSent := false;
    }

    /**
     * Sending the alert: the flag is raised only when the transport accepts the
     * message; a rejected send is caught and leaves it as it was. The send is
     * taken to settle before the next check fires.
     */
    method SendAlert(sendSucceeds: bool)
      modifies this`emailSent
      ensures emailSent == (old(emailSent) || sendSucceeds)
    {
      if sendSucceeds {
        emailSent := true;
      }
    }

    /** Recovery: all three fields go back to their initial values and a normal-interval check is scheduled. */
    method ResetToNormalMode() returns (delays: seq<nat>)
      modifies this
      ensures Snapshot() == Initial && Valid()
      ensures delays == [normalInterval]
    {
      failureCount := 0;
      isInRetryMode := false;
      emailSent := false;
      delays := [normalInterval];
    }

    /** The failure handler: count the failure, enter retry mode or maybe alert, and schedule a retry. */
    method HandleFailure(sendSucceeds: bool) returns (delays: seq<nat>, alertAttempted: bool)
      requires Valid()
      modifies this
      ensures Valid()
      ensures Snapshot() == Step(Cfg(), old(Snapshot()), Failure(sendSucceeds)).next
      ensures delays == [retryInterval]
      ensures alertAttempted == ShouldAlert(Cfg(), old(Snapshot()))
    {
      failureCount := failureCount + 1;
      alertAttempted := false;
      if !isInRetryMode {
        isInRetryMode := true;
        delays := [retryInterval];
      } else {
        if failureCount > maxRetries {
          if !emailSent {
            SendAlert(sendSucceeds);
            alertAttempted := true;
          }
          // monitoring goes on at the retry interval after the alert
          delays := [retryInterval];
        } else {
          delays := [retryInterval];
        }
      }
    }

    /**
     * One probe and its handling; ok is the value the check returns. The timers
     * listed are those requested while handling the result, not by the caller's
     * continuation.
     */
    method CheckService(probe: Probe, sendSucceeds: bool) returns (ok: bool, delays: seq<nat>, alertAttempted: bool)
      requires Valid()
      modifies this
      ensures Valid()
      ensures ok <==> probe.Responded? && probe.status < 400
      ensures Snapshot() == Step(Cfg(), old(Snapshot()), EventOf(Check(probe, sendSucceeds))).next
      ensures alertAttempted == Step(Cfg(), old(Snapshot()), EventOf(Check(probe, sendSucceeds))).alertAttempted
      ensures delays == if !ok then [retryInterval]
                        else if old(isInRetryMode) then [normalInterval]
                        else []
    {
      if ProbeSucceeds(probe) {
        alertAttempted := false;
        delays := [];
        if isInRetryMode {
          delays := ResetToNormalMode();
        }
        ok := true;
      } else {
        delays, alertAttempted := HandleFailure(sendSucceeds);
        ok := false;
      }
    }

    /**
     * What a fired timer runs: the check, then the continuation that schedules a
     * normal-interval check whenever the checker is (now) in normal mode.
     */
    method CheckAndReschedule(probe: Probe, sendSucceeds: bool) returns (delays: seq<nat>, alertAttempted: bool)
      requires Valid()
      modifies this
      ensures Valid()
      ensures Snapshot() == Step(Cfg(), old(Snapshot()), EventOf(Check(probe, sendSucceeds))).next
      ensures delays == Step(Cfg(), old(Snapshot()), EventOf(Check(probe, sendSucceeds))).delays
      ensures alertAttempted == Step(Cfg(), old(Snapshot()), EventOf(Check(probe, sendSucceeds))).alertAttempted
    {
      var ok;
      ok, delays, alertAttempted := CheckService(probe, sendSucceeds);
      if !isInRetryMode {
        delays := delays + [normalInterval];
      }
    }

    /** Start-up: the first check runs at once, followed by the same continuation a fired timer runs. */
    method Start(probe: Probe, sendSucceeds: bool) returns (delays: seq<nat>, alertAttempted: bool)
      requires Valid()
      modifies this
      ensures Valid()
      ensures Snapshot() == Step(Cfg(), old(Snapshot()), EventOf(Check(probe, sendSucceeds))).next
      ensures delays == Step(Cfg(), old(Snapshot()), EventOf(Check(probe, sendSucceeds))).delays
      ensures alertAttempted == Step(Cfg(), old(Snapshot()), EventOf(Check(probe, sendSucceeds))).alertAttempted
    {
      delays, alertAttempted := CheckAndReschedule(probe, sendSucceeds);
    }
  }

  /**
   * A freshly constructed checker driven through a sequence of checks, the first
   * by start-up and each later one by a timer: the final fields are the state
   * machine's run over the checks, the requested delays are exactly those of
   * the run, in order, and the alert attempts are counted.
   */
  method Monitor(checks: seq<Check>) returns (final: State, delays: seq<nat>, attempts: nat)
    ensures final == Run(Default, Initial, Events(checks)) && Inv(Default, final)
    ensures delays == DelaysRequested(Default, Initial, Events(checks))
    ensures |delays| == |checks| + Recoveries(Default, Initial, Events(checks))
    ensures attempts == AlertsAttempted(Default, Initial, Events(checks))
  {
    var checker := new WebServiceChecker();
    ghost var es := Events(checks);
    delays, attempts := [], 0;
    var i := 0;
    while i < |checks|
      invariant 0 <= i <= |checks|
      invariant checker.Valid() && checker.Cfg() == Default
      invariant checker.Snapshot() == Run(Default, Initial, es[..i])
      invariant delays == DelaysRequested(Default, Initial, es[..i])
      invariant attempts == AlertsAttempted(Default, Initial, es[..i])
    {
      var d, tried;
      if i == 0 {
        d, tried := checker.Start(checks[i].probe, checks[i].sendSucceeds);
      } else {
        d, tried := checker.CheckAndReschedule(checks[i].probe, checks[i].sendSucceeds);
      }
      assert es[..i + 1][..i] == es[..i];
      delays := delays + d;
      attempts := attempts + if tried then 1 else 0;
      i := i + 1;
    }
    assert es[..i] == es;
    TimerCount(Default, Initial, es);
    final := checker.Snapshot();
  }
}
