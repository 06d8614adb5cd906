/**
 * The failure-escalation state machine of the web service checker, as values.
 *
 * One step is what happens when a scheduled check fires: the probe result is
 * fed to the checker (recovery, or the failure handling with its possible
 * alert), and then the continuation attached to the check asks for one more
 * normal-interval timer whenever the checker is not in retry mode.
 */
module Escalation {

  /** The three constants of the checker: two polling intervals (ms) and the retry budget. */
  datatype Config = Config(normalInterval: nat, retryInterval: nat, maxRetries: nat)

  /** The values the checker is constructed with: 30 minutes, 5 minutes, 3 retries. */
  const Default: Config := Config(30 * 60 * 1000, 5 * 60 * 1000, 3)

  /** The three mutable fields of the checker. */
  datatype State = State(failureCount: nat, isInRetryMode: bool, emailSent: bool)

  /** The state right after construction. */
  const Initial: State := State(0, false, false)

  /**
   * The outcome of one check. A failure carries the outcome the alert e-mail
   * would have if it were sent during this step; it is ignored otherwise.
   */
  datatype Event = Success | Failure(sendSucceeds: bool)

  /** What one step produces: the new state, the timers it asks for, and whether it tried to alert. */
  datatype Effect = Effect(next: State, delays: seq<nat>, alertAttempted: bool)

  /** The alert condition of the failure handler, on the already incremented count. */
  predicate ShouldAlert(c: Config, s: State)
  {
    s.isInRetryMode && s.failureCount + 1 > c.maxRetries && !s.emailSent
  }

  /** One step of the checker: the probe result handling followed by the rescheduling continuation. */
  function Step(c: Config, s: State, e: Event): Effect
  {
    match e
    case Success =>
      if s.isInRetryMode then
        // reset asks for a normal timer, and the continuation, now seeing
        // normal mode, asks for a second one
        Effect(State(0, false, false), [c.normalInterval, c.normalInterval], false)
      else
        Effect(s, [c.normalInterval], false)
    case Failure(sendSucceeds) =>
      var n := s.failureCount + 1;
      if !s.isInRetryMode then
        Effect(State(n, true, s.emailSent), [c.retryInterval], false)
      else if ShouldAlert(c, s) then
        Effect(State(n, true, sendSucceeds), [c.retryInterval], true)
      else
        Effect(State(n, true, s.emailSent), [c.retryInterval], false)
  }

  /** The state after a sequence of checks, the last event being the most recent. */
  function Run(c: Config, s: State, es: seq<Event>): State
    decreases |es|
  {
    if es == [] then s else Step(c, Run(c, s, es[..|es| - 1]), es[|es| - 1]).next
  }

  /** The invariant the checker's fields keep from construction on. */
  predicate Inv(c: Config, s: State)
  {
    (s.isInRetryMode <==> s.failureCount > 0) &&
    (s.emailSent ==> s.isInRetryMode && s.failureCount > c.maxRetries)
  }

  predicate AllFailures(es: seq<Event>)
  {
    forall i :: 0 <= i < |es| ==> es[i].Failure?
  }

  /** Failure number k + 1 of an episode (0-based k) falls in retry mode and past the retry budget. */
  predicate InAlertWindow(c: Config, k: nat)
  {
    k >= 1 && k + 1 > c.maxRetries
  }

  /** Number of steps in es that actually sent the alert (attempted and delivered). */
  function AlertsDelivered(c: Config, s: State, es: seq<Event>): nat
    decreases |es|
  {
    if es == [] then 0
    else
      var p := es[..|es| - 1];
      var e := es[|es| - 1];
      AlertsDelivered(c, s, p) +
      (if Step(c, Run(c, s, p), e).alertAttempted && e.sendSucceeds then 1 else 0)
  }

  /** Number of steps in es that tried to send the alert. */
  function AlertsAttempted(c: Config, s: State, es: seq<Event>): nat
    decreases |es|
  {
    if es == [] then 0
    else
      var p := es[..|es| - 1];
      AlertsAttempted(c, s, p) + (if Step(c, Run(c, s, p), es[|es| - 1]).alertAttempted then 1 else 0)
  }

  /** Number of recovery steps in es: a success while in retry mode. */
  function Recoveries(c: Config, s: State, es: seq<Event>): nat
    decreases |es|
  {
    if es == [] then 0
    else
      var p := es[..|es| - 1];
      Recoveries(c, s, p) + (if es[|es| - 1].Success? && Run(c, s, p).isInRetryMode then 1 else 0)
  }

  /** The delays of all timers requested by the steps of es, in the order they were requested. */
  function DelaysRequested(c: Config, s: State, es: seq<Event>): seq<nat>
    decreases |es|
  {
    if es == [] then []
    else
      var p := es[..|es| - 1];
      DelaysRequested(c, s, p) + Step(c, Run(c, s, p), es[|es| - 1]).delays
  }

  // ---------------------------------------------------------------------------
  // One step

  /** A success in normal mode changes nothing and asks for one normal-interval check. */
  lemma SuccessInNormalMode(c: Config, s: State)
    requires !s.isInRetryMode
    ensures Step(c, s, Success).next == s
    ensures Step(c, s, Success).delays == [c.normalInterval]
    ensures !Step(c, s, Success).alertAttempted
  {
  }

  /** A success in retry mode resets all three fields together and asks for two normal-interval checks. */
  lemma Recovery(c: Config, s: State)
    requires s.isInRetryMode
    ensures Step(c, s, Success).next == Initial
    ensures Step(c, s, Success).delays == [c.normalInterval, c.normalInterval]
    ensures !Step(c, s, Success).alertAttempted
  {
  }

  /**
   * Every failure counts one more failure, leaves the checker in retry mode and
   * asks for exactly one retry-interval check; it tries to alert exactly when the
   * checker was already retrying, the new count exceeds the budget and no alert
   * has been delivered, and the alert flag becomes the delivery outcome then and
   * is kept otherwise.
   */
  lemma FailureStep(c: Config, s: State, sendSucceeds: bool)
    ensures var r := Step(c, s, Failure(sendSucceeds));
      r.next.failureCount == s.failureCount + 1 &&
      r.next.isInRetryMode &&
      r.delays == [c.retryInterval] &&
      (r.alertAttempted <==> s.isInRetryMode && r.next.failureCount > c.maxRetries && !s.emailSent) &&
      r.next.emailSent == (if r.alertAttempted then sendSucceeds else s.emailSent)
  {
  }

  /** Every step asks for exactly one timer, except a recovery, which asks for two. */
  lemma DelaysOfStep(c: Config, s: State, e: Event)
    ensures |Step(c, s, e).delays| == if e.Success? && s.isInRetryMode then 2 else 1
    ensures forall d :: d in Step(c, s, e).delays ==>
      d == if e.Success? then c.normalInterval else c.retryInterval
  {
  }

  /** The alert flag is raised only by a failure step that tried to alert and whose send was delivered. */
  lemma EmailSentOnlyOnDelivery(c: Config, s: State, e: Event)
    requires !s.emailSent && Step(c, s, e).next.emailSent
    ensures e == Failure(true) && Step(c, s, e).alertAttempted
  {
  }

  /** A send that fails leaves the flag down, so the next failure of the episode tries again. */
  lemma FailedSendIsRetried(c: Config, s: State, sendSucceeds: bool)
    requires Step(c, s, Failure(false)).alertAttempted
    ensures !Step(c, s, Failure(false)).next.emailSent
    ensures Step(c, Step(c, s, Failure(false)).next, Failure(sendSucceeds)).alertAttempted
  {
  }

  /**
   * Neither the failure count nor the alert flag ever goes down except through the
   * full reset of a recovery, which clears all three fields together.
   */
  lemma OnlyRecoveryLowers(c: Config, s: State, e: Event)
    ensures var t := Step(c, s, e).next;
      (t.failureCount < s.failureCount || (s.emailSent && !t.emailSent)) ==>
        e.Success? && s.isInRetryMode && t == Initial
  {
  }

  /** Every step keeps the invariant. */
  lemma StepKeepsInv(c: Config, s: State, e: Event)
    requires Inv(c, s)
    ensures Inv(c, Step(c, s, e).next)
  {
  }

  // ---------------------------------------------------------------------------
  // Sequences of checks

  /** From the constructor's state, the invariant holds after any sequence of checks. */
  lemma {:induction false} InvAlways(c: Config, es: seq<Event>)
    ensures Inv(c, Run(c, Initial, es))
  {
    InvPreserved(c, Initial, es);
  }

  /** From any state satisfying the invariant, it holds after any sequence of checks. */
  lemma {:induction false} InvPreserved(c: Config, s: State, es: seq<Event>)
    requires Inv(c, s)
    ensures Inv(c, Run(c, s, es))
    decreases |es|
  {
    if es != [] {
      var p := es[..|es| - 1];
      InvPreserved(c, s, p);
      StepKeepsInv(c, Run(c, s, p), es[|es| - 1]);
    }
  }

  /**
   * Starting from the constructor's state, after a run of k failures the count is k,
   * the checker is retrying iff k > 0, and the alert flag is up iff one of those
   * failures fell in the alert window and its send was delivered.
   */
  lemma {:induction false} StreakFromStart(c: Config, fs: seq<Event>)
    requires AllFailures(fs)
    ensures Run(c, Initial, fs).failureCount == |fs|
    ensures Run(c, Initial, fs).isInRetryMode == (|fs| > 0)
    ensures Run(c, Initial, fs).emailSent <==>
      exists j :: 0 <= j < |fs| && InAlertWindow(c, j) && fs[j].sendSucceeds
    decreases |fs|
  {
    if fs != [] {
      var p := fs[..|fs| - 1];
      var k := |p|;
      assert forall i :: 0 <= i < |p| ==> p[i] == fs[i];
      StreakFromStart(c, p);
      var s := Run(c, Initial, p);
      var t := Run(c, Initial, fs);
      assert t == Step(c, s, fs[k]).next;
      if t.emailSent {
        if !s.emailSent {
          assert InAlertWindow(c, k) && fs[k].sendSucceeds;
        }
      } else {
        forall j | 0 <= j < |fs| && InAlertWindow(c, j)
          ensures !fs[j].sendSucceeds
        {
          if j < k {
            assert p[j] == fs[j];
          }
        }
      }
    }
  }

  /**
   * Within a run of failures from the constructor's state, failure number k + 1
   * tries to alert exactly when it falls in the alert window (not the first failure,
   * count above the retry budget) and no earlier failure delivered the alert.
   */
  lemma {:induction false} AttemptInStreak(c: Config, fs: seq<Event>, k: nat)
    requires AllFailures(fs) && k < |fs|
    ensures Step(c, Run(c, Initial, fs[..k]), fs[k]).alertAttempted <==>
      InAlertWindow(c, k) &&
      forall j :: 0 <= j < k && InAlertWindow(c, j) ==> !fs[j].sendSucceeds
  {
    var p := fs[..k];
    assert forall i :: 0 <= i < |p| ==> p[i] == fs[i];
    StreakFromStart(c, p);
  }

  /** A history after which a new failure episode begins: nothing yet, or a last check that succeeded. */
  predicate EpisodeStart(h: seq<Event>)
  {
    h == [] || h[|h| - 1].Success?
  }

  /** Under the invariant, every success leaves the checker in the constructor's state. */
  lemma SuccessResets(c: Config, s: State)
    requires Inv(c, s)
    ensures Step(c, s, Success).next == Initial
  {
  }

  /** Running two sequences of checks one after the other is running their concatenation. */
  lemma {:induction false} RunAppend(c: Config, s: State, a: seq<Event>, b: seq<Event>)
    ensures Run(c, s, a + b) == Run(c, Run(c, s, a), b)
    decreases |b|
  {
    if b == [] {
      assert a + b == a;
    } else {
      var ab := a + b;
      assert ab[..|ab| - 1] == a + b[..|b| - 1];
      assert ab[|ab| - 1] == b[|b| - 1];
      RunAppend(c, s, a, b[..|b| - 1]);
    }
  }

  /**
   * Every episode starts afresh: whatever happened before the last success, the
   * checks after it lead to the same state as they would from start-up.
   */
  lemma {:induction false} LaterEpisode(c: Config, h: seq<Event>, fs: seq<Event>)
    requires EpisodeStart(h)
    ensures Run(c, Initial, h + fs) == Run(c, Initial, fs)
  {
    if h == [] {
      assert h + fs == fs;
    } else {
      var p := h[..|h| - 1];
      assert h == p + [Success];
      InvAlways(c, p);
      SuccessResets(c, Run(c, Initial, p));
      assert Run(c, Initial, h) == Initial;
      RunAppend(c, Initial, h, fs);
    }
  }

  /**
   * In any episode, the failure count is the number of failures since the last
   * success (or since start-up), and the checker is retrying iff there was one.
   */
  lemma CountSinceLastSuccess(c: Config, h: seq<Event>, fs: seq<Event>)
    requires EpisodeStart(h) && AllFailures(fs)
    ensures Run(c, Initial, h + fs).failureCount == |fs|
    ensures Run(c, Initial, h + fs).isInRetryMode == (|fs| > 0)
  {
    LaterEpisode(c, h, fs);
    StreakFromStart(c, fs);
  }

  /**
   * In any episode, failure number k + 1 tries to alert exactly when it falls in the
   * alert window and no earlier failure of the episode delivered the alert.
   */
  lemma AttemptInEpisode(c: Config, h: seq<Event>, fs: seq<Event>, k: nat)
    requires EpisodeStart(h) && AllFailures(fs) && k < |fs|
    ensures Step(c, Run(c, Initial, h + fs[..k]), fs[k]).alertAttempted <==>
      InAlertWindow(c, k) &&
      forall j :: 0 <= j < k && InAlertWindow(c, j) ==> !fs[j].sendSucceeds
  {
    LaterEpisode(c, h, fs[..k]);
    AttemptInStreak(c, fs, k);
  }

  /**
   * With the checker's own constants, in every episode (the first after start-up or
   * one after a recovery) failures 1 to 3 never try to alert and failure 4 does.
   */
  lemma FirstAttemptOnFourthFailure(h: seq<Event>, fs: seq<Event>)
    requires EpisodeStart(h) && AllFailures(fs) && |fs| >= 4
    ensures forall k :: 0 <= k < 3 ==> !Step(Default, Run(Default, Initial, h + fs[..k]), fs[k]).alertAttempted
    ensures Step(Default, Run(Default, Initial, h + fs[..3]), fs[3]).alertAttempted
  {
    forall k | 0 <= k < 3
      ensures !Step(Default, Run(Default, Initial, h + fs[..k]), fs[k]).alertAttempted
    {
      AttemptInEpisode(Default, h, fs, k);
    }
    AttemptInEpisode(Default, h, fs, 3);
  }

  /**
   * Within an unbroken run of failures, the alert is delivered at most once; the
   * flag at the end is up iff it was up at the start or a delivery happened; and
   * once the flag is up, no failure tries to alert.
   */
  lemma {:induction false} AtMostOneAlertPerStreak(c: Config, s: State, fs: seq<Event>)
    requires AllFailures(fs)
    ensures AlertsDelivered(c, s, fs) <= (if s.emailSent then 0 else 1)
    ensures Run(c, s, fs).emailSent <==> s.emailSent || AlertsDelivered(c, s, fs) == 1
    ensures s.emailSent ==> AlertsAttempted(c, s, fs) == 0
    decreases |fs|
  {
    if fs != [] {
      var p := fs[..|fs| - 1];
      assert AllFailures(p) by {
        assert forall i :: 0 <= i < |p| ==> p[i] == fs[i];
      }
      AtMostOneAlertPerStreak(c, s, p);
      assert fs[|fs| - 1].Failure?;
    }
  }

  /**
   * Over any run, one timer is requested per check plus one more per recovery, and
   * every requested delay is one of the two intervals.
   */
  lemma {:induction false} TimerCount(c: Config, s: State, es: seq<Event>)
    ensures |DelaysRequested(c, s, es)| == |es| + Recoveries(c, s, es)
    ensures forall d :: d in DelaysRequested(c, s, es) ==> d == c.normalInterval || d == c.retryInterval
    decreases |es|
  {
    if es != [] {
      var p := es[..|es| - 1];
      TimerCount(c, s, p);
      DelaysOfStep(c, Run(c, s, p), es[|es| - 1]);
    }
  }

  /** Scenario: failure, failure, success from start-up returns to the constructor's state. */
  lemma FailFailRecover(c: Config, a: bool, b: bool)
    ensures Run(c, Initial, [Failure(a), Failure(b), Success]) == Initial
    ensures Step(c, Run(c, Initial, [Failure(a), Failure(b)]), Success).delays ==
      [c.normalInterval, c.normalInterval]
  {
    assert [Failure(a), Failure(b), Success][..2] == [Failure(a), Failure(b)];
    assert [Failure(a), Failure(b)][..1] == [Failure(a)];
    assert [Failure(a)][..0] == [];
  }

  /**
   * Scenario with the checker's own constants: five failures in a row where the send
   * attempted on failure 4 is rejected and the one on failure 5 is delivered. The flag
   * is still down after failure 4 and up after failure 5.
   */
  lemma RejectedThenDeliveredAlert()
    ensures var fs := [Failure(false), Failure(false), Failure(false), Failure(false), Failure(true)];
      !Run(Default, Initial, fs[..4]).emailSent &&
      Step(Default, Run(Default, Initial, fs[..4]), fs[4]).alertAttempted &&
      Run(Default, Initial, fs).emailSent
  {
    var fs := [Failure(false), Failure(false), Failure(false), Failure(false), Failure(true)];
    StreakFromStart(Default, fs[..4]);
    AttemptInStreak(Default, fs, 4);
    StreakFromStart(Default, fs);
    assert InAlertWindow(Default, 4) && fs[4].sendSucceeds;
  }
}
