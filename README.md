# Web service checker: failure-escalation state machine

This project models the core of a small uptime monitor. The monitor probes one URL.
Each check schedules the next one: 30 minutes later while the service is healthy,
5 minutes later in retry mode, which a failure switches on. After a recovery more
than one timer chain runs, so checks can then come more often (see below). It sends
one alert e-mail once more than `maxRetries` (3) failures in a row have been seen,
and it resets everything when the service recovers.

Two modules:

- `Escalation` (escalation.dfy) is the state machine as values. `State` holds the
  three fields `failureCount`, `isInRetryMode` and `emailSent`. `Config` holds the
  two intervals and the retry budget; `Default` holds the checker's own values.
  `Step` is one fired check. It returns the new state, the timer delays requested
  during that step, and whether an alert was attempted. `Run` folds `Step` over a
  sequence of checks. The lemmas state the step rules, the invariant
  (`isInRetryMode` iff `failureCount > 0`, and `emailSent` implies retry mode and a
  count above the budget), exactly which failures of an episode try to alert, the
  one-delivered-alert-per-episode rule, and how many timers are requested.
- `Checker` (checker.dfy) is the `WebServiceChecker` class. Its fields are updated in
  place by `CheckService`, `HandleFailure`, `ResetToNormalMode` and `SendAlert`.
  `CheckAndReschedule` is what a fired timer runs: the check, then the continuation
  that asks for a normal-interval timer whenever the checker is in normal mode.
  `Start` runs the first check the same way. `CheckAndReschedule` and `Start` are
  proved to perform exactly the transition `Escalation.Step` describes: the same new
  fields, timers and alert attempt. `HandleFailure` and `CheckService` are proved to
  move the fields as `Step` does and to keep the invariant; their timers are those of
  the handler alone. `ResetToNormalMode` is proved to restore the initial fields and to
  request one normal-interval timer. `SendAlert` is proved to raise the flag only on
  a delivered send.
  `Monitor` drives a fresh checker through a sequence of checks, which is the
  self-rescheduling timer chain written as a loop.

A step that recovers (a success while in retry mode) requests TWO normal-interval
timers. `resetToNormalMode` schedules one (index.js:79). Then the continuation of the
check that just ran sees normal mode and schedules another (index.js:85-87). Every
other step requests exactly one timer. The model keeps this behaviour. `TimerCount`
proves that the timers requested over a run number the checks plus the recoveries,
and `Monitor` returns exactly those delays in order.
The first check is started directly and every later check consumes one timer, so each
recovery leaves one more independent timer chain running.

The probe is an input. A `Probe` is either a response with a status or no response
(timeout, network error). A response counts as success iff its status is below 400
(index.js:34). The e-mail send is also an input: each check carries the outcome the
send would have if one were made during that check.

## Model

| member | source | states |
|---|---|---|
| `Escalation.SuccessInNormalMode` | index.js:37-90 | a success outside retry mode changes none of the three fields, attempts no alert, and requests one normal-interval timer |
| `Escalation.Recovery` | index.js:75-88 | a success in retry mode resets count, mode and flag together to the initial state and requests two normal-interval timers (the reset's and the continuation's) |
| `Escalation.FailureStep` | index.js:53-73 | a failure adds exactly one to the count, leaves retry mode on and requests one retry-interval timer; it attempts the alert iff the checker was already retrying, the new count exceeds maxRetries and no alert was delivered; the flag then becomes the send outcome and is otherwise kept |
| `Escalation.DelaysOfStep` | index.js:53-90 | every step requests exactly one timer except a recovery, which requests two; successes request only the normal interval, failures only the retry interval |
| `Escalation.EmailSentOnlyOnDelivery` | index.js:116-121 | the flag goes up only in a failure step that attempted the alert and whose send was delivered |
| `Escalation.FailedSendIsRetried` | index.js:63-66 | after an attempted send that fails, the flag is still down and the next failure attempts the alert again |
| `Escalation.OnlyRecoveryLowers` | index.js:53-80 | the count and the flag never go down except in a recovery, which resets all three fields at once |
| `Escalation.StepKeepsInv` | index.js:53-80 | every step keeps the invariant: retry mode iff count > 0, and flag up implies retry mode and count > maxRetries |
| `Escalation.InvPreserved` | index.js:53-80 | from any state satisfying the invariant, it holds after any sequence of checks |
| `Escalation.InvAlways` | index.js:11-13 | from the constructor's state (0, false, false), the invariant holds after any sequence of checks |
| `Escalation.StreakFromStart` | index.js:53-73 | after k failures from start-up the count is k, retry mode is on iff k > 0, and the flag is up iff some failure after the first with count above maxRetries had its send delivered |
| `Escalation.AttemptInStreak` | index.js:56-66 | in a run of failures from start-up, failure k+1 attempts the alert iff it is not the first, its count exceeds maxRetries, and no earlier such failure delivered the alert |
| `Escalation.SuccessResets` | index.js:40-43 | under the invariant, every success leaves the checker in the constructor's state |
| `Escalation.LaterEpisode` | index.js:75-80 | after any history ending in a success, the checks that follow lead to the same state as they would from start-up |
| `Escalation.CountSinceLastSuccess` | index.js:53-80 | in any episode the failure count equals the number of failures since the last success (or start-up), and retry mode is on iff there was one |
| `Escalation.AttemptInEpisode` | index.js:56-66 | in any episode, failure k+1 attempts the alert iff it is not the first, its count exceeds maxRetries, and no earlier failure of the episode delivered the alert |
| `Escalation.FirstAttemptOnFourthFailure` | index.js:10-73 | with maxRetries = 3, in every episode (the first after start-up or one after a recovery) failures 1 to 3 never attempt the alert and failure 4 does |
| `Escalation.AtMostOneAlertPerStreak` | index.js:63-68 | in an unbroken run of failures, at most one alert is delivered (none if the flag was already up); the flag at the end is up iff it was up or a delivery happened; once the flag is up no failure attempts an alert |
| `Escalation.TimerCount` | index.js:82-90 | over any run, the timers requested equal the number of checks plus the number of recoveries, and each requested delay is the normal or the retry interval |
| `Escalation.FailFailRecover` | index.js:40-43 | failure, failure, success from start-up ends in the initial state, and the success requests two normal-interval timers |
| `Escalation.RejectedThenDeliveredAlert` | index.js:116-121 | with the checker's constants, if the send at failure 4 is rejected, the flag is still down after it; failure 5 attempts again and its delivered send raises the flag |
| `Checker.WebServiceChecker.constructor` | index.js:6-13 | the fields start at count 0, normal mode, no alert sent; the constants are 30 min, 5 min and 3 retries |
| `Checker.WebServiceChecker.SendAlert` | index.js:92-122 | the flag is set only when the send is delivered; a rejected send leaves it unchanged |
| `Checker.WebServiceChecker.ResetToNormalMode` | index.js:75-80 | all three fields return to their initial values and one normal-interval timer is requested |
| `Checker.WebServiceChecker.HandleFailure` | index.js:53-73 | the fields move exactly as `Step` says for a failure; one retry-interval timer is requested; the alert is attempted iff the checker was retrying, the new count exceeds maxRetries and the flag is down; the invariant is kept |
| `Checker.WebServiceChecker.CheckService` | index.js:30-51 | the result is true iff a response arrived with status below 400; the fields move exactly as `Step` says; a failure requests a retry timer, a recovery a normal timer, a success in normal mode none |
| `Checker.WebServiceChecker.CheckAndReschedule` | index.js:82-90 | a fired check followed by its continuation moves the fields and requests exactly the timers `Step` gives |
| `Checker.WebServiceChecker.Start` | index.js:124-131 | the first check and its continuation behave as a fired timer does |
| `Checker.Monitor` | index.js:82-131 | a fresh checker driven through any sequence of checks ends in the state `Run` gives, which satisfies the invariant; the delays it collects are exactly those `DelaysRequested` gives for the run, in order, one per check plus one per recovery; it counts the alert attempts |

## Left out

- The HTTP probe itself (the client, its 10-second timeout, network errors) is an input. Only the status-below-400 rule is kept.
- The e-mail transport, the message text and its locale-dependent date formatting are left out. The send outcome is an input of each check.
- Assumption: the alert send, which is started without being awaited (index.js:65), settles within the failure step that started it, and the checks of one checker never overlap. The source does not guarantee this. After a recovery, two timers with the same delay are pending (index.js:79, 85-87), so the extra timer chains fire checks milliseconds apart. Two or more failures can then start their sends while the flag, set only after the send completes (index.js:116-118), is still down. That can deliver several alerts in one failure streak. A send still pending at a recovery can also raise the flag after the reset (index.js:78 against 118), leaving it up in normal mode. The model does not capture these behaviours.
- Escalation.AtMostOneAlertPerStreak: holds only under the assumption above; overlapping chains can deliver several alerts in one streak.
- Escalation.EmailSentOnlyOnDelivery: holds only under the assumption above; a send still pending at a recovery can raise the flag outside any failure step.
- Escalation.AttemptInStreak, Escalation.FirstAttemptOnFourthFailure, Escalation.RejectedThenDeliveredAlert: hold only under the assumption above; with overlapping checks a failure can also attempt while an earlier send is still pending.
- Escalation.StepKeepsInv, Escalation.InvPreserved, Escalation.InvAlways: the half "emailSent implies retry mode and a count above maxRetries" holds only under the assumption above; the half "retry mode iff count > 0" does not depend on it.
- Real timers, wall-clock time and the interleaving of several live timer chains are left out. Requested delays are returned as data, and `Monitor` runs checks one after another on one checker.
- Console logging, loading the configuration from the environment (URL, mail settings) and the SIGINT/SIGTERM handlers are left out.
- `failureCount` is an unbounded `nat`. The source's double-precision number loses exactness only after 2^53 failures, which is not modelled.
