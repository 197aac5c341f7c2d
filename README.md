# Wait-for-condition engine of the Compass diagnostic client

Compass is a small client for a hand-tracking service. It walks a fixed
sequence of conditions against the service's event stream. Each step is one
`wait_for(message, condition)` call on the connection:

- start a status-line reporter (a "throbber") that shows `message`;
- poll the connection over and over, ignoring failed polls;
- give each event to the caller's pure `condition`, which returns a `Msg`
  verdict: `None`, `Progress(m)`, `Success(m)` or `Failure(m)`;
- on `Progress(m)`, replace the label; on `Success(m)` or `Failure(m)`, put
  the reporter in that terminal state and leave the loop;
- after the loop, call `end()` on the reporter.

The project models that engine in Dafny 4.11 and proves what it guarantees.

- `messages.dfy` (module `Messages`): the `Msg` verdict and `PollResult`.
  `PollResult` is the result of one poll: `Ok(event)` or `Err`, where `Err`
  stands for a timeout or a transport error.
- `reporter.dfy` (module `Reporter`): the throbber as a class. Its fields
  are the label it shows (`text`), its `status` (`Idle`, `Running`,
  `Succeeded(m)` or `Failed(m)`) and `ended`, which counts calls to `end()`.
  `Display` is a value snapshot of those three fields.
- `wait_spec.dfy` (module `WaitSpec`): the engine as functions of a finite
  prefix of the poll results. `Loop` is the polling loop. `Wait` is the
  whole call: start, loop, end. The lemmas cover the properties below.
- `connection.dfy` (module `Connections`): the connection as a class. It
  has a fixed `feed` of poll results and a `cursor` that each `Poll`
  advances. `WaitFor` is imperative code. It builds a `Throbber`, runs the
  polling loop in `PollUntilVerdict`, then calls `End`. Its contract states
  that the result equals `Wait` over the unconsumed feed. It also states
  that the cursor moves past exactly the consumed polls, and that the
  condition ran on exactly the events among them, in order (a ghost record
  of the events, which the source does not return).
- `conditions.dfy` (module `Conditions`): the "Waiting for a hand..."
  condition of the client as an example instance, plus some concrete wait
  cycles.

A real wait can poll forever, so the model works on a finite prefix of the
stream. `Wait` returns one of two results:

- `Terminated(k, display)`: the loop ended after `k` polls, with `end()`
  called once;
- `StillRunning(display)`: the prefix ran out while the source would poll
  again, so `end()` has not been called.

What is proved, for every condition and every prefix:

- The wait ends exactly at the first poll whose verdict is `Success` or
  `Failure`. It takes that index + 1 polls. It ends only if such a poll
  exists.
- `Success(m)` leaves the reporter `Succeeded(m)`, and `Failure(m)` leaves
  it `Failed(m)`.
- `end()` is called once on termination and not at all otherwise.
- The label is the last `Progress` message among the consumed polls, or
  `message` if there is none. `LastLabel` defines this independently of the
  loop, reading from the end of the prefix.
- Failed polls and `None` verdicts change nothing. On a stream made only of
  them, the wait stays running with the initial display.
- Poll results after the terminating one are never consumed: extending the
  stream does not change a terminated result.
- A running prefix can be resumed from the display it left.

Two behaviours of the code that the model keeps as they are:

- `end()` is called only once the loop has exited through `Success` or
  `Failure`. If a condition panics, unwinding skips the explicit `end()`
  call at src/main.rs:163; the model has no panics and calls `End` only
  after a terminal verdict. Whatever the throbber crate does when its value
  is dropped is not modelled.
- A failed poll is retried forever: there is no cap, and an `Err` is never
  turned into a failure, so a dropped connection can hang the wait. The
  model treats every `Err` the same way.

The label is kept apart from the terminal status. After `Success(m)` or
`Failure(m)`, `text` still holds the last progress label, and `m` is carried
by the status, which is the final line the throbber prints.

## Model

| member | source | states |
|---|---|---|
| `Reporter.Throbber.constructor` | src/main.rs:141 | a new throbber shows nothing, is idle and has not been ended |
| `Reporter.Throbber.StartWithMsg` | src/main.rs:143 | starting shows the given message with status running, end count unchanged |
| `Reporter.Throbber.ChangeMessage` | src/main.rs:153-155 | only the label changes, to the given message |
| `Reporter.Throbber.Success` | src/main.rs:149-151 | only the status changes, to success with the given message |
| `Reporter.Throbber.Fail` | src/main.rs:156-158 | only the status changes, to failure with the given message |
| `Reporter.Throbber.End` | src/main.rs:163 | counts one more end call and changes nothing else |
| `WaitSpec.Loop` | src/main.rs:145-162 | the loop consumes between 1 and all of the polls when it ends, never ends the reporter, and keeps the status while still running |
| `WaitSpec.Wait` | src/main.rs:141-163 | a whole call consumes between 1 and all polls and has called `end()` once when it terminates; while still running the status is running and `end()` was never called |
| `WaitSpec.LastLabelWithoutProgress` | src/main.rs:143-155 | without a progress verdict the label stays the initial message |
| `WaitSpec.LoopStopsAtFirstTerminal` | src/main.rs:145-162 | the loop ends exactly at the first success or failure verdict; if it is still running, no consumed poll had one |
| `WaitSpec.LoopConcludes` | src/main.rs:147-159 | on termination, the last consumed poll was an event, and its verdict names the reporter's status |
| `WaitSpec.LoopLabel` | src/main.rs:153-155 | the label after the loop is the last progress message among the consumed polls, else the starting label |
| `WaitSpec.LoopIgnoresLaterPolls` | src/main.rs:149-159 | once the loop has ended on a prefix, appending more poll results changes nothing |
| `WaitSpec.LoopResumes` | src/main.rs:145-162 | a prefix after which the loop still runs can be split off; the loop continues from the display it left |
| `WaitSpec.LoopOverInertPolls` | src/main.rs:146-148 | over failed polls and None verdicts only, the loop keeps running with the display untouched |
| `WaitSpec.WaitEndsAtFirstTerminal` | src/main.rs:141-163 | the wait terminates iff some poll has a terminal verdict; then at the first one, ended once, status as the verdict; otherwise running and never ended |
| `WaitSpec.WaitTerminatesAt` | src/main.rs:141-163 | if poll i is the first terminal one, the wait is exactly i+1 polls, last progress label, the verdict's status, one end call |
| `WaitSpec.WaitRunsOn` | src/main.rs:141-162 | with no terminal verdict in the prefix, the wait is still running with the last progress label and no end call |
| `WaitSpec.WaitLabel` | src/main.rs:143-155 | the label starts as the message and is then the last progress message among the consumed polls |
| `WaitSpec.WaitIgnoresLaterPolls` | src/main.rs:145-163 | a terminated wait ends the same on every longer stream: no later poll result is consumed |
| `WaitSpec.WaitOnInertStream` | src/main.rs:143-148 | if every poll fails or every verdict is None, every prefix ends still running with the initial display |
| `Connections.Connection.Poll` | src/main.rs:146 | a poll returns the next poll result and advances the cursor by one |
| `Connections.Delivered` | src/main.rs:146-147 | membership of the events handed to the condition: each comes from a successful poll, and every successful poll's event is among them |
| `Connections.DeliveredOncePerOk` | src/main.rs:146-147 | the condition sees each successful poll's event exactly once and in arrival order: one delivered event per successful poll, and the event of the k-th successful poll is the k-th delivered |
| `Connections.Connection.PollUntilVerdict` | src/main.rs:145-162 | the loop leaves the last progress label; it stops just after the first terminal verdict with that verdict's status, or runs out of feed with none seen |
| `Connections.Connection.WaitFor` | src/main.rs:130-165 | the result equals the specification over the unconsumed feed; the cursor moves past exactly the consumed polls; the condition ran once per delivered event, in order |
| `Conditions.HandPresent` | src/main.rs:57-66 | success exactly on a tracking frame holding a hand, otherwise no update |
| `Conditions.WaitForHand` | src/main.rs:57-66 | waiting for a hand ends exactly at the first frame with a hand, in success, never failure, with the label unchanged |
| `Conditions.ProgressThenSuccess` | src/main.rs:145-163 | none, 50%, 90%, done: four polls, label 90%, succeeded with done, one end call |
| `Conditions.ProgressThenFailure` | src/main.rs:145-163 | progress then failure: two polls, failed with boom, never succeeded |
| `Conditions.TimeoutKeepsLabel` | src/main.rs:146 | a failed poll between two progress verdicts leaves the label the first one set |

## Left out

- Connection setup and the one-shot service calls of `main` (src/main.rs:6-55, 100-120). This covers opening the connection and device, reading device information, requesting the tracking mode, setting policy flags and saving the image. They are calls into the tracking library and the image library, whose code is not part of this model. Panics from their `expect` calls are left out too.
- The grab-strength conditions (src/main.rs:68-98): they compare 32-bit floats and format percentages, and floating point is not modelled.
- The text of formatted messages: message strings are opaque.
- Event payloads: events are generic in `Wait` and `WaitFor`, and `Conditions.Event` keeps only the variant and the hand count.
- The throbber's animation thread, its 100 ms interval and the 100 ms poll timeout. These are concurrency and timing: a timeout is one `Err` poll result, and only the label, status and end count are modelled.
- Unbounded polling: the model covers finite prefixes of the stream. When the feed runs out before a terminal verdict, the result is `StillRunning` and `end()` has not been called. The source would keep polling.
- Teardown on panic: if a condition panics, unwinding skips the explicit `end()` call at src/main.rs:163; the model has no panics, and the throbber crate's drop behaviour is not modelled.
