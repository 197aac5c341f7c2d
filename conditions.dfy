/** Conditions as the demo client writes them, and the wait cycles the
    engine runs on them. Events are reduced to the variant the conditions
    look at; payloads other than the number of tracked hands are dropped. */
module Conditions {
  import opened Messages
  import opened Reporter
  import opened WaitSpec

  /** The kinds of event the demo conditions tell apart; every other kind
      the service sends (tracking mode, policy, log, ...) is `OtherEvent`. */
  datatype Event =
    | ConnectionEvent
    | DeviceEvent
    | TrackingEvent(hands: nat)
    | ImageEvent
    | OtherEvent

  /** The "Waiting for a hand..." condition: success on the first tracking
      frame that holds a hand, no update on anything else. */
  function HandPresent(e: Event): (v: Msg)
    ensures v == Msg.None || v == Success("Got a hand")
    ensures v.Success? <==> e.TrackingEvent? && e.hands > 0
  {
    match e
    case TrackingEvent(hands) => if hands > 0 then Success("Got a hand") else Msg.None
    case _ => Msg.None
  }

  /** Waiting for a hand ends exactly at the first tracking frame with a
      hand, in the success state, with the initial label never replaced;
      it can never end in failure. */
  lemma WaitForHand(polls: seq<PollResult<Event>>)
    ensures var r := Wait("Waiting for a hand...", HandPresent, polls);
            && r.display.text == "Waiting for a hand..."
            && (r.Terminated? <==> exists i :: 0 <= i < |polls| && polls[i].Ok? && polls[i].event.TrackingEvent? && polls[i].event.hands > 0)
            && (r.Terminated? ==>
                  && FirstTerminalAt(HandPresent, polls, r.polls - 1)
                  && polls[r.polls - 1].event.TrackingEvent? && polls[r.polls - 1].event.hands > 0
                  && r.display.status == Succeeded("Got a hand"))
  {
    var message := "Waiting for a hand...";
    WaitEndsAtFirstTerminal(message, HandPresent, polls);
    WaitLabel(message, HandPresent, polls);
    var r := Wait(message, HandPresent, polls);
    var consumed := Consumed(r, polls);
    assert forall i :: 0 <= i < |consumed| ==> consumed[i] == polls[i];
    LastLabelWithoutProgress(message, HandPresent, consumed);
    if exists i :: 0 <= i < |polls| && polls[i].Ok? && polls[i].event.TrackingEvent? && polls[i].event.hands > 0 {
      var i :| 0 <= i < |polls| && polls[i].Ok? && polls[i].event.TrackingEvent? && polls[i].event.hands > 0;
      assert TerminalAt(HandPresent, polls, i);
    }
  }

  /** In the examples below each event is itself a verdict, and the
      condition is the identity: it returns the event unchanged. */
  function AsIs(v: Msg): Msg { v }

  /** No update, two progress steps, then success: the label goes from
      "label0" to "50%" to "90%", the wait succeeds with "done" after
      exactly four polls, and the reporter is ended once. */
  lemma ProgressThenSuccess()
    ensures Wait("label0", AsIs, [Ok(Msg.None), Ok(Progress("50%")), Ok(Progress("90%")), Ok(Success("done"))])
            == Terminated(4, Display("90%", Succeeded("done"), 1))
  {
  }

  /** Progress, then failure: the wait ends failed with "boom", never
      succeeded. */
  lemma ProgressThenFailure()
    ensures Wait("label0", AsIs, [Ok(Progress("x")), Ok(Failure("boom"))])
            == Terminated(2, Display("x", Failed("boom"), 1))
  {
  }

  /** A timed-out poll between two progress verdicts leaves the label as the
      first one set it. */
  lemma TimeoutKeepsLabel()
    ensures Wait("label0", AsIs, [Ok(Progress("a")), Err]) == StillRunning(Display("a", Running, 0))
    ensures Wait("label0", AsIs, [Ok(Progress("a")), Err, Ok(Progress("b"))]) == StillRunning(Display("b", Running, 0))
  {
  }
}
