/** The connection to the tracking service as the wait engine uses it: a
    stream of poll results and a cursor that every poll advances. */
module Connections {
  import opened Messages
  import opened Reporter
  import opened WaitSpec

  /** The events the condition was applied to, in arrival order: the
      events of the successful polls among `polls`. */
  function Delivered<E>(polls: seq<PollResult<E>>): (events: seq<E>)
    ensures forall k :: 0 <= k < |events| ==> Ok(events[k]) in polls
    ensures forall i :: 0 <= i < |polls| && polls[i].Ok? ==> polls[i].event in events
    decreases |polls|
  {
    if polls == [] then []
    else
      var last := polls[|polls| - 1];
      Delivered(polls[..|polls| - 1]) + (if last.Ok? then [last.event] else [])
  }

  /** The number of successful polls among `polls`, counted from the front. */
  function CountOk<E>(polls: seq<PollResult<E>>): nat
    decreases |polls|
  {
    if polls == [] then 0
    else (if polls[0].Ok? then 1 else 0) + CountOk(polls[1..])
  }

  lemma {:induction false} CountOkGrows<E>(polls: seq<PollResult<E>>, p: PollResult<E>)
    ensures CountOk(polls + [p]) == CountOk(polls) + (if p.Ok? then 1 else 0)
    decreases |polls|
  {
    if polls == [] {
      assert [p][1..] == [];
    } else {
      assert (polls + [p])[1..] == polls[1..] + [p];
      CountOkGrows(polls[1..], p);
    }
  }

  /** The condition sees each successful poll's event exactly once, in
      arrival order: there are as many delivered events as successful
      polls, and the event of the successful poll at index `i` is the one
      delivered after the events of the successful polls before it. */
  lemma {:induction false} DeliveredOncePerOk<E>(polls: seq<PollResult<E>>)
    ensures |Delivered(polls)| == CountOk(polls)
    ensures forall i :: 0 <= i < |polls| && polls[i].Ok? ==>
              CountOk(polls[..i]) < |Delivered(polls)| && Delivered(polls)[CountOk(polls[..i])] == polls[i].event
    decreases |polls|
  {
    if polls != [] {
      var n := |polls| - 1;
      var front, last := polls[..n], polls[n];
      DeliveredOncePerOk(front);
      assert polls == front + [last];
      CountOkGrows(front, last);
      forall i | 0 <= i < |polls| && polls[i].Ok?
        ensures CountOk(polls[..i]) < |Delivered(polls)| && Delivered(polls)[CountOk(polls[..i])] == polls[i].event
      {
        if i < n {
          assert polls[..i] == front[..i];
          assert front[i] == polls[i];
        } else {
          assert polls[..i] == front;
        }
      }
    }
  }

  /** Consuming one more poll result adds its event, if any, to the
      delivered events. */
  lemma DeliveredStep<E>(feed: seq<PollResult<E>>, from: nat, to: nat)
    requires from <= to < |feed|
    ensures Delivered(feed[from..to + 1]) ==
            Delivered(feed[from..to]) + (if feed[to].Ok? then [feed[to].event] else [])
  {
    assert feed[from..to + 1][..to - from] == feed[from..to];
  }

  class Connection<E> {
    /** The poll results the service will deliver, in order: a finite prefix
        of its unbounded stream. */
    const feed: seq<PollResult<E>>
    /** How many poll results have been consumed so far. */
    var cursor: nat

    ghost predicate Valid()
      reads this
    {
      cursor <= |feed|
    }

    constructor (feed: seq<PollResult<E>>)
      ensures Valid() && this.feed == feed && cursor == 0
    {
      this.feed := feed;
      cursor := 0;
    }

    /** `poll(100)`: consumes the next poll result, event or error. */
    method Poll() returns (p: PollResult<E>)
      requires Valid() && cursor < |feed|
      modifies this
      ensures Valid()
      ensures cursor == old(cursor) + 1 && p == feed[old(cursor)]
    {
      p := feed[cursor];
      cursor := cursor + 1;
    }

    /** The `loop` of `wait_for`: polls, classifies each event with
        `condition` and updates `throbber`, until a verdict is `Success` or
        `Failure` or the finite feed runs out. The label shown is the last
        progress message since entry; the loop stops right after the first
        terminal verdict, with the status that verdict names. */
    method PollUntilVerdict(throbber: Throbber, condition: E -> Msg) returns (terminated: bool, ghost evaluated: seq<E>)
      requires Valid() && throbber.status == Running
      modifies this, throbber
      ensures Valid() && old(cursor) <= cursor
      ensures evaluated == Delivered(feed[old(cursor)..cursor])
      ensures throbber.text == LastLabel(old(throbber.text), condition, feed[old(cursor)..cursor])
      ensures throbber.ended == old(throbber.ended)
      ensures terminated ==>
                && FirstTerminalAt(condition, feed[old(cursor)..], cursor - 1 - old(cursor))
                && throbber.status == Conclusion(condition(feed[cursor - 1].event))
      ensures !terminated ==>
                && cursor == |feed|
                && (forall j :: 0 <= j < cursor - old(cursor) ==> !TerminalAt(condition, feed[old(cursor)..], j))
                && throbber.status == Running
    {
      ghost var start, initial := cursor, throbber.text;
      evaluated := [];
      terminated := false;
      while cursor < |feed|
        invariant start <= cursor <= |feed|
        invariant throbber.State() == Display(LastLabel(initial, condition, feed[start..cursor]), Running, old(throbber.ended))
        invariant forall j :: 0 <= j < cursor - start ==> !TerminalAt(condition, feed[start..], j)
        invariant evaluated == Delivered(feed[start..cursor])
        invariant !terminated
        decreases |feed| - cursor
      {
        ghost var here := cursor;
        DeliveredStep(feed, start, here);
        LastLabelGrows(initial, condition, feed, start, here);
        assert feed[start..][here - start] == feed[here];
        var p := Poll();
        if p.Ok? {
          var verdict := condition(p.event);
          evaluated := evaluated + [p.event];
          match verdict {
            case None =>
            case Progress(m) =>
              throbber.ChangeMessage(m);
            case Success(m) =>
              throbber.Success(m);
              terminated := true;
              break;
            case Failure(m) =>
              throbber.Fail(m);
              terminated := true;
              break;
          }
        }
      }
    }

    /** `wait_for(message, condition)`: starts a reporter on `message`, runs
        the polling loop, and ends the reporter once the loop has exited.
        The result is `Wait` over the poll results from the cursor on: how
        the wait ended and the reporter's final state. If the finite feed
        runs out first, the wait is reported still running and the reporter
        is not ended, as the source would still be polling. The cursor moves
        past exactly the polls consumed, and the condition is applied to
        exactly the events among them, in order. */
    method WaitFor(message: string, condition: E -> Msg) returns (r: WaitResult, ghost evaluated: seq<E>)
      requires Valid()
      modifies this
      ensures Valid()
      ensures r == Wait(message, condition, feed[old(cursor)..])
      ensures cursor == old(cursor) + (if r.Terminated? then r.polls else |feed| - old(cursor))
      ensures evaluated == Delivered(feed[old(cursor)..cursor])
    {
      var start := cursor;
      var throbber := new Throbber();
      throbber.StartWithMsg(message);
      var terminated;
      terminated, evaluated := PollUntilVerdict(throbber, condition);
      if !terminated {
        assert feed[start..] == feed[start..cursor];
        WaitRunsOn(message, condition, feed[start..]);
        return StillRunning(throbber.State()), evaluated;
      }
      throbber.End();
      assert feed[start..][..cursor - start] == feed[start..cursor];
      WaitTerminatesAt(message, condition, feed[start..], cursor - 1 - start);
      r := Terminated(cursor - start, throbber.State());
    }
  }
}
