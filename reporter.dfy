/** The status-line reporter (the throbber) as seen by the wait engine:
    the label it shows, whether it has reached a terminal state, and how
    many times it has been ended. Its animation is not modelled. */
module Reporter {

  /** The reporter's state of completion. */
  datatype Status =
    | Idle                       // created, not started yet
    | Running                    // animating with the current label
    | Succeeded(message: string) // stopped on a success line
    | Failed(message: string)    // stopped on a failure line

  /** A snapshot of everything observable about a reporter. */
  datatype Display = Display(text: string, status: Status, ended: nat)

  /** The snapshot right after `start_with_msg(message)` on a new reporter. */
  function Started(message: string): Display {
    Display(message, Running, 0)
  }

  class Throbber {
    var text: string
    var status: Status
    var ended: nat

    /** The observable state of this reporter. */
    function State(): Display
      reads this
    {
      Display(text, status, ended)
    }

    /** `Throbber::new()`: nothing shown yet, never ended. */
    constructor ()
      ensures State() == Display("", Idle, 0)
    {
      text := "";
      status := Idle;
      ended := 0;
    }

    /** Starts the animation showing `message`. */
    method StartWithMsg(message: string)
      modifies this
      ensures State() == Display(message, Running, old(ended))
    {
      text := message;
      status := Running;
    }

    /** Replaces the label; the status and the end count do not change. */
    method ChangeMessage(message: string)
      modifies this
      ensures State() == old(State()).(text := message)
    {
      text := message;
    }

    /** Stops on a success line showing `message`. */
    method Success(message: string)
      modifies this
      ensures State() == old(State()).(status := Succeeded(message))
    {
      status := Succeeded(message);
    }

    /** Stops on a failure line showing `message`. */
    method Fail(message: string)
      modifies this
      ensures State() == old(State()).(status := Failed(message))
    {
      status := Failed(message);
    }

    /** Tears the reporter down; counts the call and changes nothing else. */
    method End()
      modifies this
      ensures State() == old(State()).(ended := old(ended) + 1)
    {
      ended := ended + 1;
    }
  }
}
