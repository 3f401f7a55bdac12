/**
 * What the Python clients do, as values. A client script is a function from everything it
 * reads (arguments, the selector's answer, the local time, the server's replies) to the list of
 * effects it performs, in order. The server's replies are those of the manager's requests.
 */
module Client {
  import opened Time
  import M = Manager

  /** The requests the clients send (JSON objects tagged by `type`). */
  datatype Request = Deactivate(duration: int) | GetInfo | CompleteRequirement(id: nat)

  datatype Effect =
    | Exit(message: string)                              // the script stops with this message
    | Connect                                            // opens the server's socket
    | Prompt(lines: seq<string>)                         // runs the selector with these lines as input
    | Send(request: Request)
    | Say(text: string)                                  // prints a text
    | Show(response: M.Response)                         // prints a decoded reply
    | LogDeactivation(date: string, time: nat, state: string)  // a `deactivate_log` row
    | LogRequirement(date: string, time: nat, name: string)    // a `requirement_log` row

  /** Minutes since midnight of a wall-clock time. */
  function MinuteOfDay(t: HourMinute): (n: nat)
    ensures n < 1440
  {
    t.hour * 60 + t.minute
  }

  /** The wall-clock time one minute earlier; the date is not part of it, so 00:00 goes to 23:59. */
  function PrevMinute(t: HourMinute): (p: HourMinute)
    ensures MinuteOfDay(p) == (MinuteOfDay(t) + 1439) % 1440
  {
    if t.minute > 0 then HourMinuteFields(t.hour, t.minute - 1)
    else if t.hour > 0 then HourMinuteFields(t.hour - 1, 59)
    else HourMinuteFields(23, 59)
  }
}
