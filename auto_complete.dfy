/**
 * clients/diagonator_clients/update_requirements.py: completes on the server every incomplete
 * requirement whose name was already logged as completed today, for instance after the server
 * restarted and rebuilt the day's requirements.
 */
module AutoComplete {
  import opened Client
  import M = Manager

  /** A `requirement_log` row: local date `YYYY-MM-DD`, seconds since midnight, name. */
  datatype LogRow = LogRow(date: string, time: nat, name: string)

  /** The names logged on `today`. */
  function CompletedNames(log: seq<LogRow>, today: string): (names: set<string>)
    ensures forall n :: n in names <==> exists i :: 0 <= i < |log| && log[i].date == today && log[i].name == n
  {
    set i | 0 <= i < |log| && log[i].date == today :: log[i].name
  }

  /** The requirements to complete, in the server's order. */
  function ToComplete(reqs: seq<M.Requirement>, completed: set<string>): (r: seq<M.Requirement>)
    ensures forall q :: q in r <==> q in reqs && !q.complete && q.name in completed
    ensures |r| <= |reqs|
    decreases |reqs|
  {
    if reqs == [] then []
    else
      assert reqs == [reqs[0]] + reqs[1..];
      (if !reqs[0].complete && reqs[0].name in completed then [reqs[0]] else []) + ToComplete(reqs[1..], completed)
  }

  /**
   * The selection is made requirement by requirement: selecting from a concatenation concatenates
   * the selections, so two requirements with the same name both get a request.
   */
  lemma {:induction false} ToCompleteAppend(a: seq<M.Requirement>, b: seq<M.Requirement>, completed: set<string>)
    ensures ToComplete(a + b, completed) == ToComplete(a, completed) + ToComplete(b, completed)
    decreases |a|
  {
    if a != [] {
      assert (a + b)[0] == a[0] && (a + b)[1..] == a[1..] + b;
      ToCompleteAppend(a[1..], b, completed);
    } else {
      assert a + b == b;
    }
  }

  /** The requests the script sends: `GetInfo`, then one `CompleteRequirement` per selected requirement. */
  function Requests(log: seq<LogRow>, today: string, reqs: seq<M.Requirement>): (r: seq<Request>)
    ensures |r| == 1 + |ToComplete(reqs, CompletedNames(log, today))| && r[0] == GetInfo
    ensures forall i :: 1 <= i < |r| ==> r[i] == CompleteRequirement(ToComplete(reqs, CompletedNames(log, today))[i - 1].id)
  {
    var picked := ToComplete(reqs, CompletedNames(log, today));
    [GetInfo] + seq(|picked|, i requires 0 <= i < |picked| => CompleteRequirement(picked[i].id))
  }

  /**
   * A requirement gets a request exactly when it is incomplete and its name was logged today;
   * a complete one never does.
   */
  lemma {:induction false} RequestedExactly(log: seq<LogRow>, today: string, reqs: seq<M.Requirement>, q: M.Requirement)
    requires q in reqs
    ensures q in ToComplete(reqs, CompletedNames(log, today)) <==>
              !q.complete && exists i :: 0 <= i < |log| && log[i].date == today && log[i].name == q.name
    ensures q.complete ==> q !in ToComplete(reqs, CompletedNames(log, today))
  {
    var names := CompletedNames(log, today);
    assert q.name in names <==> exists i :: 0 <= i < |log| && log[i].date == today && log[i].name == q.name;
  }
}
