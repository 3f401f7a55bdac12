/**
 * The requirement-completion clients: clients/diagonator_clients/complete_requirement_dmenu.py
 * (offers the incomplete requirements sorted by due time and logs a completion) and
 * clients/complete_requirement_dmenu.py (offers them in the server's order, over a socket, and
 * logs nothing). Both let the user pick a requirement by name and complete the first one with
 * that name.
 */
module RequirementPicker {
  import opened Wrappers
  import opened Client
  import M = Manager
  import Sorting

  /** The requirements still to be completed, in the order given. */
  function Offered(reqs: seq<M.Requirement>): (r: seq<M.Requirement>)
    ensures forall q :: q in r <==> q in reqs && !q.complete
    ensures |r| <= |reqs|
    decreases |reqs|
  {
    if reqs == [] then []
    else
      assert reqs == [reqs[0]] + reqs[1..];
      (if reqs[0].complete then [] else [reqs[0]]) + Offered(reqs[1..])
  }

  /** Filtering keeps the order: the offers from a concatenation are concatenated. */
  lemma {:induction false} OfferedAppend(a: seq<M.Requirement>, b: seq<M.Requirement>)
    ensures Offered(a + b) == Offered(a) + Offered(b)
    decreases |a|
  {
    if a != [] {
      assert (a + b)[0] == a[0] && (a + b)[1..] == a[1..] + b;
      OfferedAppend(a[1..], b);
    } else {
      assert a + b == b;
    }
  }

  function DueKey(q: M.Requirement): int
  {
    q.due.secs
  }

  /** The offers of the sorting client: ascending by due time, stable among equal due times. */
  function ByDue(reqs: seq<M.Requirement>): seq<M.Requirement>
  {
    Sorting.SortBy(Offered(reqs), DueKey)
  }

  /**
   * The sorted offers are exactly the incomplete requirements, ordered by due time, and those
   * due at the same time keep the server's order.
   */
  lemma ByDueOrdered(reqs: seq<M.Requirement>)
    ensures multiset(ByDue(reqs)) == multiset(Offered(reqs))
    ensures Sorting.SortedBy(ByDue(reqs), DueKey)
    ensures forall k :: Sorting.WithKey(ByDue(reqs), DueKey, k) == Sorting.WithKey(Offered(reqs), DueKey, k)
  {
    Sorting.SortBySorted(Offered(reqs), DueKey);
    forall k {
      Sorting.SortByStable(Offered(reqs), DueKey, k);
    }
  }

  /** The lines given to the selector: the names, one per offer. */
  function Names(offered: seq<M.Requirement>): (r: seq<string>)
    ensures |r| == |offered|
    ensures forall i :: 0 <= i < |r| ==> r[i] == offered[i].name
  {
    seq(|offered|, i requires 0 <= i < |offered| => offered[i].name)
  }

  /** `next(req for req in requirements if req["name"] == choice)`: the first offer with that name. */
  function FirstNamed(offered: seq<M.Requirement>, choice: string): (r: Option<nat>)
    ensures r.None? <==> forall i :: 0 <= i < |offered| ==> offered[i].name != choice
    ensures r.Some? ==> r.value < |offered| && offered[r.value].name == choice
    ensures r.Some? ==> forall j :: 0 <= j < r.value ==> offered[j].name != choice
    decreases |offered|
  {
    if offered == [] then None
    else if offered[0].name == choice then Some(0)
    else match FirstNamed(offered[1..], choice)
      case None => None
      case Some(i) => Some(i + 1)
  }

  function NotFoundMessage(choice: string): string
  {
    "Requirement with name '" + choice + "' not found."
  }

  /**
   * What follows the `GetInfo` reply once `offered` is known: the selector, the choice's
   * resolution, the `CompleteRequirement` request and its reply. `logs` says whether a success
   * is written to `requirement_log`.
   */
  function Pick(offered: seq<M.Requirement>, choice: string, reply: M.Response, logs: bool,
                logDate: string, logTime: nat): (effects: seq<Effect>)
    ensures offered == [] ==> effects == [Say("No incomplete requirements.")]
    ensures forall id :: Send(CompleteRequirement(id)) in effects <==>
              exists i :: FirstNamed(offered, choice) == Some(i) && id == offered[i].id
    ensures FirstNamed(offered, choice).None? && offered != [] ==>
              effects == [Prompt(Names(offered)), Say(NotFoundMessage(choice))]
    ensures forall i :: 0 <= i < |effects| && effects[i].LogRequirement? ==>
              logs && reply == M.Success && effects[i] == LogRequirement(logDate, logTime, choice)
              && 1 < i && effects[1].Send?
    ensures logs && reply == M.Success && FirstNamed(offered, choice).Some? ==>
              LogRequirement(logDate, logTime, choice) in effects
  {
    if offered == [] then [Say("No incomplete requirements.")]
    else
      var prompt := [Prompt(Names(offered))];
      match FirstNamed(offered, choice)
      case None => prompt + [Say(NotFoundMessage(choice))]
      case Some(i) =>
        prompt + [Send(CompleteRequirement(offered[i].id))]
        + if reply == M.Success then
            [Say("Successfully completed requirement: " + choice)]
            + (if logs then [LogRequirement(logDate, logTime, choice)] else [])
          else [Show(reply)]
  }

  /**
   * clients/diagonator_clients/complete_requirement_dmenu.py: `info` is the reply to `GetInfo`,
   * `choice` the selector's output with the newlines around it removed, `reply` the reply to
   * `CompleteRequirement`.
   */
  function SortedScript(info: M.Response, choice: string, reply: M.Response, logDate: string, logTime: nat)
    : (effects: seq<Effect>)
    ensures |effects| > 0 && effects[0] == Send(GetInfo)
    ensures !info.Info? ==> effects == [Send(GetInfo), Show(info)]
    ensures info.Info? ==> effects == [Send(GetInfo)] + Pick(ByDue(info.info.requirements), choice, reply, true, logDate, logTime)
  {
    [Send(GetInfo)]
    + if info.Info? then Pick(ByDue(info.info.requirements), choice, reply, true, logDate, logTime)
      else [Show(info)]
  }

  /** clients/complete_requirement_dmenu.py: the same over a socket, unsorted and without logging. */
  function ServerOrderScript(info: M.Response, choice: string, reply: M.Response): (effects: seq<Effect>)
    ensures |effects| > 1 && effects[0] == Connect && effects[1] == Send(GetInfo)
    ensures !info.Info? ==> effects == [Connect, Send(GetInfo), Show(info)]
    ensures info.Info? ==> effects == [Connect, Send(GetInfo)] + Pick(Offered(info.info.requirements), choice, reply, false, "", 0)
    ensures forall i :: 0 <= i < |effects| ==> !effects[i].LogRequirement?
  {
    [Connect, Send(GetInfo)]
    + if info.Info? then Pick(Offered(info.info.requirements), choice, reply, false, "", 0)
      else [Show(info)]
  }

  /**
   * Which requirement the sorting client completes: an incomplete one with the chosen name that
   * is due no later than any other incomplete one with that name.
   */
  lemma {:induction false} SortedPickIsEarliest(reqs: seq<M.Requirement>, choice: string)
    requires FirstNamed(ByDue(reqs), choice).Some?
    ensures var q := ByDue(reqs)[FirstNamed(ByDue(reqs), choice).value];
            && q in reqs && !q.complete && q.name == choice
            && forall p :: p in reqs && !p.complete && p.name == choice ==> DueKey(q) <= DueKey(p)
  {
    var s := ByDue(reqs);
    var i := FirstNamed(s, choice).value;
    ByDueOrdered(reqs);
    assert s[i] in multiset(Offered(reqs));
    forall p | p in reqs && !p.complete && p.name == choice
      ensures DueKey(s[i]) <= DueKey(p)
    {
      assert p in multiset(Offered(reqs));
      assert p in multiset(s);
      var j :| 0 <= j < |s| && s[j] == p;
      assert i <= j;
      if i < j {
        assert Sorting.SortedBy(s, DueKey);
      }
    }
  }

  /**
   * The sorting client end to end: it completes a requirement only when that requirement is
   * incomplete, has the chosen name and is due no later than any other such requirement; it
   * completes one whenever such a requirement exists; and when one of them is due strictly
   * before all the others it is the one completed.
   */
  lemma {:induction false} SortedScriptCompletesEarliest(info: M.Response, choice: string, reply: M.Response,
                                                         logDate: string, logTime: nat)
    requires info.Info?
    ensures var reqs, effects := info.info.requirements, SortedScript(info, choice, reply, logDate, logTime);
            forall id :: Send(CompleteRequirement(id)) in effects ==>
              exists q :: q in reqs && !q.complete && q.name == choice && q.id == id
                && forall p :: p in reqs && !p.complete && p.name == choice ==> DueKey(q) <= DueKey(p)
    ensures var reqs, effects := info.info.requirements, SortedScript(info, choice, reply, logDate, logTime);
            (exists q :: q in reqs && !q.complete && q.name == choice) ==>
              exists id :: Send(CompleteRequirement(id)) in effects
    ensures var reqs, effects := info.info.requirements, SortedScript(info, choice, reply, logDate, logTime);
            forall q :: q in reqs && !q.complete && q.name == choice
              && (forall p :: p in reqs && !p.complete && p.name == choice && p != q ==> DueKey(q) < DueKey(p))
              ==> forall id :: Send(CompleteRequirement(id)) in effects <==> id == q.id
  {
    var reqs := info.info.requirements;
    var s := ByDue(reqs);
    var effects := SortedScript(info, choice, reply, logDate, logTime);
    var picked := Pick(s, choice, reply, true, logDate, logTime);
    assert effects == [Send(GetInfo)] + picked;
    assert forall id :: Send(CompleteRequirement(id)) in effects <==> Send(CompleteRequirement(id)) in picked;
    ByDueOrdered(reqs);
    forall q | q in reqs && !q.complete && q.name == choice
      ensures q in s
    {
      assert q in multiset(Offered(reqs));
    }
    if FirstNamed(s, choice).Some? {
      SortedPickIsEarliest(reqs, choice);
    }
  }
}
