/**
 * The event-sweep simulator of the server (src/simulator.rs).
 *
 * State changes are pushed with their times, sorted stably by time and replayed against two
 * ordered lock lists (locked ranges, locked requirements) and the break-timer state. The
 * answer is the state at a target time, until when it holds, and why.
 *
 * `Simulator.Run` is the loop of the source over a `Locks` class; the functions below the
 * class are its specification: `Simulate` follows the loop one change at a time, and the
 * lemmas characterise its answer in terms of `ApplyAll`, the state reached by applying a
 * prefix of the sorted changes.
 */
module Simulator {
  import opened Wrappers
  import opened Session
  import opened Time
  import Sorting

  datatype StateChangeKind =
    | BreakTimerUnlockable
    | BreakTimerLocked
    | RangeLocked(id: nat)
    | RangeUnlocked(id: nat)
    | RequirementLocked(id: nat)

  datatype StateChange = StateChange(kind: StateChangeKind, time: Timestamp)

  datatype SimulatorError = LockNotFound(id: nat) | DuplicateLock(id: nat)

  datatype SimulatorResult = SimulatorResult(targetState: CurrentState, until: Option<Timestamp>, reason: CurrentStateReason)

  /** The sort key of `run`: the time of a change. */
  function TimeKey(c: StateChange): int { c.time.secs }

  predicate Distinct(s: seq<nat>)
  {
    forall i, j :: 0 <= i < j < |s| ==> s[i] != s[j]
  }

  // ---------------------------------------------------------------------------------------
  // Lock lists

  /** `Locks::add_lock` on the list of held ids. */
  function AddLockTo(locks: seq<nat>, id: nat): (r: Result<seq<nat>, SimulatorError>)
    ensures r.Err? <==> id in locks
    ensures r.Err? ==> r.error == DuplicateLock(id)
    ensures r.Ok? ==> |r.value| == |locks| + 1 && r.value[..|locks|] == locks && r.value[|locks|] == id
    ensures r.Ok? && Distinct(locks) ==> Distinct(r.value)
  {
    if id in locks then Err(DuplicateLock(id)) else Ok(locks + [id])
  }

  /** The position of the first occurrence of `id` (`Iterator::position`). */
  function IndexOf(locks: seq<nat>, id: nat): (i: nat)
    requires id in locks
    ensures i < |locks| && locks[i] == id && id !in locks[..i]
  {
    if locks[0] == id then 0
    else
      var j := IndexOf(locks[1..], id);
      assert locks[..j + 1] == [locks[0]] + locks[1..][..j];
      j + 1
  }

  /** Removing the element at position `i` keeps every other element, once, in order. */
  lemma RemoveAt(locks: seq<nat>, i: nat)
    requires i < |locks|
    ensures multiset(locks[..i] + locks[i + 1..]) == multiset(locks) - multiset{locks[i]}
    ensures Distinct(locks) ==> Distinct(locks[..i] + locks[i + 1..]) && locks[i] !in locks[..i] + locks[i + 1..]
  {
    assert locks == locks[..i] + [locks[i]] + locks[i + 1..];
    assert multiset(locks) == multiset(locks[..i]) + multiset{locks[i]} + multiset(locks[i + 1..]);
    if Distinct(locks) {
      RemoveAtDistinct(locks, i);
    }
  }

  lemma RemoveAtDistinct(locks: seq<nat>, i: nat)
    requires i < |locks| && Distinct(locks)
    ensures Distinct(locks[..i] + locks[i + 1..]) && locks[i] !in locks[..i] + locks[i + 1..]
  {
    var rest := locks[..i] + locks[i + 1..];
    assert forall m :: 0 <= m < |rest| ==> rest[m] == locks[if m < i then m else m + 1];
    forall a, b | 0 <= a < b < |rest| ensures rest[a] != rest[b] {
      var a' := if a < i then a else a + 1;
      var b' := if b < i then b else b + 1;
      assert rest[a] == locks[a'] && rest[b] == locks[b'];
    }
    forall m | 0 <= m < |rest| ensures rest[m] != locks[i] {
      assert rest[m] == locks[if m < i then m else m + 1];
    }
  }

  /** `Locks::unlock` on the list of held ids. */
  function RemoveLock(locks: seq<nat>, id: nat): (r: Result<seq<nat>, SimulatorError>)
    ensures r.Err? <==> id !in locks
    ensures r.Err? ==> r.error == LockNotFound(id)
    ensures r.Ok? ==> multiset(r.value) == multiset(locks) - multiset{id}
    ensures r.Ok? ==> var i := IndexOf(locks, id); r.value == locks[..i] + locks[i + 1..]
    ensures r.Ok? && Distinct(locks) ==> Distinct(r.value) && id !in r.value
  {
    if id !in locks then Err(LockNotFound(id))
    else
      var i := IndexOf(locks, id);
      RemoveAt(locks, i);
      Ok(locks[..i] + locks[i + 1..])
  }

  /** `Locks::first`: the earliest-added id still held. */
  function FirstLock(locks: seq<nat>): (r: Option<nat>)
    ensures r.None? <==> locks == []
    ensures r.Some? ==> r.value == locks[0]
  {
    if locks == [] then None else Some(locks[0])
  }

  /** `Locks`: an ordered list of held ids, updated in place. */
  class Locks {
    var locks: seq<nat>

    constructor ()
      ensures locks == []
    {
      locks := [];
    }

    method AddLock(id: nat) returns (r: Outcome<SimulatorError>)
      modifies this
      ensures r.Pass? ==> AddLockTo(old(locks), id) == Ok(locks)
      ensures r.Fail? ==> AddLockTo(old(locks), id) == Err(r.error) && locks == old(locks)
    {
      var i := 0;
      while i < |locks|
        invariant 0 <= i <= |locks|
        invariant id !in locks[..i]
      {
        if locks[i] == id {
          return Fail(DuplicateLock(id));
        }
        assert locks[..i + 1] == locks[..i] + [locks[i]];
        i := i + 1;
      }
      assert locks[..i] == locks;
      locks := locks + [id];
      r := Pass;
    }

    method Unlock(id: nat) returns (r: Outcome<SimulatorError>)
      modifies this
      ensures r.Pass? ==> RemoveLock(old(locks), id) == Ok(locks)
      ensures r.Fail? ==> RemoveLock(old(locks), id) == Err(r.error) && locks == old(locks)
    {
      var index := 0;
      while index < |locks| && locks[index] != id
        invariant 0 <= index <= |locks|
        invariant id !in locks[..index]
      {
        assert locks[..index + 1] == locks[..index] + [locks[index]];
        index := index + 1;
      }
      if index == |locks| {
        assert locks[..index] == locks;
        return Fail(LockNotFound(id));
      }
      assert IndexOf(locks, id) == index;
      locks := locks[..index] + locks[index + 1..];
      r := Pass;
    }

    method IsEmpty() returns (b: bool)
      ensures b <==> locks == []
    {
      b := |locks| == 0;
    }

    method First() returns (r: Option<nat>)
      ensures r == FirstLock(locks)
    {
      r := if |locks| == 0 then None else Some(locks[0]);
    }
  }

  // ---------------------------------------------------------------------------------------
  // The sweep, as functions

  /** What the loop of `run` holds besides the answer: both lock lists and the break-timer state. */
  datatype Sweep = Sweep(ranges: seq<nat>, requirements: seq<nat>, breakTimer: CurrentState)

  const Start: Sweep := Sweep([], [], Unlocked)

  /** `Simulator::calc_state`. */
  function CalcState(ranges: seq<nat>, requirements: seq<nat>, breakTimer: CurrentState): (s: CurrentState)
    ensures ranges != [] || requirements != [] ==> s == Locked
    ensures ranges == [] && requirements == [] ==> s == breakTimer
    ensures s == Unlocked ==> breakTimer == Unlocked
  {
    if ranges == [] && requirements == [] then breakTimer else Locked
  }

  function StateOf(st: Sweep): CurrentState
  {
    CalcState(st.ranges, st.requirements, st.breakTimer)
  }

  /** One step of the loop of `run`: the effect of a change on the held locks and the timer. */
  function Apply(st: Sweep, kind: StateChangeKind): Result<Sweep, SimulatorError>
  {
    match kind
    case BreakTimerUnlockable => Ok(st.(breakTimer := Unlockable))
    case BreakTimerLocked => Ok(st.(breakTimer := Locked))
    case RangeLocked(id) =>
      (match AddLockTo(st.ranges, id)
       case Ok(l) => Ok(st.(ranges := l))
       case Err(e) => Err(e))
    case RangeUnlocked(id) =>
      (match RemoveLock(st.ranges, id)
       case Ok(l) => Ok(st.(ranges := l))
       case Err(e) => Err(e))
    case RequirementLocked(id) =>
      (match AddLockTo(st.requirements, id)
       case Ok(l) => Ok(st.(requirements := l))
       case Err(e) => Err(e))
  }

  /** `Apply` after a sweep that may already have failed: the first error is kept. */
  function Then(r: Result<Sweep, SimulatorError>, kind: StateChangeKind): Result<Sweep, SimulatorError>
  {
    match r
    case Err(e) => Err(e)
    case Ok(st) => Apply(st, kind)
  }

  /** The sweep state after applying all of `cs` in order, from the start, or the first error. */
  function ApplyAll(cs: seq<StateChange>): Result<Sweep, SimulatorError>
    decreases |cs|
  {
    if cs == [] then Ok(Start) else Then(ApplyAll(cs[..|cs| - 1]), cs[|cs| - 1].kind)
  }

  /** The session state after the first `n` changes of `cs`. */
  function StateAfter(cs: seq<StateChange>, n: nat): Result<CurrentState, SimulatorError>
    requires n <= |cs|
  {
    match ApplyAll(cs[..n])
    case Ok(st) => Ok(StateOf(st))
    case Err(e) => Err(e)
  }

  /** The reason reported for a state that ends at a change of this kind. */
  function ChangeReason(kind: StateChangeKind): CurrentStateReason
  {
    match kind
    case BreakTimerUnlockable => BreakTimer
    case BreakTimerLocked => BreakTimer
    case RangeLocked(id) => LockedTimeRange(id)
    case RangeUnlocked(id) => LockedTimeRange(id)
    case RequirementLocked(id) => RequirementNotMet(id)
  }

  /** The reason reported when no later change alters the state. */
  function SettledReason(state: CurrentState, st: Sweep): (r: CurrentStateReason)
    ensures state == Unlocked <==> r == NoConstraints
    ensures r.RequirementNotMet? ==> state == Locked && |st.requirements| > 0 && r.id == st.requirements[0]
    ensures r.LockedTimeRange? ==> state == Locked && st.requirements == [] && |st.ranges| > 0 && r.id == st.ranges[0]
    ensures r == BreakTimer ==> state == Unlockable || (st.requirements == [] && st.ranges == [])
  {
    match state
    case Unlocked => NoConstraints
    case Unlockable => BreakTimer
    case Locked =>
      match FirstLock(st.requirements)
      case Some(id) => RequirementNotMet(id)
      case None =>
        match FirstLock(st.ranges)
        case Some(id) => LockedTimeRange(id)
        case None => BreakTimer
  }

  /**
   * The loop of `run` from position `i` of the sorted changes, with the sweep state `st` and
   * the state `current` reported so far.
   */
  function SweepFrom(cs: seq<StateChange>, i: nat, st: Sweep, current: CurrentState, target: Timestamp)
    : Result<SimulatorResult, SimulatorError>
    requires i <= |cs|
    decreases |cs| - i
  {
    if i == |cs| then Ok(SimulatorResult(current, None, SettledReason(current, st)))
    else
      match Apply(st, cs[i].kind)
      case Err(e) => Err(e)
      case Ok(next) =>
        var after := StateOf(next);
        if current != after && cs[i].time.secs > target.secs then
          Ok(SimulatorResult(current, Some(cs[i].time), ChangeReason(cs[i].kind)))
        else
          SweepFrom(cs, i + 1, next, after, target)
  }

  /** `Simulator::run`: sort the changes stably by time, then sweep them. */
  function Simulate(changes: seq<StateChange>, target: Timestamp): Result<SimulatorResult, SimulatorError>
  {
    SweepFrom(Sorting.SortBy(changes, TimeKey), 0, Start, Unlocked, target)
  }

  /** The `match change.kind` of the loop of `run`: one change applied to the held locks in place. */
  method ApplyChange(lockedRanges: Locks, lockedRequirements: Locks, breakTimerState: CurrentState, kind: StateChangeKind)
    returns (newBreakTimerState: CurrentState, o: Outcome<SimulatorError>)
    requires lockedRanges != lockedRequirements
    modifies lockedRanges, lockedRequirements
    ensures match Apply(Sweep(old(lockedRanges.locks), old(lockedRequirements.locks), breakTimerState), kind)
            case Ok(st) => o.Pass? && st == Sweep(lockedRanges.locks, lockedRequirements.locks, newBreakTimerState)
            case Err(e) => o == Fail(e)
  {
    newBreakTimerState := breakTimerState;
    o := Pass;
    match kind {
      case BreakTimerUnlockable =>
        newBreakTimerState := Unlockable;
      case BreakTimerLocked =>
        newBreakTimerState := Locked;
      case RangeLocked(id) =>
        o := lockedRanges.AddLock(id);
      case RangeUnlocked(id) =>
        o := lockedRanges.Unlock(id);
      case RequirementLocked(id) =>
        o := lockedRequirements.AddLock(id);
    }
  }

  /** The simulator: a list of pushed changes. */
  class Simulator {
    var changes: seq<StateChange>

    constructor ()
      ensures changes == []
    {
      changes := [];
    }

    method Push(change: StateChange)
      modifies this
      ensures changes == old(changes) + [change]
    {
      changes := changes + [change];
    }

    method Run(targetTime: Timestamp) returns (r: Result<SimulatorResult, SimulatorError>)
      modifies this
      ensures changes == Sorting.SortBy(old(changes), TimeKey)
      ensures r == Simulate(old(changes), targetTime)
    {
      // stable sort: changes pushed earlier come first among changes with the same time
      changes := Sorting.SortBy(changes, TimeKey);
      var lockedRanges := new Locks();
      var lockedRequirements := new Locks();
      var breakTimerState := Unlocked;
      var simulatorState := Unlocked;
      var simulatorResult: Option<SimulatorResult> := None;
      var i := 0;
      while i < |changes|
        invariant changes == Sorting.SortBy(old(changes), TimeKey)
        invariant 0 <= i <= |changes|
        invariant fresh(lockedRanges) && fresh(lockedRequirements) && lockedRanges != lockedRequirements
        invariant simulatorResult.None?
        invariant SweepFrom(changes, i, Sweep(lockedRanges.locks, lockedRequirements.locks, breakTimerState),
                            simulatorState, targetTime)
                  == Simulate(old(changes), targetTime)
      {
        var change := changes[i];
        var o;
        breakTimerState, o := ApplyChange(lockedRanges, lockedRequirements, breakTimerState, change.kind);
        if o.Fail? {
          return Err(o.error);
        }
        var stateAfterChange := CalcState(lockedRanges.locks, lockedRequirements.locks, breakTimerState);
        if simulatorState != stateAfterChange {
          if change.time.secs > targetTime.secs {
            simulatorResult := Some(SimulatorResult(simulatorState, Some(change.time), ChangeReason(change.kind)));
            break;
          } else {
            simulatorState := stateAfterChange;
          }
        }
        i := i + 1;
      }
      if simulatorResult.Some? {
        r := Ok(simulatorResult.value);
      } else {
        var reason;
        match simulatorState {
          case Unlocked =>
            reason := NoConstraints;
          case Unlockable =>
            reason := BreakTimer;
          case Locked =>
            var firstRequirement := lockedRequirements.First();
            if firstRequirement.Some? {
              reason := RequirementNotMet(firstRequirement.value);
            } else {
              var firstRange := lockedRanges.First();
              reason := if firstRange.Some? then LockedTimeRange(firstRange.value) else BreakTimer;
            }
        }
        r := Ok(SimulatorResult(simulatorState, None, reason));
      }
    }
  }

  // ---------------------------------------------------------------------------------------
  // What `run` answers

  /** The changes in the order `run` replays them. */
  function SortedChanges(changes: seq<StateChange>): seq<StateChange>
  {
    Sorting.SortBy(changes, TimeKey)
  }

  /** The number of leading changes at or before `target`. */
  function CountUpTo(cs: seq<StateChange>, target: Timestamp): (k: nat)
    ensures k <= |cs|
    ensures forall m :: 0 <= m < k ==> cs[m].time.secs <= target.secs
    ensures k < |cs| ==> cs[k].time.secs > target.secs
    decreases |cs|
  {
    if cs == [] || cs[0].time.secs > target.secs then 0 else 1 + CountUpTo(cs[1..], target)
  }

  /** The state is `s` after each of the first `m` changes, for every `m` from `k` to `j`. */
  ghost predicate Steady(cs: seq<StateChange>, k: nat, j: nat, s: CurrentState)
  {
    forall m :: k <= m <= j && m <= |cs| ==> StateAfter(cs, m) == Ok(s)
  }

  /** The change at position `j` is the first from position `k` on that moves the state away from `s`. */
  ghost predicate FirstAlteringChange(cs: seq<StateChange>, k: nat, j: nat, s: CurrentState)
  {
    && k <= j < |cs|
    && Steady(cs, k, j, s)
    && StateAfter(cs, j + 1).Ok?
    && StateAfter(cs, j + 1).value != s
  }

  /** `e` is the error that a change of this kind raises. */
  predicate RaisedBy(e: SimulatorError, kind: StateChangeKind)
  {
    match e
    case DuplicateLock(id) => kind == RangeLocked(id) || kind == RequirementLocked(id)
    case LockNotFound(id) => kind == RangeUnlocked(id)
  }

  lemma ApplyAllStep(cs: seq<StateChange>, i: nat)
    requires i < |cs|
    ensures ApplyAll(cs[..i + 1]) == Then(ApplyAll(cs[..i]), cs[i].kind)
  {
    assert cs[..i + 1][..i] == cs[..i];
  }

  lemma ApplyRaises(st: Sweep, kind: StateChangeKind)
    ensures Apply(st, kind).Err? ==> RaisedBy(Apply(st, kind).error, kind)
  {
  }

  lemma {:induction false} ErrorPersists(cs: seq<StateChange>, i: nat, n: nat)
    requires i <= n <= |cs| && ApplyAll(cs[..i]).Err?
    ensures ApplyAll(cs[..n]) == ApplyAll(cs[..i])
    decreases n
  {
    if n > i {
      ErrorPersists(cs, i, n - 1);
      ApplyAllStep(cs, n - 1);
    }
  }

  /** A failed sweep failed at one change, after which the error is carried along. */
  lemma {:induction false} FirstError(cs: seq<StateChange>, n: nat) returns (j: nat)
    requires n <= |cs| && ApplyAll(cs[..n]).Err?
    ensures j < n && ApplyAll(cs[..j]).Ok? && ApplyAll(cs[..j + 1]) == ApplyAll(cs[..n])
    ensures RaisedBy(ApplyAll(cs[..n]).error, cs[j].kind)
    decreases n
  {
    assert cs[..0] == [];
    ApplyAllStep(cs, n - 1);
    if ApplyAll(cs[..n - 1]).Ok? {
      j := n - 1;
      ApplyRaises(ApplyAll(cs[..j]).value, cs[j].kind);
    } else {
      j := FirstError(cs, n - 1);
    }
  }

  /** Up to the last change at or before the target, the loop only follows the state. */
  lemma {:induction false} CatchUp(cs: seq<StateChange>, target: Timestamp, k: nat, i: nat, st: Sweep)
    requires i <= k <= |cs|
    requires forall m :: 0 <= m < k ==> cs[m].time.secs <= target.secs
    requires ApplyAll(cs[..i]) == Ok(st)
    ensures SweepFrom(cs, i, st, StateOf(st), target) ==
              match ApplyAll(cs[..k])
              case Err(e) => Err(e)
              case Ok(st') => SweepFrom(cs, k, st', StateOf(st'), target)
    decreases k - i
  {
    if i < k {
      ApplyAllStep(cs, i);
      match Apply(st, cs[i].kind)
      case Err(e) =>
        ErrorPersists(cs, i + 1, k);
      case Ok(next) =>
        CatchUp(cs, target, k, i + 1, next);
    }
  }

  /** After the target, the loop stops at the first change that alters the state. */
  lemma {:induction false} LookAhead(cs: seq<StateChange>, target: Timestamp, k: nat, i: nat, st: Sweep, s: CurrentState)
    requires k <= i <= |cs|
    requires forall m :: k <= m < |cs| ==> cs[m].time.secs > target.secs
    requires ApplyAll(cs[..i]) == Ok(st) && StateOf(st) == s
    requires Steady(cs, k, i, s)
    ensures var r := SweepFrom(cs, i, st, s, target);
            && (r.Ok? ==> r.value.targetState == s)
            && (r.Ok? && r.value.until.Some? ==>
                  exists j: nat :: FirstAlteringChange(cs, k, j, s) && r.value.until == Some(cs[j].time)
                              && r.value.reason == ChangeReason(cs[j].kind))
            && (r.Ok? && r.value.until.None? ==>
                  Steady(cs, k, |cs|, s) && ApplyAll(cs).Ok? && r.value.reason == SettledReason(s, ApplyAll(cs).value))
            && (r.Err? ==>
                  exists j: nat :: k <= j < |cs| && Steady(cs, k, j, s) && StateAfter(cs, j + 1) == Err(r.error)
                              && RaisedBy(r.error, cs[j].kind))
    decreases |cs| - i
  {
    if i == |cs| {
      assert cs[..i] == cs;
    } else {
      ApplyAllStep(cs, i);
      ApplyRaises(st, cs[i].kind);
      match Apply(st, cs[i].kind)
      case Err(e) =>
        assert StateAfter(cs, i + 1) == Err(e);
      case Ok(next) =>
        assert StateAfter(cs, i + 1) == Ok(StateOf(next));
        if s != StateOf(next) {
          assert FirstAlteringChange(cs, k, i, s);
        } else {
          LookAhead(cs, target, k, i + 1, next, s);
        }
    }
  }

  /** The loop of `run` first catches up with the target, then looks ahead from there. */
  lemma {:induction false} Phases(changes: seq<StateChange>, target: Timestamp)
    ensures var cs := SortedChanges(changes);
            var k := CountUpTo(cs, target);
            && (forall m :: k <= m < |cs| ==> cs[m].time.secs > target.secs)
            && Simulate(changes, target) ==
                 match ApplyAll(cs[..k])
                 case Err(e) => Err(e)
                 case Ok(st) => SweepFrom(cs, k, st, StateOf(st), target)
  {
    var cs := SortedChanges(changes);
    var k := CountUpTo(cs, target);
    Sorting.SortBySorted(changes, TimeKey);
    forall m | k <= m < |cs| ensures cs[m].time.secs > target.secs {
      assert TimeKey(cs[k]) <= TimeKey(cs[m]);
    }
    assert cs[..0] == [];
    CatchUp(cs, target, k, 0, Start);
  }

  /**
   * The reported state is the state after applying exactly the changes at or before the
   * target time (a prefix of the stably sorted changes); an error raised among them is returned.
   */
  lemma SimulateTargetState(changes: seq<StateChange>, target: Timestamp)
    ensures var cs := SortedChanges(changes);
            var k := CountUpTo(cs, target);
            var r := Simulate(changes, target);
            && (forall m :: 0 <= m < k ==> cs[m].time.secs <= target.secs)
            && (forall m :: k <= m < |cs| ==> cs[m].time.secs > target.secs)
            && (r.Ok? ==> StateAfter(cs, k) == Ok(r.value.targetState))
            && (StateAfter(cs, k).Err? ==> r == Err(StateAfter(cs, k).error))
  {
    var cs := SortedChanges(changes);
    var k := CountUpTo(cs, target);
    Phases(changes, target);
    if ApplyAll(cs[..k]).Ok? {
      var st := ApplyAll(cs[..k]).value;
      LookAhead(cs, target, k, k, st, StateOf(st));
    }
  }

  /**
   * When `until` is reported it is the time of the first change after the target that alters
   * the state, so it lies after the target; the reason comes from that change's kind.
   */
  lemma SimulateUntil(changes: seq<StateChange>, target: Timestamp)
    ensures var cs := SortedChanges(changes);
            var r := Simulate(changes, target);
            r.Ok? && r.value.until.Some? ==>
              && r.value.until.value.secs > target.secs
              && exists j: nat :: FirstAlteringChange(cs, CountUpTo(cs, target), j, r.value.targetState)
                                  && r.value.until == Some(cs[j].time) && r.value.reason == ChangeReason(cs[j].kind)
  {
    var cs := SortedChanges(changes);
    var k := CountUpTo(cs, target);
    Phases(changes, target);
    if ApplyAll(cs[..k]).Ok? {
      var st := ApplyAll(cs[..k]).value;
      LookAhead(cs, target, k, k, st, StateOf(st));
    }
  }

  /**
   * Without `until`, no later change alters the state, and the reason depends on the final
   * state: no constraints, the break timer, or the earliest-held requirement, else range.
   */
  lemma SimulateSettled(changes: seq<StateChange>, target: Timestamp)
    ensures var cs := SortedChanges(changes);
            var r := Simulate(changes, target);
            r.Ok? && r.value.until.None? ==>
              && Steady(cs, CountUpTo(cs, target), |cs|, r.value.targetState)
              && ApplyAll(cs).Ok?
              && r.value.reason == SettledReason(r.value.targetState, ApplyAll(cs).value)
  {
    var cs := SortedChanges(changes);
    var k := CountUpTo(cs, target);
    Phases(changes, target);
    if ApplyAll(cs[..k]).Ok? {
      var st := ApplyAll(cs[..k]).value;
      LookAhead(cs, target, k, k, st, StateOf(st));
    }
  }

  /** An error is the one raised by some change: a duplicate lock or an unlock of a range not held. */
  lemma SimulateError(changes: seq<StateChange>, target: Timestamp)
    ensures var cs := SortedChanges(changes);
            var r := Simulate(changes, target);
            r.Err? ==>
              exists j: nat :: j < |cs| && StateAfter(cs, j).Ok? && StateAfter(cs, j + 1) == Err(r.error)
                               && RaisedBy(r.error, cs[j].kind)
  {
    var cs := SortedChanges(changes);
    var k := CountUpTo(cs, target);
    Phases(changes, target);
    var r := Simulate(changes, target);
    if ApplyAll(cs[..k]).Err? {
      var j := FirstError(cs, k);
      assert StateAfter(cs, j).Ok? && StateAfter(cs, j + 1) == Err(r.error);
    } else {
      var st := ApplyAll(cs[..k]).value;
      LookAhead(cs, target, k, k, st, StateOf(st));
      if r.Err? {
        var j: nat :| k <= j < |cs| && Steady(cs, k, j, StateOf(st)) && StateAfter(cs, j + 1) == Err(r.error)
                      && RaisedBy(r.error, cs[j].kind);
        assert StateAfter(cs, j) == Ok(StateOf(st));
      }
    }
  }

  /** A requirement lock, once taken, is held for the rest of a successful sweep. */
  lemma {:induction false} RequirementLockHeld(cs: seq<StateChange>, j: nat, n: nat)
    requires j < n <= |cs| && cs[j].kind.RequirementLocked? && ApplyAll(cs[..n]).Ok?
    ensures cs[j].kind.id in ApplyAll(cs[..n]).value.requirements
    decreases n
  {
    ApplyAllStep(cs, n - 1);
    var before := ApplyAll(cs[..n - 1]).value;
    var after := ApplyAll(cs[..n]).value;
    if n - 1 > j {
      RequirementLockHeld(cs, j, n - 1);
      if cs[n - 1].kind.RequirementLocked? {
        assert after.requirements[..|before.requirements|] == before.requirements;
      }
    } else {
      assert after.requirements[|before.requirements|] == cs[j].kind.id;
    }
  }

  /** One change that is not an unlock of range `id` leaves a held range `id` held. */
  lemma RangeStepKeeps(before: Sweep, kind: StateChangeKind, id: nat)
    requires id in before.ranges && kind != RangeUnlocked(id) && Apply(before, kind).Ok?
    ensures id in Apply(before, kind).value.ranges
  {
    var after := Apply(before, kind).value;
    match kind
    case RangeLocked(_) =>
      assert after.ranges[..|before.ranges|] == before.ranges;
    case RangeUnlocked(other) =>
      assert id in multiset(before.ranges) - multiset{other};
      assert id in multiset(after.ranges);
    case _ =>
  }

  /** A range lock is held until an unlock of that same range. */
  lemma {:induction false} RangeLockHeld(cs: seq<StateChange>, j: nat, n: nat)
    requires j < n <= |cs| && cs[j].kind.RangeLocked? && ApplyAll(cs[..n]).Ok?
    requires forall m :: j < m < n ==> cs[m].kind != RangeUnlocked(cs[j].kind.id)
    ensures cs[j].kind.id in ApplyAll(cs[..n]).value.ranges
    decreases n
  {
    ApplyAllStep(cs, n - 1);
    var before := ApplyAll(cs[..n - 1]).value;
    if n - 1 > j {
      RangeLockHeld(cs, j, n - 1);
      RangeStepKeeps(before, cs[n - 1].kind, cs[j].kind.id);
    } else {
      assert Apply(before, cs[j].kind).value.ranges[|before.ranges|] == cs[j].kind.id;
    }
  }

  lemma InSorted(changes: seq<StateChange>, c: StateChange) returns (j: nat)
    requires c in changes
    ensures j < |SortedChanges(changes)| && SortedChanges(changes)[j] == c
  {
    var cs := SortedChanges(changes);
    assert c in multiset(changes);
    assert c in multiset(cs);
    j :| 0 <= j < |cs| && cs[j] == c;
  }

  /** A requirement lock due at or before the target time makes the reported state Locked. */
  lemma DueRequirementLocks(changes: seq<StateChange>, target: Timestamp, c: StateChange)
    requires c in changes && c.kind.RequirementLocked? && c.time.secs <= target.secs
    requires Simulate(changes, target).Ok?
    ensures Simulate(changes, target).value.targetState == Locked
  {
    var cs := SortedChanges(changes);
    var k := CountUpTo(cs, target);
    SimulateTargetState(changes, target);
    var j := InSorted(changes, c);
    assert j < k;
    RequirementLockHeld(cs, j, k);
  }

  /**
   * A range locked at or before the target time and not unlocked at or before it makes the
   * reported state Locked.
   */
  lemma ActiveRangeLocks(changes: seq<StateChange>, target: Timestamp, c: StateChange)
    requires c in changes && c.kind.RangeLocked? && c.time.secs <= target.secs
    requires forall d :: d in changes && d.kind == RangeUnlocked(c.kind.id) ==> d.time.secs > target.secs
    requires Simulate(changes, target).Ok?
    ensures Simulate(changes, target).value.targetState == Locked
  {
    var cs := SortedChanges(changes);
    var k := CountUpTo(cs, target);
    SimulateTargetState(changes, target);
    var j := InSorted(changes, c);
    assert j < k;
    forall m | j < m < k ensures cs[m].kind != RangeUnlocked(c.kind.id) {
      assert cs[m] in multiset(changes);
    }
    RangeLockHeld(cs, j, k);
  }
}
