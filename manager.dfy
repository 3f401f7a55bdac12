/*
 * The manager layer of the server: the break-timer state machine, the translation of
 * requirements, locked time ranges and the break timer into simulator events, requirement
 * completion, the id generator, and the manager that answers the client requests.
 *
 * Every class is paired with value-level functions that say what its methods compute; the
 * lemmas at the end of each part are stated about those functions.
 */
module Manager {
  import opened Wrappers
  import opened Time
  import S = Session
  import Sim = Simulator
  import Sorting
  import Text

  datatype Requirement = Requirement(id: nat, name: string, due: Timestamp, complete: bool)

  datatype TimeRange = TimeRange(id: nat, start: Option<Timestamp>, end: Option<Timestamp>)

  /** The break timer: working until `until`, on a break until `until`, or waiting to be unlocked. */
  datatype BreakTimer = Unlocked(until: Timestamp) | Locked(until: Timestamp) | Unlockable

  datatype CurrentInfo = CurrentInfo(
    state: S.CurrentState,
    until: Option<Timestamp>,
    reason: S.CurrentStateReason,
    lockedTimeRanges: seq<TimeRange>,
    requirements: seq<Requirement>)

  datatype Response = Success | Error(msg: string) | Info(info: CurrentInfo)

  /** The one kind of request-handling error the manager itself produces. */
  datatype ClientHandlingError = SimulatorError(error: Sim.SimulatorError)

  /** A requirement of the daily configuration: a name and a time of day it is due by. */
  datatype RequirementConfig = RequirementConfig(name: string, due: HourMinute)

  /** A daily locked time range; a missing bound is open. */
  datatype LockedTimeRangeConfig = LockedTimeRangeConfig(start: Option<HourMinute>, end: Option<HourMinute>)

  datatype ManagerConfig = ManagerConfig(
    requirements: seq<RequirementConfig>,
    lockedTimeRanges: seq<LockedTimeRangeConfig>,
    workPeriodDuration: Duration,
    breakDuration: Duration)

  // ---------------------------------------------------------------------------------------
  // Break timer

  /**
   * `refresh`: an expired work period turns into a break that ends `breakDuration` after the
   * work period ended, and an expired break makes the timer unlockable; both can happen at once.
   */
  function Refreshed(timer: BreakTimer, now: Timestamp, breakDuration: Duration): (r: BreakTimer)
    ensures !r.Unlockable? ==> r.until.secs > now.secs
    ensures r == timer || r.Unlockable? || (timer.Unlocked? && r == Locked(Add(timer.until, breakDuration)))
    ensures timer.Unlockable? ==> r.Unlockable?
    ensures !timer.Unlockable? && timer.until.secs > now.secs ==> r == timer
  {
    var afterWork :=
      if timer.Unlocked? && now.secs >= timer.until.secs then Locked(Add(timer.until, breakDuration)) else timer;
    if afterWork.Locked? && now.secs >= afterWork.until.secs then Unlockable else afterWork
  }

  /** `unlock`: the timer afterwards, and whether it succeeded. */
  function UnlockStep(timer: BreakTimer, now: Timestamp, workPeriod: Duration, breakDuration: Duration)
    : (r: (BreakTimer, Outcome<string>))
    ensures var t := Refreshed(timer, now, breakDuration);
            && (r.1.Pass? <==> t.Unlockable?)
            && (r.1.Pass? ==> r.0 == Unlocked(Add(now, workPeriod)))
            && (r.1.Fail? ==> r.0 == t)
            && (t.Locked? ==> r.1 == Fail("Break timer is locked."))
            && (t.Unlocked? ==> r.1 == Fail("Break timer is already unlocked."))
  {
    var t := Refreshed(timer, now, breakDuration);
    match t
    case Unlockable => (Unlocked(Add(now, workPeriod)), Pass)
    case Locked(_) => (t, Fail("Break timer is locked."))
    case Unlocked(_) => (t, Fail("Break timer is already unlocked."))
  }

  /** `lock`: the timer afterwards, and whether it succeeded. */
  function LockStep(timer: BreakTimer, now: Timestamp, breakDuration: Duration): (r: (BreakTimer, Outcome<string>))
    ensures var t := Refreshed(timer, now, breakDuration);
            && (r.1.Pass? <==> t.Unlocked?)
            && (r.1.Pass? ==> r.0 == Locked(Add(now, breakDuration)))
            && (r.1.Fail? ==> r.0 == t && r.1 == Fail("Break timer is not unlocked."))
  {
    var t := Refreshed(timer, now, breakDuration);
    if t.Unlocked? then (Locked(Add(now, breakDuration)), Pass) else (t, Fail("Break timer is not unlocked."))
  }

  /** `lock_if_unlocked`: afterwards the timer is never in a work period. */
  function LockedIfUnlocked(timer: BreakTimer, now: Timestamp, breakDuration: Duration): (r: BreakTimer)
    ensures !r.Unlocked?
    ensures Refreshed(timer, now, breakDuration).Unlocked? ==> r == Locked(Add(now, breakDuration))
    ensures !Refreshed(timer, now, breakDuration).Unlocked? ==> r == Refreshed(timer, now, breakDuration)
  {
    LockStep(timer, now, breakDuration).0
  }

  /** Refreshing twice at the same time changes nothing the second time. */
  lemma RefreshIdempotent(timer: BreakTimer, now: Timestamp, breakDuration: Duration)
    ensures Refreshed(Refreshed(timer, now, breakDuration), now, breakDuration) == Refreshed(timer, now, breakDuration)
  {
  }

  /** With a positive work period, a timer just unlocked can be locked at once. */
  lemma UnlockThenLock(timer: BreakTimer, now: Timestamp, workPeriod: Duration, breakDuration: Duration)
    requires workPeriod.secs > 0
    requires UnlockStep(timer, now, workPeriod, breakDuration).1.Pass?
    ensures LockStep(UnlockStep(timer, now, workPeriod, breakDuration).0, now, breakDuration)
            == (Locked(Add(now, breakDuration)), Pass)
  {
  }

  /** A second unlock at the same time is refused while the work period runs. */
  lemma UnlockTwice(timer: BreakTimer, now: Timestamp, workPeriod: Duration, breakDuration: Duration)
    requires workPeriod.secs > 0
    requires UnlockStep(timer, now, workPeriod, breakDuration).1.Pass?
    ensures UnlockStep(UnlockStep(timer, now, workPeriod, breakDuration).0, now, workPeriod, breakDuration).1
            == Fail("Break timer is already unlocked.")
  {
  }

  /**
   * A work period that ended at `until` becomes a break that ends at `until + breakDuration`,
   * and from then on the timer is unlockable.
   */
  lemma WorkPeriodExpiry(until: Timestamp, now: Timestamp, breakDuration: Duration)
    requires now.secs >= until.secs
    ensures now.secs < until.secs + breakDuration.secs ==>
              Refreshed(Unlocked(until), now, breakDuration) == Locked(Add(until, breakDuration))
    ensures now.secs >= until.secs + breakDuration.secs ==> Refreshed(Unlocked(until), now, breakDuration) == Unlockable
  {
  }

  class BreakTimerManager {
    var timer: BreakTimer
    const workPeriodDuration: Duration
    const breakDuration: Duration

    constructor (workPeriodDuration: Duration, breakDuration: Duration)
      ensures timer == Unlockable
      ensures this.workPeriodDuration == workPeriodDuration && this.breakDuration == breakDuration
    {
      timer := Unlockable;
      this.workPeriodDuration := workPeriodDuration;
      this.breakDuration := breakDuration;
    }

    method Unlock(now: Timestamp) returns (o: Outcome<string>)
      modifies this
      ensures (timer, o) == UnlockStep(old(timer), now, workPeriodDuration, breakDuration)
    {
      Refresh(now);
      match timer
      case Unlockable =>
        timer := Unlocked(Add(now, workPeriodDuration));
        o := Pass;
      case Locked(_) =>
        o := Fail("Break timer is locked.");
      case Unlocked(_) =>
        o := Fail("Break timer is already unlocked.");
    }

    method Lock(now: Timestamp) returns (o: Outcome<string>)
      modifies this
      ensures (timer, o) == LockStep(old(timer), now, breakDuration)
    {
      Refresh(now);
      if timer.Unlocked? {
        timer := Locked(Add(now, breakDuration));
        o := Pass;
      } else {
        o := Fail("Break timer is not unlocked.");
      }
    }

    method Refresh(now: Timestamp)
      modifies this
      ensures timer == Refreshed(old(timer), now, breakDuration)
    {
      if timer.Unlocked? && now.secs >= timer.until.secs {
        timer := Locked(Add(timer.until, breakDuration));
      }
      if timer.Locked? && now.secs >= timer.until.secs {
        timer := Unlockable;
      }
    }

    method LockIfUnlocked(now: Timestamp)
      modifies this
      ensures timer == LockedIfUnlocked(old(timer), now, breakDuration)
    {
      var _ := Lock(now);
    }
  }

  // ---------------------------------------------------------------------------------------
  // Events handed to the simulator

  function RequirementLock(q: Requirement): Sim.StateChange
  {
    Sim.StateChange(Sim.RequirementLocked(q.id), q.due)
  }

  /** A range without a start is locked from time zero. */
  function RangeStart(g: TimeRange): Timestamp
  {
    if g.start.Some? then g.start.value else Zero
  }

  /** A range locks at its start and, only when it has an end, unlocks there. */
  function RangeChanges(g: TimeRange): seq<Sim.StateChange>
  {
    [Sim.StateChange(Sim.RangeLocked(g.id), RangeStart(g))]
    + (if g.end.Some? then [Sim.StateChange(Sim.RangeUnlocked(g.id), g.end.value)] else [])
  }

  /** Only incomplete requirements become locks, each at its due time. */
  function RequirementEvents(reqs: seq<Requirement>): seq<Sim.StateChange>
    decreases |reqs|
  {
    if reqs == [] then []
    else
      var prefix, last := reqs[..|reqs| - 1], reqs[|reqs| - 1];
      RequirementEvents(prefix) + (if last.complete then [] else [RequirementLock(last)])
  }

  lemma {:induction false} RequirementEventsMembers(reqs: seq<Requirement>)
    ensures forall c :: c in RequirementEvents(reqs) <==> exists q :: q in reqs && !q.complete && c == RequirementLock(q)
    decreases |reqs|
  {
    if reqs != [] {
      var prefix, last := reqs[..|reqs| - 1], reqs[|reqs| - 1];
      assert reqs == prefix + [last];
      RequirementEventsMembers(prefix);
    }
  }

  /** The lock and unlock changes of every range, range by range. */
  function RangeEvents(ranges: seq<TimeRange>): seq<Sim.StateChange>
    decreases |ranges|
  {
    if ranges == [] then []
    else RangeEvents(ranges[..|ranges| - 1]) + RangeChanges(ranges[|ranges| - 1])
  }

  lemma {:induction false} RangeEventsMembers(ranges: seq<TimeRange>)
    ensures forall c :: c in RangeEvents(ranges) <==> exists g :: g in ranges && c in RangeChanges(g)
    decreases |ranges|
  {
    if ranges != [] {
      var prefix, last := ranges[..|ranges| - 1], ranges[|ranges| - 1];
      assert ranges == prefix + [last];
      RangeEventsMembers(prefix);
    }
  }

  /** The break timer's changes: the end of a work period, or a break from time zero to its end. */
  function TimerEvents(timer: BreakTimer): seq<Sim.StateChange>
  {
    match timer
    case Unlocked(until) => [Sim.StateChange(Sim.BreakTimerLocked, until)]
    case Locked(until) =>
      [Sim.StateChange(Sim.BreakTimerLocked, Zero), Sim.StateChange(Sim.BreakTimerUnlockable, until)]
    case Unlockable => [Sim.StateChange(Sim.BreakTimerUnlockable, Zero)]
  }

  /** Requirements first, then ranges, then the break timer. */
  function Events(reqs: seq<Requirement>, ranges: seq<TimeRange>, timer: BreakTimer): seq<Sim.StateChange>
  {
    RequirementEvents(reqs) + RangeEvents(ranges) + TimerEvents(timer)
  }

  /** The priority of a change among changes at the same time (smaller is reported first). */
  function KindRank(c: Sim.StateChange): int
  {
    match c.kind
    case RequirementLocked(_) => 0
    case RangeLocked(_) => 1
    case RangeUnlocked(_) => 1
    case BreakTimerLocked => 2
    case BreakTimerUnlockable => 2
  }

  /** The simulator's answer as the information sent to clients. */
  function ToInfo(result: Result<Sim.SimulatorResult, Sim.SimulatorError>, reqs: seq<Requirement>, ranges: seq<TimeRange>)
    : Result<CurrentInfo, ClientHandlingError>
  {
    match result
    case Err(e) => Err(SimulatorError(e))
    case Ok(res) => Ok(CurrentInfo(res.targetState, res.until, res.reason, ranges, reqs))
  }

  /** `get_current_info` without the refresh of the break timer that precedes it. */
  function InfoAt(reqs: seq<Requirement>, ranges: seq<TimeRange>, timer: BreakTimer, now: Timestamp)
    : Result<CurrentInfo, ClientHandlingError>
  {
    ToInfo(Sim.Simulate(Events(reqs, ranges, timer), now), reqs, ranges)
  }

  lemma EventsRankSorted(reqs: seq<Requirement>, ranges: seq<TimeRange>, timer: BreakTimer)
    ensures Sorting.SortedBy(Events(reqs, ranges, timer), KindRank)
  {
    RequirementEventsMembers(reqs);
    RangeEventsMembers(ranges);
    var a, b, t := RequirementEvents(reqs), RangeEvents(ranges), TimerEvents(timer);
    var es := Events(reqs, ranges, timer);
    forall i | 0 <= i < |es| ensures KindRank(es[i]) == if i < |a| then 0 else if i < |a| + |b| then 1 else 2 {
      if i < |a| {
        assert es[i] == a[i] && a[i] in a;
      } else if i < |a| + |b| {
        assert es[i] == b[i - |a|] && b[i - |a|] in b;
      } else {
        assert es[i] == t[i - |a| - |b|];
      }
    }
  }

  /**
   * Among changes at the same time, the sorted events put requirements before ranges and
   * ranges before the break timer, so the reason reported for a tie favours them in that order.
   */
  lemma EventPriority(reqs: seq<Requirement>, ranges: seq<TimeRange>, timer: BreakTimer)
    ensures Sorting.TiesRanked(Sim.SortedChanges(Events(reqs, ranges, timer)), Sim.TimeKey, KindRank)
  {
    EventsRankSorted(reqs, ranges, timer);
    Sorting.SortByKeepsRankOnTies(Events(reqs, ranges, timer), Sim.TimeKey, KindRank);
  }

  /** An incomplete requirement due at or before `now` makes the state Locked. */
  lemma DueRequirementLocked(reqs: seq<Requirement>, ranges: seq<TimeRange>, timer: BreakTimer, now: Timestamp, q: Requirement)
    requires q in reqs && !q.complete && q.due.secs <= now.secs
    requires InfoAt(reqs, ranges, timer, now).Ok?
    ensures InfoAt(reqs, ranges, timer, now).value.state == S.Locked
  {
    RequirementEventsMembers(reqs);
    assert RequirementLock(q) in RequirementEvents(reqs);
    Sim.DueRequirementLocks(Events(reqs, ranges, timer), now, RequirementLock(q));
  }

  /**
   * A range whose start (time zero when it has none) is at or before `now` and whose end, if
   * any, is after `now` makes the state Locked, provided no other range shares its id.
   */
  lemma OpenRangeLocked(reqs: seq<Requirement>, ranges: seq<TimeRange>, timer: BreakTimer, now: Timestamp, g: TimeRange)
    requires g in ranges && RangeStart(g).secs <= now.secs && (g.end.None? || g.end.value.secs > now.secs)
    requires forall h :: h in ranges && h.id == g.id ==> h == g
    requires InfoAt(reqs, ranges, timer, now).Ok?
    ensures InfoAt(reqs, ranges, timer, now).value.state == S.Locked
  {
    RequirementEventsMembers(reqs);
    RangeEventsMembers(ranges);
    var es := Events(reqs, ranges, timer);
    var lock := Sim.StateChange(Sim.RangeLocked(g.id), RangeStart(g));
    assert lock in RangeChanges(g);
    assert lock in es;
    forall d | d in es && d.kind == Sim.RangeUnlocked(g.id) ensures d.time.secs > now.secs {
      if d in RequirementEvents(reqs) {
        assert false;
      } else if d in TimerEvents(timer) {
        assert false;
      } else {
        assert d in RangeEvents(ranges);
        var h :| h in ranges && d in RangeChanges(h);
        assert h == g;
      }
    }
    Sim.ActiveRangeLocks(es, now, lock);
  }

  lemma WorkPeriodOnly(until: Timestamp, now: Timestamp)
    requires until.secs > now.secs
    ensures InfoAt([], [], Unlocked(until), now) == Ok(CurrentInfo(S.Unlocked, Some(until), S.BreakTimer, [], []))
  {
    var es := Events([], [], Unlocked(until));
    assert es == [Sim.StateChange(Sim.BreakTimerLocked, until)];
    assert Sim.SortedChanges(es) == es;
  }

  lemma BreakOnly(until: Timestamp, now: Timestamp)
    requires now.secs >= 0 && until.secs > now.secs
    ensures InfoAt([], [], Locked(until), now) == Ok(CurrentInfo(S.Locked, Some(until), S.BreakTimer, [], []))
  {
    var es := Events([], [], Locked(until));
    assert es == [Sim.StateChange(Sim.BreakTimerLocked, Zero), Sim.StateChange(Sim.BreakTimerUnlockable, until)];
    assert Sim.SortedChanges(es) == es by {
      assert Sim.SortedChanges(es[1..]) == es[1..];
    }
    var st := Sim.Sweep([], [], S.Locked);
    assert Sim.SweepFrom(es, 1, st, S.Locked, now) == Ok(Sim.SimulatorResult(S.Locked, Some(until), S.BreakTimer));
  }

  lemma UnlockableOnly(now: Timestamp)
    requires now.secs >= 0
    ensures InfoAt([], [], Unlockable, now) == Ok(CurrentInfo(S.Unlockable, None, S.BreakTimer, [], []))
  {
    var es := Events([], [], Unlockable);
    assert es == [Sim.StateChange(Sim.BreakTimerUnlockable, Zero)];
    assert Sim.SortedChanges(es) == es;
    var st := Sim.Sweep([], [], S.Unlockable);
    assert Sim.SweepFrom(es, 1, st, S.Unlockable, now) == Ok(Sim.SimulatorResult(S.Unlockable, None, S.BreakTimer));
  }

  /**
   * Without requirements or ranges, the state is the refreshed break timer's own, until the
   * end of its work period or break.
   */
  lemma TimerOnlyInfo(timer: BreakTimer, now: Timestamp)
    requires now.secs >= 0
    requires !timer.Unlockable? ==> timer.until.secs > now.secs
    ensures InfoAt([], [], timer, now) ==
              match timer
              case Unlocked(until) => Ok(CurrentInfo(S.Unlocked, Some(until), S.BreakTimer, [], []))
              case Locked(until) => Ok(CurrentInfo(S.Locked, Some(until), S.BreakTimer, [], []))
              case Unlockable => Ok(CurrentInfo(S.Unlockable, None, S.BreakTimer, [], []))
  {
    match timer
    case Unlocked(until) => WorkPeriodOnly(until, now);
    case Locked(until) => BreakOnly(until, now);
    case Unlockable => UnlockableOnly(now);
  }

  // ---------------------------------------------------------------------------------------
  // Completing a requirement

  /** The position of the first requirement with this id. */
  function FirstWithId(reqs: seq<Requirement>, id: nat): (r: Option<nat>)
    ensures r.Some? ==> r.value < |reqs| && reqs[r.value].id == id
    ensures r.Some? ==> forall j :: 0 <= j < r.value ==> reqs[j].id != id
    ensures r.None? ==> forall j :: 0 <= j < |reqs| ==> reqs[j].id != id
    decreases |reqs|
  {
    if reqs == [] then None
    else if reqs[0].id == id then Some(0)
    else
      match FirstWithId(reqs[1..], id)
      case None => None
      case Some(i) => Some(i + 1)
  }

  function NotFoundMessage(id: nat): string
  {
    "Requirement " + Text.Decimal(id) + " not found."
  }

  function AlreadyCompletedMessage(id: nat): string
  {
    "Requirement " + Text.Decimal(id) + " has already been completed."
  }

  /**
   * `complete_requirement`: the first requirement with the id is marked complete and nothing
   * else changes; the list is unchanged when it was already complete or no id matches.
   */
  function CompleteIn(reqs: seq<Requirement>, id: nat): (r: (seq<Requirement>, Outcome<string>))
    ensures r.1.Fail? ==> r.0 == reqs
    ensures (forall q :: q in reqs ==> q.id != id) <==> r.1 == Fail(NotFoundMessage(id))
    ensures r.1 == Fail(AlreadyCompletedMessage(id)) <==>
              exists i :: 0 <= i < |reqs| && reqs[i].id == id && reqs[i].complete
                          && forall j :: 0 <= j < i ==> reqs[j].id != id
    ensures r.1.Pass? <==>
              exists i :: 0 <= i < |reqs| && reqs[i].id == id && !reqs[i].complete
                          && (forall j :: 0 <= j < i ==> reqs[j].id != id)
                          && r.0 == reqs[i := reqs[i].(complete := true)]
  {
    assert |NotFoundMessage(id)| < |AlreadyCompletedMessage(id)|;
    match FirstWithId(reqs, id)
    case None => (reqs, Fail(NotFoundMessage(id)))
    case Some(i) =>
      if reqs[i].complete then (reqs, Fail(AlreadyCompletedMessage(id)))
      else (reqs[i := reqs[i].(complete := true)], Pass)
  }

  method PushRequirements(simulator: Sim.Simulator, reqs: seq<Requirement>)
    modifies simulator
    ensures simulator.changes == old(simulator.changes) + RequirementEvents(reqs)
  {
    for i := 0 to |reqs|
      invariant simulator.changes == old(simulator.changes) + RequirementEvents(reqs[..i])
    {
      assert reqs[..i + 1][..i] == reqs[..i];
      if !reqs[i].complete {
        simulator.Push(Sim.StateChange(Sim.RequirementLocked(reqs[i].id), reqs[i].due));
      }
    }
    assert reqs[..|reqs|] == reqs;
  }

  method PushRanges(simulator: Sim.Simulator, ranges: seq<TimeRange>)
    modifies simulator
    ensures simulator.changes == old(simulator.changes) + RangeEvents(ranges)
  {
    for i := 0 to |ranges|
      invariant simulator.changes == old(simulator.changes) + RangeEvents(ranges[..i])
    {
      assert ranges[..i + 1][..i] == ranges[..i];
      var g := ranges[i];
      simulator.Push(Sim.StateChange(Sim.RangeLocked(g.id), if g.start.Some? then g.start.value else Zero));
      if g.end.Some? {
        simulator.Push(Sim.StateChange(Sim.RangeUnlocked(g.id), g.end.value));
      }
    }
    assert ranges[..|ranges|] == ranges;
  }

  method PushTimer(simulator: Sim.Simulator, timer: BreakTimer)
    modifies simulator
    ensures simulator.changes == old(simulator.changes) + TimerEvents(timer)
  {
    match timer {
      case Unlocked(until) =>
        simulator.Push(Sim.StateChange(Sim.BreakTimerLocked, until));
      case Locked(until) =>
        simulator.Push(Sim.StateChange(Sim.BreakTimerLocked, Zero));
        simulator.Push(Sim.StateChange(Sim.BreakTimerUnlockable, until));
      case Unlockable =>
        simulator.Push(Sim.StateChange(Sim.BreakTimerUnlockable, Zero));
    }
  }

  class Constraints {
    const breakTimer: BreakTimerManager
    var requirements: seq<Requirement>
    var lockedTimeRanges: seq<TimeRange>

    constructor (breakTimer: BreakTimerManager)
      ensures this.breakTimer == breakTimer && requirements == [] && lockedTimeRanges == []
    {
      this.breakTimer := breakTimer;
      requirements := [];
      lockedTimeRanges := [];
    }

    method GetCurrentInfo(now: Timestamp) returns (r: Result<CurrentInfo, ClientHandlingError>)
      modifies breakTimer
      ensures breakTimer.timer == Refreshed(old(breakTimer.timer), now, breakTimer.breakDuration)
      ensures r == InfoAt(requirements, lockedTimeRanges, breakTimer.timer, now)
    {
      breakTimer.Refresh(now);
      var simulator := new Sim.Simulator();
      // requirements, then ranges, then the break timer: ties are reported in that priority
      PushRequirements(simulator, requirements);
      PushRanges(simulator, lockedTimeRanges);
      PushTimer(simulator, breakTimer.timer);
      assert simulator.changes == Events(requirements, lockedTimeRanges, breakTimer.timer);
      var result := simulator.Run(now);
      r := ToInfo(result, requirements, lockedTimeRanges);
    }

    method CompleteRequirement(id: nat) returns (o: Outcome<string>)
      modifies this
      ensures (requirements, o) == CompleteIn(old(requirements), id)
      ensures lockedTimeRanges == old(lockedTimeRanges)
    {
      for i := 0 to |requirements|
        invariant requirements == old(requirements)
        invariant forall j :: 0 <= j < i ==> requirements[j].id != id
      {
        if requirements[i].id == id {
          assert FirstWithId(requirements, id) == Some(i);
          if !requirements[i].complete {
            requirements := requirements[i := requirements[i].(complete := true)];
            return Pass;
          } else {
            return Fail(AlreadyCompletedMessage(id));
          }
        }
      }
      return Fail(NotFoundMessage(id));
    }
  }

  class IdGenerator {
    var lastId: nat

    constructor ()
      ensures lastId == 0
    {
      lastId := 0;
    }

    /** Ids 1, 2, 3, ...: each is larger than every id handed out before. */
    method NextId() returns (id: nat)
      modifies this
      ensures id == old(lastId) + 1 && lastId == id
    {
      lastId := lastId + 1;
      id := lastId;
    }
  }

  // ---------------------------------------------------------------------------------------
  // The manager

  /**
   * How the information at a time is computed from the day's constraints and the refreshed
   * timer. The manager uses `InfoAt`; the specifications below hold for any such computation.
   */
  type InfoSource = (seq<Requirement>, seq<TimeRange>, BreakTimer, Timestamp) -> Result<CurrentInfo, ClientHandlingError>

  /** The manager's state as values: the timer, the day's constraints, the date, the id counter, the process. */
  datatype Snapshot = Snapshot(
    timer: BreakTimer,
    requirements: seq<Requirement>,
    lockedTimeRanges: seq<TimeRange>,
    currentDate: Date,
    lastId: nat,
    running: bool)

  /** The day's requirements built from the configuration, with ids from `firstId` on. */
  function DayRequirements(cfgs: seq<RequirementConfig>, date: Date, firstId: nat): seq<Requirement>
    decreases |cfgs|
  {
    if cfgs == [] then []
    else
      var c := cfgs[|cfgs| - 1];
      DayRequirements(cfgs[..|cfgs| - 1], date, firstId) + [Requirement(firstId + |cfgs| - 1, c.name, FromDateHm(date, c.due), false)]
  }

  /** The day's locked time ranges built from the configuration, with ids from `firstId` on. */
  function DayRanges(cfgs: seq<LockedTimeRangeConfig>, date: Date, firstId: nat): seq<TimeRange>
    decreases |cfgs|
  {
    if cfgs == [] then []
    else
      var c := cfgs[|cfgs| - 1];
      DayRanges(cfgs[..|cfgs| - 1], date, firstId)
      + [TimeRange(firstId + |cfgs| - 1, FromDateHmOpt(date, c.start), FromDateHmOpt(date, c.end))]
  }

  lemma {:induction false} DayRequirementsAt(cfgs: seq<RequirementConfig>, date: Date, firstId: nat)
    ensures |DayRequirements(cfgs, date, firstId)| == |cfgs|
    ensures forall i :: 0 <= i < |cfgs| ==>
              DayRequirements(cfgs, date, firstId)[i] == Requirement(firstId + i, cfgs[i].name, FromDateHm(date, cfgs[i].due), false)
    decreases |cfgs|
  {
    if cfgs != [] {
      DayRequirementsAt(cfgs[..|cfgs| - 1], date, firstId);
    }
  }

  lemma {:induction false} DayRangesAt(cfgs: seq<LockedTimeRangeConfig>, date: Date, firstId: nat)
    ensures |DayRanges(cfgs, date, firstId)| == |cfgs|
    ensures forall i :: 0 <= i < |cfgs| ==>
              DayRanges(cfgs, date, firstId)[i]
              == TimeRange(firstId + i, FromDateHmOpt(date, cfgs[i].start), FromDateHmOpt(date, cfgs[i].end))
    decreases |cfgs|
  {
    if cfgs != [] {
      DayRangesAt(cfgs[..|cfgs| - 1], date, firstId);
    }
  }

  /** The date check of `refresh`: on a new date the day's constraints are rebuilt (`new_day`). */
  function Rollover(s: Snapshot, config: ManagerConfig, now: Timestamp): Snapshot
  {
    var date := GetDate(now);
    if date == s.currentDate then s
    else
      var n := |config.requirements|;
      s.(currentDate := date,
         requirements := DayRequirements(config.requirements, date, s.lastId + 1),
         lockedTimeRanges := DayRanges(config.lockedTimeRanges, date, s.lastId + n + 1),
         lastId := s.lastId + n + |config.lockedTimeRanges|)
  }

  /**
   * `refresh`: roll over the date, compute the information at `now`, then, unless it failed,
   * lock the break timer when the session should be locked and start or stop the process.
   */
  function RefreshSpec(s: Snapshot, config: ManagerConfig, now: Timestamp, compute: InfoSource): (Snapshot, Result<CurrentInfo, ClientHandlingError>)
  {
    var s1 := Rollover(s, config, now);
    var timer := Refreshed(s1.timer, now, config.breakDuration);
    var info := compute(s1.requirements, s1.lockedTimeRanges, timer, now);
    if info.Err? then (s1.(timer := timer), info)
    else
      var shouldRun := info.value.state != S.Unlocked;
      (s1.(timer := if shouldRun then LockedIfUnlocked(timer, now, config.breakDuration) else timer, running := shouldRun), info)
  }

  /** After a change that succeeded, refresh again and answer Success; otherwise answer the error. */
  function Concluded(s: Snapshot, o: Outcome<string>, config: ManagerConfig, now: Timestamp, compute: InfoSource)
    : (Snapshot, Result<Response, ClientHandlingError>)
  {
    match o
    case Pass =>
      var (s2, info) := RefreshSpec(s, config, now, compute);
      (s2, if info.Err? then Err(info.error) else Ok(Success))
    case Fail(msg) => (s, Ok(Error(msg)))
  }

  function UnlockTimerSpec(s: Snapshot, config: ManagerConfig, now: Timestamp, compute: InfoSource): (Snapshot, Result<Response, ClientHandlingError>)
  {
    var (s1, info) := RefreshSpec(s, config, now, compute);
    if info.Err? then (s1, Err(info.error))
    else if info.value.state != S.Unlockable then (s1, Ok(Error("Session is not unlockable.")))
    else
      var (timer, o) := UnlockStep(s1.timer, now, config.workPeriodDuration, config.breakDuration);
      Concluded(s1.(timer := timer), o, config, now, compute)
  }

  /** `lock_timer`; `exited` is what polling the process reports (it has terminated). */
  function LockTimerSpec(s: Snapshot, config: ManagerConfig, now: Timestamp, exited: bool, compute: InfoSource)
    : (Snapshot, Result<Response, ClientHandlingError>)
  {
    var (s1, info) := RefreshSpec(s.(running := s.running && !exited), config, now, compute);
    if info.Err? then (s1, Err(info.error))
    else
      var (timer, o) := LockStep(s1.timer, now, config.breakDuration);
      Concluded(s1.(timer := timer), o, config, now, compute)
  }

  function GetInfoSpec(s: Snapshot, config: ManagerConfig, now: Timestamp, compute: InfoSource): (Snapshot, Result<Response, ClientHandlingError>)
  {
    var (s1, info) := RefreshSpec(s, config, now, compute);
    (s1, if info.Err? then Err(info.error) else Ok(Info(info.value)))
  }

  function CompleteRequirementSpec(s: Snapshot, config: ManagerConfig, now: Timestamp, id: nat, compute: InfoSource)
    : (Snapshot, Result<Response, ClientHandlingError>)
  {
    var (s1, info) := RefreshSpec(s, config, now, compute);
    if info.Err? then (s1, Err(info.error))
    else
      var (reqs, o) := CompleteIn(s1.requirements, id);
      Concluded(s1.(requirements := reqs), o, config, now, compute)
  }

  function AddRequirementSpec(s: Snapshot, config: ManagerConfig, now: Timestamp, name: string, due: HourMinute, compute: InfoSource)
    : (Snapshot, Result<Response, ClientHandlingError>)
  {
    var (s1, info) := RefreshSpec(s, config, now, compute);
    if info.Err? then (s1, Err(info.error))
    else
      var q := Requirement(s1.lastId + 1, name, FromDateHm(s1.currentDate, due), false);
      Concluded(s1.(requirements := s1.requirements + [q], lastId := s1.lastId + 1), Pass, config, now, compute)
  }

  class DiagonatorManager {
    const config: ManagerConfig
    /** Whether the locking process is running (the source holds its process handle). */
    var running: bool
    const constraints: Constraints
    var currentDate: Date
    const idGenerator: IdGenerator

    ghost predicate Valid()
    {
      && constraints.breakTimer.workPeriodDuration == config.workPeriodDuration
      && constraints.breakTimer.breakDuration == config.breakDuration
    }

    function State(): Snapshot
      reads this, constraints, constraints.breakTimer, idGenerator
    {
      Snapshot(constraints.breakTimer.timer, constraints.requirements, constraints.lockedTimeRanges,
               currentDate, idGenerator.lastId, running)
    }

    constructor (config: ManagerConfig)
      ensures Valid() && this.config == config
      ensures State() == Snapshot(Unlockable, [], [], GetDate(Zero), 0, false)
    {
      this.config := config;
      running := false;
      var breakTimer := new BreakTimerManager(config.workPeriodDuration, config.breakDuration);
      constraints := new Constraints(breakTimer);
      currentDate := GetDate(Zero);
      idGenerator := new IdGenerator();
    }

    method UnlockTimer(now: Timestamp) returns (r: Result<Response, ClientHandlingError>)
      requires Valid()
      modifies this, constraints, constraints.breakTimer, idGenerator
      ensures (State(), r) == UnlockTimerSpec(old(State()), config, now, InfoAt)
    {
      var info := Refresh(now);
      if info.Err? {
        return Err(info.error);
      }
      if info.value.state == S.Unlockable {
        var o := constraints.breakTimer.Unlock(now);
        r := Conclude(o, now);
      } else {
        r := Ok(Error("Session is not unlockable."));
      }
    }

    method LockTimer(now: Timestamp, exited: bool) returns (r: Result<Response, ClientHandlingError>)
      requires Valid()
      modifies this, constraints, constraints.breakTimer, idGenerator
      ensures (State(), r) == LockTimerSpec(old(State()), config, now, exited, InfoAt)
    {
      CheckRunning(exited);
      ghost var s0 := State();
      assert s0 == old(State()).(running := old(State()).running && !exited);
      var info := Refresh(now);
      ghost var s1 := State();
      assert (s1, info) == RefreshSpec(s0, config, now, InfoAt);
      if info.Err? {
        return Err(info.error);
      }
      var o := constraints.breakTimer.Lock(now);
      ghost var step := LockStep(s1.timer, now, config.breakDuration);
      assert State() == s1.(timer := step.0) && o == step.1;
      r := Conclude(o, now);
    }

    method GetInfo(now: Timestamp) returns (r: Result<Response, ClientHandlingError>)
      requires Valid()
      modifies this, constraints, constraints.breakTimer, idGenerator
      ensures (State(), r) == GetInfoSpec(old(State()), config, now, InfoAt)
    {
      var info := Refresh(now);
      if info.Err? {
        return Err(info.error);
      }
      return Ok(Info(info.value));
    }

    method CompleteRequirement(now: Timestamp, id: nat) returns (r: Result<Response, ClientHandlingError>)
      requires Valid()
      modifies this, constraints, constraints.breakTimer, idGenerator
      ensures (State(), r) == CompleteRequirementSpec(old(State()), config, now, id, InfoAt)
    {
      var info := Refresh(now);
      if info.Err? {
        return Err(info.error);
      }
      var o := constraints.CompleteRequirement(id);
      r := Conclude(o, now);
    }

    method AddRequirement(now: Timestamp, name: string, due: HourMinute) returns (r: Result<Response, ClientHandlingError>)
      requires Valid()
      modifies this, constraints, constraints.breakTimer, idGenerator
      ensures (State(), r) == AddRequirementSpec(old(State()), config, now, name, due, InfoAt)
    {
      var info := Refresh(now);
      if info.Err? {
        return Err(info.error);
      }
      ghost var s1 := State();
      assert (s1, info) == RefreshSpec(old(State()), config, now, InfoAt);
      var id := idGenerator.NextId();
      constraints.requirements := constraints.requirements + [Requirement(id, name, FromDateHm(currentDate, due), false)];
      ghost var s2 := s1.(requirements := s1.requirements + [Requirement(s1.lastId + 1, name, FromDateHm(s1.currentDate, due), false)],
                          lastId := s1.lastId + 1);
      assert State() == s2;
      r := Conclude(Pass, now);
      assert (State(), r) == Concluded(s2, Pass, config, now, InfoAt);
    }

    /** The tail shared by the requests that change something: refresh again after a success. */
    method Conclude(o: Outcome<string>, now: Timestamp) returns (r: Result<Response, ClientHandlingError>)
      requires Valid()
      modifies this, constraints, constraints.breakTimer, idGenerator
      ensures (State(), r) == Concluded(old(State()), o, config, now, InfoAt)
    {
      match o
      case Pass =>
        var info := Refresh(now);
        if info.Err? {
          return Err(info.error);
        }
        return Ok(Success);
      case Fail(msg) =>
        return Ok(Error(msg));
    }

    /** `new_day`: the configured requirements, then the configured ranges, each with a fresh id. */
    method NewDay()
      modifies constraints, idGenerator
      ensures constraints.requirements == DayRequirements(config.requirements, currentDate, old(idGenerator.lastId) + 1)
      ensures constraints.lockedTimeRanges
              == DayRanges(config.lockedTimeRanges, currentDate, old(idGenerator.lastId) + |config.requirements| + 1)
      ensures idGenerator.lastId == old(idGenerator.lastId) + |config.requirements| + |config.lockedTimeRanges|
    {
      var cfgs := config.requirements;
      var first := idGenerator.lastId + 1;
      var reqs: seq<Requirement> := [];
      for i := 0 to |cfgs|
        invariant reqs == DayRequirements(cfgs[..i], currentDate, first)
        invariant idGenerator.lastId + 1 == first + i
      {
        assert cfgs[..i + 1][..i] == cfgs[..i];
        var id := idGenerator.NextId();
        reqs := reqs + [Requirement(id, cfgs[i].name, FromDateHm(currentDate, cfgs[i].due), false)];
      }
      assert cfgs[..|cfgs|] == cfgs;
      constraints.requirements := reqs;
      var rangeCfgs := config.lockedTimeRanges;
      var firstRange := idGenerator.lastId + 1;
      var ranges: seq<TimeRange> := [];
      for i := 0 to |rangeCfgs|
        invariant ranges == DayRanges(rangeCfgs[..i], currentDate, firstRange)
        invariant idGenerator.lastId + 1 == firstRange + i
        invariant constraints.requirements == reqs
      {
        assert rangeCfgs[..i + 1][..i] == rangeCfgs[..i];
        var id := idGenerator.NextId();
        var c := rangeCfgs[i];
        ranges := ranges + [TimeRange(id, FromDateHmOpt(currentDate, c.start), FromDateHmOpt(currentDate, c.end))];
      }
      assert rangeCfgs[..|rangeCfgs|] == rangeCfgs;
      constraints.lockedTimeRanges := ranges;
    }

    /** `check_running`: forget a process that has terminated on its own. */
    method CheckRunning(exited: bool)
      modifies this`running
      ensures running == (old(running) && !exited)
    {
      if running {
        if exited {
          running := false;
        }
      }
    }

    /** The date check of `refresh`. */
    method RollOver(now: Timestamp)
      modifies this, constraints, idGenerator
      ensures State() == Rollover(old(State()), config, now)
    {
      var date := GetDate(now);
      if date != currentDate {
        currentDate := date;
        NewDay();
      }
    }

    method Refresh(now: Timestamp) returns (r: Result<CurrentInfo, ClientHandlingError>)
      requires Valid()
      modifies this, constraints, constraints.breakTimer, idGenerator
      ensures (State(), r) == RefreshSpec(old(State()), config, now, InfoAt)
    {
      RollOver(now);
      ghost var s1 := State();
      r := constraints.GetCurrentInfo(now);
      ghost var timer := constraints.breakTimer.timer;
      assert timer == Refreshed(s1.timer, now, config.breakDuration);
      assert r == InfoAt(s1.requirements, s1.lockedTimeRanges, timer, now);
      if r.Err? {
        return;
      }
      var shouldRun := r.value.state != S.Unlocked;
      if shouldRun {
        constraints.breakTimer.LockIfUnlocked(now);
      }
      if running {
        if !shouldRun {
          running := false;
        }
      } else {
        if shouldRun {
          running := true;
        }
      }
    }
  }

  // ---------------------------------------------------------------------------------------
  // What the requests promise

  /**
   * `refresh` keeps the information it computed before locking the timer; when that succeeded,
   * the process runs exactly when the state is not Unlocked, and then the timer is not in a
   * work period.
   */
  lemma RefreshEffects(s: Snapshot, config: ManagerConfig, now: Timestamp, compute: InfoSource)
    ensures var (s1, r) := RefreshSpec(s, config, now, compute);
            var rolled := Rollover(s, config, now);
            && s1.currentDate == GetDate(now)
            && s1.requirements == rolled.requirements && s1.lockedTimeRanges == rolled.lockedTimeRanges
            && s1.lastId == rolled.lastId
            && r == compute(rolled.requirements, rolled.lockedTimeRanges, Refreshed(rolled.timer, now, config.breakDuration), now)
            && (r.Ok? ==> s1.running == (r.value.state != S.Unlocked))
            && (r.Ok? && r.value.state != S.Unlocked ==> !s1.timer.Unlocked?)
  {
  }

  /** On a new date, the day's requirements (all incomplete) and ranges are rebuilt with fresh ids. */
  lemma RefreshNewDay(s: Snapshot, config: ManagerConfig, now: Timestamp, compute: InfoSource)
    requires GetDate(now) != s.currentDate
    ensures var s1 := RefreshSpec(s, config, now, compute).0;
            var date, n, m := GetDate(now), |config.requirements|, |config.lockedTimeRanges|;
            && |s1.requirements| == n && |s1.lockedTimeRanges| == m
            && (forall i :: 0 <= i < n ==>
                  s1.requirements[i] == Requirement(s.lastId + 1 + i, config.requirements[i].name,
                                                    FromDateHm(date, config.requirements[i].due), false))
            && (forall i :: 0 <= i < m ==>
                  s1.lockedTimeRanges[i] == TimeRange(s.lastId + n + 1 + i,
                                                      FromDateHmOpt(date, config.lockedTimeRanges[i].start),
                                                      FromDateHmOpt(date, config.lockedTimeRanges[i].end)))
            && s1.lastId == s.lastId + n + m
  {
    var date, n := GetDate(now), |config.requirements|;
    DayRequirementsAt(config.requirements, date, s.lastId + 1);
    DayRangesAt(config.lockedTimeRanges, date, s.lastId + n + 1);
  }

  /** On the same date, `refresh` leaves the requirements, the ranges and the id counter alone. */
  lemma RefreshSameDay(s: Snapshot, config: ManagerConfig, now: Timestamp, compute: InfoSource)
    requires GetDate(now) == s.currentDate
    ensures var s1 := RefreshSpec(s, config, now, compute).0;
            s1.requirements == s.requirements && s1.lockedTimeRanges == s.lockedTimeRanges && s1.lastId == s.lastId
  {
  }

  /** Every id in use was handed out by the generator, and no two requirements or ranges share one. */
  ghost predicate IdsFresh(s: Snapshot)
  {
    && (forall i :: 0 <= i < |s.requirements| ==> 0 < s.requirements[i].id <= s.lastId)
    && (forall i :: 0 <= i < |s.lockedTimeRanges| ==> 0 < s.lockedTimeRanges[i].id <= s.lastId)
    && (forall i, j :: 0 <= i < j < |s.requirements| ==> s.requirements[i].id != s.requirements[j].id)
    && (forall i, j :: 0 <= i < j < |s.lockedTimeRanges| ==> s.lockedTimeRanges[i].id != s.lockedTimeRanges[j].id)
    && (forall i, j :: 0 <= i < |s.requirements| && 0 <= j < |s.lockedTimeRanges| ==>
          s.requirements[i].id != s.lockedTimeRanges[j].id)
  }

  lemma RolloverKeepsIdsFresh(s: Snapshot, config: ManagerConfig, now: Timestamp)
    requires IdsFresh(s)
    ensures IdsFresh(Rollover(s, config, now))
  {
    if GetDate(now) != s.currentDate {
      var date, n := GetDate(now), |config.requirements|;
      DayRequirementsAt(config.requirements, date, s.lastId + 1);
      DayRangesAt(config.lockedTimeRanges, date, s.lastId + n + 1);
    }
  }

  lemma RefreshKeepsIdsFresh(s: Snapshot, config: ManagerConfig, now: Timestamp, compute: InfoSource)
    requires IdsFresh(s)
    ensures IdsFresh(RefreshSpec(s, config, now, compute).0)
  {
    RolloverKeepsIdsFresh(s, config, now);
  }

  lemma ConcludedKeepsIdsFresh(s: Snapshot, o: Outcome<string>, config: ManagerConfig, now: Timestamp, compute: InfoSource)
    requires IdsFresh(s)
    ensures IdsFresh(Concluded(s, o, config, now, compute).0)
  {
    if o.Pass? {
      RefreshKeepsIdsFresh(s, config, now, compute);
    }
  }

  lemma UnlockTimerKeepsIdsFresh(s: Snapshot, config: ManagerConfig, now: Timestamp, compute: InfoSource)
    requires IdsFresh(s)
    ensures IdsFresh(UnlockTimerSpec(s, config, now, compute).0)
  {
    var (s1, info) := RefreshSpec(s, config, now, compute);
    RefreshKeepsIdsFresh(s, config, now, compute);
    if info.Ok? && info.value.state == S.Unlockable {
      var (timer, o) := UnlockStep(s1.timer, now, config.workPeriodDuration, config.breakDuration);
      ConcludedKeepsIdsFresh(s1.(timer := timer), o, config, now, compute);
    }
  }

  lemma LockTimerKeepsIdsFresh(s: Snapshot, config: ManagerConfig, now: Timestamp, exited: bool, compute: InfoSource)
    requires IdsFresh(s)
    ensures IdsFresh(LockTimerSpec(s, config, now, exited, compute).0)
  {
    var sl := s.(running := s.running && !exited);
    var (s1, info) := RefreshSpec(sl, config, now, compute);
    RefreshKeepsIdsFresh(sl, config, now, compute);
    if info.Ok? {
      var (timer, o) := LockStep(s1.timer, now, config.breakDuration);
      ConcludedKeepsIdsFresh(s1.(timer := timer), o, config, now, compute);
    }
  }

  lemma CompleteRequirementKeepsIdsFresh(s: Snapshot, config: ManagerConfig, now: Timestamp, id: nat, compute: InfoSource)
    requires IdsFresh(s)
    ensures IdsFresh(CompleteRequirementSpec(s, config, now, id, compute).0)
  {
    var (s1, info) := RefreshSpec(s, config, now, compute);
    RefreshKeepsIdsFresh(s, config, now, compute);
    if info.Ok? {
      var (reqs, o) := CompleteIn(s1.requirements, id);
      assert |reqs| == |s1.requirements| && forall i :: 0 <= i < |reqs| ==> reqs[i].id == s1.requirements[i].id;
      ConcludedKeepsIdsFresh(s1.(requirements := reqs), o, config, now, compute);
    }
  }

  lemma AppendKeepsIdsFresh(s: Snapshot, q: Requirement)
    requires IdsFresh(s) && q.id == s.lastId + 1
    ensures IdsFresh(s.(requirements := s.requirements + [q], lastId := s.lastId + 1))
  {
    var reqs := s.requirements + [q];
    assert forall i :: 0 <= i < |s.requirements| ==> reqs[i] == s.requirements[i];
  }

  lemma AddRequirementKeepsIdsFresh(s: Snapshot, config: ManagerConfig, now: Timestamp, name: string, due: HourMinute,
                                    compute: InfoSource)
    requires IdsFresh(s)
    ensures IdsFresh(AddRequirementSpec(s, config, now, name, due, compute).0)
  {
    var (s1, info) := RefreshSpec(s, config, now, compute);
    RefreshKeepsIdsFresh(s, config, now, compute);
    if info.Ok? {
      var q := Requirement(s1.lastId + 1, name, FromDateHm(s1.currentDate, due), false);
      var s2 := s1.(requirements := s1.requirements + [q], lastId := s1.lastId + 1);
      AppendKeepsIdsFresh(s1, q);
      ConcludedKeepsIdsFresh(s2, Pass, config, now, compute);
    }
  }

  /** Ids never repeat: every request keeps the ids in use distinct and below the generator's counter. */
  lemma RequestsKeepIdsFresh(s: Snapshot, config: ManagerConfig, now: Timestamp, exited: bool,
                             id: nat, name: string, due: HourMinute, compute: InfoSource)
    requires IdsFresh(s)
    ensures IdsFresh(UnlockTimerSpec(s, config, now, compute).0)
    ensures IdsFresh(LockTimerSpec(s, config, now, exited, compute).0)
    ensures IdsFresh(GetInfoSpec(s, config, now, compute).0)
    ensures IdsFresh(CompleteRequirementSpec(s, config, now, id, compute).0)
    ensures IdsFresh(AddRequirementSpec(s, config, now, name, due, compute).0)
  {
    UnlockTimerKeepsIdsFresh(s, config, now, compute);
    LockTimerKeepsIdsFresh(s, config, now, exited, compute);
    RefreshKeepsIdsFresh(s, config, now, compute);
    CompleteRequirementKeepsIdsFresh(s, config, now, id, compute);
    AddRequirementKeepsIdsFresh(s, config, now, name, due, compute);
  }

  /**
   * `add_requirement` appends one incomplete requirement with the next id, due at the given time
   * of the current date, and answers Success unless a refresh fails.
   */
  lemma AddRequirementAppends(s: Snapshot, config: ManagerConfig, now: Timestamp, name: string, due: HourMinute, compute: InfoSource)
    ensures var (s1, info) := RefreshSpec(s, config, now, compute);
            var (s2, r) := AddRequirementSpec(s, config, now, name, due, compute);
            info.Ok? ==>
              && s2.requirements == s1.requirements + [Requirement(s1.lastId + 1, name, FromDateHm(GetDate(now), due), false)]
              && s2.lockedTimeRanges == s1.lockedTimeRanges
              && s2.lastId == s1.lastId + 1
              && (r.Ok? ==> r.value == Success)
  {
    var (s1, info) := RefreshSpec(s, config, now, compute);
    if info.Ok? {
      var q := Requirement(s1.lastId + 1, name, FromDateHm(s1.currentDate, due), false);
      RefreshSameDay(s1.(requirements := s1.requirements + [q], lastId := s1.lastId + 1), config, now, compute);
    }
  }

  /**
   * `unlock_timer` refuses unless the refreshed state is Unlockable; it succeeds only when the
   * refreshed timer itself was unlockable, and then starts a work period that ends
   * `workPeriodDuration` from now.
   */
  lemma UnlockTimerOutcome(s: Snapshot, config: ManagerConfig, now: Timestamp, compute: InfoSource)
    ensures var (s1, info) := RefreshSpec(s, config, now, compute);
            var (s2, r) := UnlockTimerSpec(s, config, now, compute);
            && (info.Err? ==> r == Err(info.error))
            && (info.Ok? && info.value.state != S.Unlockable ==> s2 == s1 && r == Ok(Error("Session is not unlockable.")))
            && (r == Ok(Success) ==>
                  && info.Ok? && info.value.state == S.Unlockable
                  && Refreshed(s1.timer, now, config.breakDuration).Unlockable?
                  && s2 == RefreshSpec(s1.(timer := Unlocked(Add(now, config.workPeriodDuration))), config, now, compute).0)
  {
  }

  /**
   * `lock_timer` succeeds only when the refreshed state was Unlocked: any other state has
   * already locked a running work period during the refresh.
   */
  lemma LockTimerOnlyWhenUnlocked(s: Snapshot, config: ManagerConfig, now: Timestamp, exited: bool, compute: InfoSource)
    ensures var (s1, info) := RefreshSpec(s.(running := s.running && !exited), config, now, compute);
            var r := LockTimerSpec(s, config, now, exited, compute).1;
            && (info.Ok? && info.value.state != S.Unlocked ==> r == Ok(Error("Break timer is not unlocked.")))
            && (r == Ok(Success) ==> info.Ok? && info.value.state == S.Unlocked && s1.timer.Unlocked?)
  {
  }

  /** `complete_requirement` changes the refreshed requirements exactly as `CompleteIn` says. */
  lemma CompleteRequirementOutcome(s: Snapshot, config: ManagerConfig, now: Timestamp, id: nat, compute: InfoSource)
    ensures var (s1, info) := RefreshSpec(s, config, now, compute);
            var (s2, r) := CompleteRequirementSpec(s, config, now, id, compute);
            var (reqs, o) := CompleteIn(s1.requirements, id);
            info.Ok? ==>
              && s2.requirements == reqs
              && s2.lockedTimeRanges == s1.lockedTimeRanges
              && (o.Fail? ==> r == Ok(Error(o.error)))
              && (o.Pass? ==> r.Ok? ==> r.value == Success)
  {
    var (s1, info) := RefreshSpec(s, config, now, compute);
    if info.Ok? {
      var (reqs, o) := CompleteIn(s1.requirements, id);
      RefreshSameDay(s1.(requirements := reqs), config, now, compute);
    }
  }
}
