# Diagonator lock engine in Dafny

Diagonator is a session locker. A server keeps a daily list of **requirements**: named tasks due at a time of day. It also keeps **locked time ranges** and a **break timer** that alternates between work periods and breaks. From these it decides whether the session is `Unlocked`, `Locked` or `Unlockable`, until when that holds, and why. When the session should be locked, it runs an external locking program. Small Python clients talk to the server:
- they answer a deactivation challenge;
- they pick a requirement to complete;
- they re-complete requirements that were logged earlier in the day.

An analytics page classifies logged deactivations.

This project models that core and proves what it promises.

| file | module | models |
|---|---|---|
| `wrappers.dfy` | `Wrappers` | `Option`, `Result`, and `Outcome` for `Result<(), E>` |
| `text.dfy` | `Text` | ASCII digits, `{:02}` and `{}` formatting of naturals |
| `time.dfy` | `Time` | `HourMinute` and its `HH:MM` text form, `Duration`, `Timestamp`, dates (src/time.rs) |
| `sorting.dfy` | `Sorting` | the stable sort by key that Rust's `sort_by_key` and Python's `list.sort` provide |
| `session.dfy` | `Session` | `CurrentState`, `CurrentStateReason` |
| `simulator.dfy` | `Simulator` | `Locks`, the event sweep `Simulator::run`, `calc_state` (src/simulator.rs) |
| `manager.dfy` | `Manager` | `BreakTimerManager`, `Constraints`, `IdGenerator`, `DiagonatorManager` (src/manager.rs) |
| `client.dfy` | `Client` | requests and recorded effects of the Python clients, the wall clock |
| `deactivate_challenge.dfy` | `DeactivateChallenge` | clients/diagonator_clients/deactivate_dmenu.py |
| `exact_challenge.dfy` | `ExactChallenge` | clients/deactivate_dmenu.py |
| `requirement_picker.dfy` | `RequirementPicker` | both `complete_requirement_dmenu.py` clients |
| `auto_complete.dfy` | `AutoComplete` | clients/diagonator_clients/update_requirements.py |
| `analytics.dfy` | `Analytics` | the bucket and hour-bin classification of analytics/diagonator_analytics/main.py |

How the model is built:

- **Classes for state that is updated in place.** `Locks`, `Simulator`, `BreakTimerManager`, `Constraints`, `IdGenerator` and `DiagonatorManager` are classes with the source's fields. Their methods keep the source's loops.
- **Each method is proved equal to a function.** Each method's postcondition equates its result and new state with a value-level function: `AddLockTo`, `RemoveLock`, `Simulate`, `Refreshed`, `UnlockStep`, `CompleteIn`, `RefreshSpec`, and so on. The lemmas state the source's promises about those functions.
- **Request specifications take the information computation as a parameter.** The manager's request specifications (`RefreshSpec`, `UnlockTimerSpec`, …) take how the information is computed as a parameter (`InfoSource`). The methods use `InfoAt`, which runs the simulator on the events of the constraints. The lemmas about requests hold for every such computation.
- **Scripts are functions returning their effects.** The Python scripts are functions from what they read to the list of effects they perform: exit, connect, prompt, send, print, log. Replies, selector output and the clock are parameters.

Notes:

- **The simulator's reason is the one reported.** The manager is written as if the simulator's result carried the kind of the deciding change (src/manager.rs:179-190). The simulator actually computes the reason itself (src/simulator.rs:104-140), with the same per-kind mapping. The model uses the simulator's reason as the reported one.
- **`CurrentStateReason` is shared.** It is declared private in src/manager.rs:96-103 but used by the simulator. It is one datatype, in `Session`.
- **Config types are inferred.** src/manager.rs:1 imports `RequirementConfig` and `LockedTimeRangeConfig` from `crate::config`, but src/config.rs does not define them. Their fields are the ones src/manager.rs:300-320 reads: a name and a due `HourMinute`, and an optional start and end `HourMinute`.
- **The deactivation challenge rounds strictly up.** A time exactly on a half hour asks for the next one: 10:00 asks for 10:30, and 10:30 asks for 11:00.

## Model

| member | source | states |
|---|---|---|
| Time.NewHourMinute | src/time.rs:15-21 | Some exactly when hour ≤ 23 and minute ≤ 59, holding those values |
| Time.Serialize | src/time.rs:24-31 | five characters: two digits with the hour's value, `:`, two digits with the minute's value |
| Time.Deserialize | src/time.rs:33-57 | Ok only for one or two digits, `:`, two digits, with the digits' values. A well-shaped string out of range is OutOfRange, anything else ParseFailure; the error carries the input |
| Time.ErrorMessage | src/time.rs:49-56 | no contract of its own: the two error texts, "Time is out of range: '…'" and "Failed to parse time from string: '…'", each quoting the input; `DeserializeErrorMessage` ties them to `Deserialize` |
| Time.DeserializeErrorMessage | src/time.rs:33-57 | a failed `Deserialize` of a string of the right shape reports it out of range, and of any other string reports that it failed to parse, quoting the input in both |
| Time.DeserializeSerialize | src/time.rs:24-57 | deserializing a serialized time gives it back |
| Time.SerializeDeserialize | src/time.rs:24-57 | a five-character string that deserializes is the serialized form of its value |
| Time.FromMinutes | src/time.rs:63-66 | the duration is a whole number of minutes: m·60 seconds |
| Time.Add | src/time.rs:91-95 | adding a duration moves the timestamp by exactly its seconds, later iff the duration is positive |
| Time.GetDate | src/time.rs:86-88 | no contract of its own: the date is the whole number of days since the epoch; `FromDateHm` states that a time placed on a date has that date |
| Time.FromDateHm | src/time.rs:73-75 | the timestamp lies on the given date, at the given time of day |
| Time.FromDateHmOpt | src/time.rs:76-82 | None exactly when the time of day is None; otherwise `FromDateHm` |
| Time.FromDateHmInjective | src/time.rs:73-75 | different dates or times of day never share a timestamp |
| Time.FromDateHmMonotone | src/time.rs:73-75 | on one date, a later time of day gives a later timestamp |
| Text.Decimal | src/manager.rs:202-206 | `{}` of an id: decimal digits with its value, no leading zero |
| Sorting.SortBy | src/simulator.rs:80-82 | the sorted list is a permutation of the input |
| Sorting.SortBySorted | src/simulator.rs:80-82 | the sorted list is ordered by key |
| Sorting.SortByStable | src/simulator.rs:80-82 | for every key, the elements with that key keep their relative order |
| Sorting.SortByKeepsRankOnTies | src/simulator.rs:80-82 | if the input is ordered by a rank, equal-key elements stay ordered by that rank after sorting |
| Simulator.AddLockTo | src/simulator.rs:31-38 | DuplicateLock(id) exactly when the id is held; otherwise the id is appended after the unchanged list, and distinct ids stay distinct |
| Simulator.IndexOf | src/simulator.rs:40-44 | the first position holding the id |
| Simulator.RemoveLock | src/simulator.rs:39-47 | LockNotFound(id) exactly when the id is not held; otherwise the list without its first occurrence, the others in order, and the id no longer held |
| Simulator.FirstLock | src/simulator.rs:51-53 | None exactly when no id is held, otherwise the earliest-added one |
| Simulator.Locks.constructor | src/simulator.rs:54-56 | starts with no ids |
| Simulator.Locks.AddLock | src/simulator.rs:31-38 | the search loop updates the list as `AddLockTo` says, and leaves it unchanged on error |
| Simulator.Locks.Unlock | src/simulator.rs:39-47 | the search loop updates the list as `RemoveLock` says, and leaves it unchanged on error |
| Simulator.Locks.IsEmpty | src/simulator.rs:48-50 | true exactly when no id is held |
| Simulator.Locks.First | src/simulator.rs:51-53 | the earliest-added id |
| Simulator.CalcState | src/simulator.rs:144-154 | Locked whenever a range or requirement lock is held, otherwise the break-timer state |
| Simulator.SettledReason | src/simulator.rs:128-140 | NoConstraints exactly for Unlocked. RequirementNotMet names the earliest-held requirement; LockedTimeRange the earliest-held range when no requirement is held; BreakTimer otherwise |
| Simulator.ChangeReason | src/simulator.rs:104-114 | no contract of its own: both break-timer kinds give BreakTimer, both range kinds LockedTimeRange with the range's id, a requirement lock RequirementNotMet with its id; used by `SimulateUntil` |
| Simulator.SweepFrom | src/simulator.rs:88-143 | no contract of its own: the loop from one position of the sorted changes; `CatchUp`, `LookAhead` and `Phases` state what it computes |
| Simulator.Simulate | src/simulator.rs:79-143 | no contract of its own: sort stably by time, then sweep; `SimulateTargetState`, `SimulateUntil`, `SimulateSettled` and `SimulateError` characterize its result against the prefix reference `ApplyAll` |
| Simulator.ApplyChange | src/simulator.rs:88-96 | one change applied in place to the two lock sets, as `Apply` says |
| Simulator.Simulator.constructor | src/simulator.rs:71-75 | no changes |
| Simulator.Simulator.Push | src/simulator.rs:76-78 | appends the change |
| Simulator.Simulator.Run | src/simulator.rs:79-143 | sorts the changes in place stably by time; the loop's result is `Simulate` of the pushed changes |
| Simulator.CountUpTo | src/simulator.rs:97-119 | the number of sorted changes at or before the target: all of them are ≤ target and the next is later |
| Simulator.ApplyAllStep | src/simulator.rs:88-96 | the sweep state after n+1 changes is one step after the state after n |
| Simulator.ApplyRaises | src/simulator.rs:93-95 | a failing step fails with the error of its change's kind |
| Simulator.ErrorPersists | src/simulator.rs:93-95 | once a sweep fails, later changes keep that error |
| Simulator.FirstError | src/simulator.rs:93-95 | a failed sweep has a first failing change, and the error is raised by its kind |
| Simulator.CatchUp | src/simulator.rs:97-119 | changes at or before the target only move the current state along |
| Simulator.LookAhead | src/simulator.rs:97-141 | after the target, the result keeps the state. `until` is the first later change that alters it, with its reason; with none, `until` is None and the reason is `SettledReason` |
| Simulator.Phases | src/simulator.rs:79-143 | `run` is the catch-up over the changes up to the target followed by the look-ahead |
| Simulator.SimulateTargetState | src/simulator.rs:97-119 | the target state is the state after exactly the sorted changes with time ≤ target; a failure there is the result |
| Simulator.SimulateUntil | src/simulator.rs:99-116 | a returned `until` is after the target, is the time of the first later change that alters the state, and the reason comes from that change's kind |
| Simulator.SimulateSettled | src/simulator.rs:122-141 | with no altering later change, `until` is None, every later change is applied and the reason is `SettledReason` of the final locks |
| Simulator.SimulateError | src/simulator.rs:93-95 | an error is the one raised by the first failing change of the sorted list |
| Simulator.RequirementLockHeld | src/simulator.rs:95 | a requirement lock, once applied, stays held |
| Simulator.RangeStepKeeps | src/simulator.rs:93-94 | a held range stays held through any step other than its own unlock |
| Simulator.RangeLockHeld | src/simulator.rs:93-94 | a range lock stays held until its unlock |
| Simulator.InSorted | src/simulator.rs:80-82 | every pushed change is in the sorted list |
| Simulator.DueRequirementLocks | src/simulator.rs:95-154 | a requirement lock at or before the target makes a successful run Locked |
| Simulator.ActiveRangeLocks | src/simulator.rs:93-154 | a range lock at or before the target whose unlocks are all after it makes a successful run Locked |
| Manager.Refreshed | src/manager.rs:70-83 | An expired Unlocked becomes Locked(until + break), and an expired Locked becomes Unlockable, in one call. Afterwards any `until` is after now; Unlockable stays; unexpired timers are unchanged |
| Manager.UnlockStep | src/manager.rs:45-57 | succeeds exactly when the refreshed timer is Unlockable, with Unlocked(now + work period); otherwise "Break timer is locked." or "Break timer is already unlocked." and the refreshed timer |
| Manager.LockStep | src/manager.rs:58-69 | succeeds exactly when the refreshed timer is Unlocked, with Locked(now + break); otherwise "Break timer is not unlocked." and the refreshed timer |
| Manager.LockedIfUnlocked | src/manager.rs:84-86 | never Unlocked afterwards: a refreshed Unlocked becomes Locked(now + break), anything else stays refreshed |
| Manager.RefreshIdempotent | src/manager.rs:70-83 | refreshing twice at one time is refreshing once |
| Manager.UnlockThenLock | src/manager.rs:45-69 | with a positive work period, a lock right after a successful unlock succeeds with Locked(now + break) |
| Manager.UnlockTwice | src/manager.rs:45-57 | with a positive work period, a second unlock at the same time fails with "Break timer is already unlocked." |
| Manager.WorkPeriodExpiry | src/manager.rs:70-83 | an expired work period is a break ending `break` after it, or Unlockable once that break has passed too |
| Manager.BreakTimerManager.constructor | src/manager.rs:38-44 | starts Unlockable with the given durations |
| Manager.BreakTimerManager.Unlock | src/manager.rs:45-57 | the timer and outcome are `UnlockStep` |
| Manager.BreakTimerManager.Lock | src/manager.rs:58-69 | the timer and outcome are `LockStep` |
| Manager.BreakTimerManager.Refresh | src/manager.rs:70-83 | the timer becomes `Refreshed` |
| Manager.BreakTimerManager.LockIfUnlocked | src/manager.rs:84-86 | the timer becomes `LockedIfUnlocked` |
| Manager.RequirementEventsMembers | src/manager.rs:133-140 | the requirement events are exactly one lock at the due time for each incomplete requirement |
| Manager.RangeEventsMembers | src/manager.rs:141-152 | the range events are exactly the changes of each range: a lock at its start (time zero without one) and an unlock at its end only when it has one |
| Manager.RequirementEvents | src/manager.rs:133-140 | no contract of its own: a lock at the due time of each incomplete requirement, in order; `RequirementEventsMembers` states its members |
| Manager.RangeEvents | src/manager.rs:141-152 | no contract of its own: for each range, a lock at its start (time zero without one) and an unlock at its end when it has one; `RangeEventsMembers` states its members |
| Manager.TimerEvents | src/manager.rs:153-172 | no contract of its own: a work period locks at its end; a break locks from time zero and becomes unlockable at its end; an unlockable timer is unlockable from time zero; `TimerOnlyInfo` states the resulting information |
| Manager.Events | src/manager.rs:126-172 | no contract of its own: requirement events, then range events, then timer events; `EventsRankSorted` and `EventPriority` state the order |
| Manager.InfoAt | src/manager.rs:173-194 | no contract of its own: the simulator's answer on `Events` at now, with the reason as the simulator reports it and the constraints copied; `DueRequirementLocked`, `OpenRangeLocked` and `TimerOnlyInfo` state what it reports |
| Manager.EventsRankSorted | src/manager.rs:126-172 | requirement events come before range events, which come before timer events |
| Manager.EventPriority | src/manager.rs:126-132 | after the stable sort, among events at the same time requirements come before ranges before the timer |
| Manager.DueRequirementLocked | src/manager.rs:133-140 | an incomplete requirement due by now makes the computed state Locked |
| Manager.OpenRangeLocked | src/manager.rs:141-152 | a range that started by now and has no end, or ends later, makes the computed state Locked (range ids unique) |
| Manager.WorkPeriodOnly | src/manager.rs:153-157 | with only a running work period, Unlocked until its end, because of the break timer |
| Manager.BreakOnly | src/manager.rs:158-167 | with only a running break, Locked until its end, because of the break timer |
| Manager.UnlockableOnly | src/manager.rs:168-171 | with only an unlockable timer, Unlockable with no end, because of the break timer |
| Manager.TimerOnlyInfo | src/manager.rs:153-172 | the three timer cases together |
| Manager.FirstWithId | src/manager.rs:196-197 | the first requirement with the id, or none has it |
| Manager.CompleteIn | src/manager.rs:195-207 | Completes the first requirement with the id and nothing else. Fails with "Requirement {id} has already been completed." exactly when it was complete, and "Requirement {id} not found." exactly when none matches; a failure changes nothing |
| Manager.PushRequirements | src/manager.rs:133-140 | the loop pushes exactly the requirement events |
| Manager.PushRanges | src/manager.rs:141-152 | the loop pushes exactly the range events |
| Manager.PushTimer | src/manager.rs:153-172 | pushes exactly the timer events |
| Manager.Constraints.constructor | src/manager.rs:225-229 | empty requirements and ranges, the given timer |
| Manager.Constraints.GetCurrentInfo | src/manager.rs:120-194 | refreshes the timer and returns `InfoAt` of the constraints and the refreshed timer |
| Manager.Constraints.CompleteRequirement | src/manager.rs:195-207 | the loop changes the requirements as `CompleteIn` says, ranges untouched |
| Manager.IdGenerator.constructor | src/manager.rs:382-384 | the counter starts at 0 |
| Manager.IdGenerator.NextId | src/manager.rs:378-381 | returns the previous counter plus one and stores it |
| Manager.DayRequirementsAt | src/manager.rs:300-310 | the day's requirements follow the config in order: consecutive fresh ids, due on the date, incomplete |
| Manager.DayRangesAt | src/manager.rs:311-320 | the day's ranges follow the config in order with consecutive fresh ids and bounds on the date |
| Manager.DiagonatorManager.constructor | src/manager.rs:219-233 | Unlockable timer, no constraints, the date of time zero, counter 0, nothing running |
| Manager.DiagonatorManager.UnlockTimer | src/manager.rs:234-252 | new state and reply are `UnlockTimerSpec` |
| Manager.DiagonatorManager.LockTimer | src/manager.rs:253-263 | new state and reply are `LockTimerSpec`, after polling the process |
| Manager.DiagonatorManager.GetInfo | src/manager.rs:264-268 | new state and reply are `GetInfoSpec` |
| Manager.DiagonatorManager.CompleteRequirement | src/manager.rs:269-282 | new state and reply are `CompleteRequirementSpec` |
| Manager.DiagonatorManager.AddRequirement | src/manager.rs:283-298 | new state and reply are `AddRequirementSpec` |
| Manager.DiagonatorManager.Conclude | src/manager.rs:240-246 | a success is followed by a refresh and answers Success; a failure answers Error with its message |
| Manager.DiagonatorManager.NewDay | src/manager.rs:299-321 | the loops rebuild requirements and ranges from the config with the next ids |
| Manager.DiagonatorManager.CheckRunning | src/manager.rs:322-329 | the process is no longer running once it has exited |
| Manager.DiagonatorManager.RollOver | src/manager.rs:330-335 | a new date is stored and the day rebuilt; the same date changes nothing |
| Manager.DiagonatorManager.Refresh | src/manager.rs:330-362 | new state and result are `RefreshSpec` |
| Manager.Rollover | src/manager.rs:330-335 | no contract of its own: on a new date the date is stored and the day rebuilt with fresh ids; `RefreshNewDay`, `RefreshSameDay` and `RolloverKeepsIdsFresh` state it |
| Manager.RefreshSpec | src/manager.rs:330-362 | no contract of its own: rollover, refresh the timer, compute the information, then lock the timer and run the process unless Unlocked; `RefreshEffects` states it |
| Manager.Concluded | src/manager.rs:240-246 | no contract of its own: a change that succeeded is followed by a refresh and answers Success, a failed one answers its error text and changes nothing; `ConcludedKeepsIdsFresh` keeps the id invariant |
| Manager.UnlockTimerSpec | src/manager.rs:234-252 | no contract of its own: `unlock_timer` on snapshots; `UnlockTimerOutcome` states when it succeeds |
| Manager.LockTimerSpec | src/manager.rs:253-263 | no contract of its own: `lock_timer` on snapshots, after the process poll; `LockTimerOnlyWhenUnlocked` states when it succeeds |
| Manager.GetInfoSpec | src/manager.rs:264-268 | no contract of its own: `get_info` answers the refreshed information or its error |
| Manager.CompleteRequirementSpec | src/manager.rs:269-282 | no contract of its own: `complete_requirement` on snapshots; `CompleteRequirementOutcome` states its replies |
| Manager.AddRequirementSpec | src/manager.rs:283-298 | no contract of its own: `add_requirement` on snapshots; `AddRequirementAppends` states what it appends |
| Manager.RefreshEffects | src/manager.rs:330-362 | The result is the information computed after rollover, before any lock. On success, the process runs exactly when the state is not Unlocked, and then the timer is not Unlocked |
| Manager.RefreshNewDay | src/manager.rs:330-335 | on a date change, all requirements (incomplete) and ranges come from the config with fresh consecutive ids |
| Manager.RefreshSameDay | src/manager.rs:330-335 | on the same date, requirements, ranges and the counter are untouched |
| Manager.RolloverKeepsIdsFresh | src/manager.rs:299-321 | rollover keeps every id distinct and at most the counter |
| Manager.RefreshKeepsIdsFresh | src/manager.rs:330-362 | so does `refresh` |
| Manager.ConcludedKeepsIdsFresh | src/manager.rs:240-246 | so does concluding a request |
| Manager.UnlockTimerKeepsIdsFresh | src/manager.rs:234-252 | so does `unlock_timer` |
| Manager.LockTimerKeepsIdsFresh | src/manager.rs:253-263 | so does `lock_timer` |
| Manager.CompleteRequirementKeepsIdsFresh | src/manager.rs:269-282 | so does `complete_requirement` |
| Manager.AppendKeepsIdsFresh | src/manager.rs:290-295 | appending a requirement with the next id keeps ids fresh |
| Manager.AddRequirementKeepsIdsFresh | src/manager.rs:283-298 | so does `add_requirement` |
| Manager.RequestsKeepIdsFresh | src/manager.rs:373-385 | ids never repeat: every request keeps the ids in use distinct and at most the generator's counter |
| Manager.AddRequirementAppends | src/manager.rs:283-298 | After a successful refresh, appends one incomplete requirement with the next id, due at the given time today; ranges unchanged. The reply is Success unless the final refresh fails |
| Manager.UnlockTimerOutcome | src/manager.rs:234-252 | "Session is not unlockable." with no change unless the refreshed state is Unlockable. A refresh error is passed on. Success only when the refreshed timer was unlockable, then starting a work period from now |
| Manager.LockTimerOnlyWhenUnlocked | src/manager.rs:253-263 | "Break timer is not unlocked." unless the refreshed state is Unlocked; Success only from an Unlocked timer |
| Manager.CompleteRequirementOutcome | src/manager.rs:269-282 | after a successful refresh, requirements change as `CompleteIn` says; its failure message is the reply; success answers Success unless the final refresh fails |
| Client.PrevMinute | clients/diagonator_clients/deactivate_dmenu.py:43 | one minute earlier on the wall clock, wrapping from 00:00 to 23:59 |
| DeactivateChallenge.ShiftedHour | clients/diagonator_clients/deactivate_dmenu.py:22-24 | hours 0–3 become 24–27; the shifted hour is 4..27 and equals the hour modulo 24 |
| DeactivateChallenge.Rounded | clients/diagonator_clients/deactivate_dmenu.py:21-30 | Minute < 30 gives `:30` of the same hour; otherwise `:00` of the next hour, so the hour is 4..28. The value is strictly later by 1 to 30 minutes |
| DeactivateChallenge.RoundedIsNextBoundary | clients/diagonator_clients/deactivate_dmenu.py:21-30 | the rounded value is the earliest half-hour boundary strictly after the shifted time |
| DeactivateChallenge.RoundUp | clients/diagonator_clients/deactivate_dmenu.py:21-31 | two digits, `:`, `00` or `30`, whose value is the rounded time |
| DeactivateChallenge.RoundUpInjective | clients/diagonator_clients/deactivate_dmenu.py:31 | equal texts mean equal rounded times |
| DeactivateChallenge.RoundUpAfterMidnight | clients/diagonator_clients/deactivate_dmenu.py:22-31 | 01:10 gives "25:30" |
| DeactivateChallenge.Correct | clients/diagonator_clients/deactivate_dmenu.py:20-44 | no contract of its own: the answer is `round_up` of now or of one minute earlier; `SlackAtBoundaries` states when those differ |
| DeactivateChallenge.SlackAtBoundaries | clients/diagonator_clients/deactivate_dmenu.py:42-44 | the minute of slack adds a second accepted answer exactly at `:00` and `:30` |
| DeactivateChallenge.Script | clients/diagonator_clients/deactivate_dmenu.py:12-65 | Under two arguments it only exits. `Deactivate` is sent exactly when the answer is correct; otherwise it only prompts and prints "Incorrect answer.". A log row is written only with analytics on, after the `Deactivate` post |
| ExactChallenge.CorrectMeans | clients/deactivate_dmenu.py:29-41 | accepted exactly when the answer is the five-character `HH:MM` of now or of one minute earlier |
| ExactChallenge.MidnightSlack | clients/deactivate_dmenu.py:39-41 | at 00:00, "23:59" is accepted |
| ExactChallenge.Correct | clients/deactivate_dmenu.py:29-41 | no contract of its own: the answer is `%H:%M` of now or of one minute earlier; `CorrectMeans` and `MidnightSlack` state it |
| ExactChallenge.Script | clients/deactivate_dmenu.py:11-54 | under two arguments it exits before connecting; `Deactivate` is sent exactly when the answer is correct, otherwise "Incorrect answer." |
| RequirementPicker.Offered | clients/diagonator_clients/complete_requirement_dmenu.py:30 | exactly the incomplete requirements |
| RequirementPicker.OfferedAppend | clients/complete_requirement_dmenu.py:27-29 | the filter keeps the server's order |
| RequirementPicker.ByDueOrdered | clients/diagonator_clients/complete_requirement_dmenu.py:32 | the sorted offers are a permutation of the incomplete requirements, ordered by due time, stable for equal due times |
| RequirementPicker.Names | clients/diagonator_clients/complete_requirement_dmenu.py:37 | the selector's lines are the offers' names in order |
| RequirementPicker.FirstNamed | clients/diagonator_clients/complete_requirement_dmenu.py:44 | the first offer with exactly the chosen name, or none has it |
| RequirementPicker.Pick | clients/diagonator_clients/complete_requirement_dmenu.py:33-57 | No offers: "No incomplete requirements." only. `CompleteRequirement` is sent exactly for the first offer with the chosen name; with none, "not found" and nothing else. A log row is written only on Success |
| RequirementPicker.SortedScript | clients/diagonator_clients/complete_requirement_dmenu.py:28-59 | a non-Info reply is printed and nothing else happens; otherwise `Pick` over the sorted offers, with logging |
| RequirementPicker.ServerOrderScript | clients/complete_requirement_dmenu.py:23-55 | the same over a socket, offers in server order, never logging |
| RequirementPicker.SortedPickIsEarliest | clients/diagonator_clients/complete_requirement_dmenu.py:30-48 | the completed requirement is an incomplete one with the chosen name due no later than any other such |
| RequirementPicker.SortedScriptCompletesEarliest | clients/diagonator_clients/complete_requirement_dmenu.py:28-59 | the sorting client completes only an incomplete requirement with the chosen name due no later than any other such; it completes one whenever one exists; and a requirement due strictly before all other such ones is exactly the one completed |
| AutoComplete.CompletedNames | clients/diagonator_clients/update_requirements.py:5-12 | exactly the names logged with today's date |
| AutoComplete.ToComplete | clients/diagonator_clients/update_requirements.py:14-16 | exactly the incomplete requirements whose name is in that set |
| AutoComplete.ToCompleteAppend | clients/diagonator_clients/update_requirements.py:14-16 | selection is per requirement in server order, so requirements sharing a name each get a request |
| AutoComplete.Requests | clients/diagonator_clients/update_requirements.py:13-16 | `GetInfo`, then one `CompleteRequirement` per selected requirement, in order |
| AutoComplete.RequestedExactly | clients/diagonator_clients/update_requirements.py:14-16 | a requirement is requested exactly when incomplete and logged today; a complete one never is |
| Analytics.Classify | analytics/diagonator_analytics/main.py:22-24 | Unlockable exactly for state "Unlockable". RequirementNotMet and BreakTimer for that reason when not Unlockable; Locked Time Range for every other row |
| Analytics.InBucket | analytics/diagonator_analytics/main.py:30-35 | exactly the rows classified into the bucket |
| Analytics.BucketsPartition | analytics/diagonator_analytics/main.py:22-35 | the four buckets' sizes sum to the number of rows |
| Analytics.HourBin | analytics/diagonator_analytics/main.py:32-38 | a time of day in [0, 86400) falls in bin `time div 3600`, one of 24 |
| Analytics.BinCount | analytics/diagonator_analytics/main.py:30-38 | a bin never holds more rows than its bucket |
| Analytics.BinsCoverBucket | analytics/diagonator_analytics/main.py:30-38 | the 24 bins of a bucket count each of its rows once |

## Left out

- Unix-socket serving, threads, the shared mutex and JSON framing (src/server.rs). The request dispatch only forwards to the manager methods modelled here.
- Process management: spawning, killing and waiting for the locking program (src/manager.rs:342-360). Only "should be running" is kept, as the `running` flag. Polling with `try_wait` becomes the `exited` parameter of `CheckRunning` and `LockTimer`.
- The local timezone. `Timestamp::now` is a parameter. A date is a day number, `GetDate` is `secs div 86400`, and `FromDateHm` places a time of day on it. This is one concrete injective stand-in for the local-time conversion, with no DST or UTC offset.
- Integer widths. Ids (`u64`) and timestamps (`i64`) are unbounded, so counter overflow and timestamp overflow are not modelled.
- Unicode digits. Rust's `\d` also matches non-ASCII digits; only ASCII digits are modelled.
- src/config.rs and src/main.rs: configuration files and directory lookups.
- Errors of the request layer other than simulator failures (serialization, socket I/O).
- In the clients, HTTP, sockets, dmenu and sqlite are not modelled; they become parameters and recorded effects. Other parts of the clients are left out too:
  - parsing the duration argument (`int(sys.argv[1])` raising);
  - a missing analytics file in the sorting picker;
  - replies without the expected keys;
  - the reply texts printed by update_requirements.py.
- The thin wrapper clients, the controllers, the logger and the i3bar client.
- In analytics, plotting, float division and base64 are not modelled. The classifier works on abstract `(time, state, reason)` rows.
- Manager.RequestsKeepIdsFresh: the source promises that ids never repeat. This is stated as an invariant of the manager's state (distinct and at most the counter) that every request keeps. It is not stated as a property of a sequence of `next_id` results.
- Manager.OpenRangeLocked: assumes range ids are unique among the ranges. The manager's own state guarantees this (`RequestsKeepIdsFresh`), but the lemma takes it as a precondition.
- Manager.UnlockThenLock, Manager.UnlockTwice: stated for a positive work period only. With a zero or negative work period the fresh work period has already expired at `now`.
- RequirementPicker.SortedScriptCompletesEarliest: when several incomplete requirements with the chosen name share the earliest due time, it says only that one of them is completed, not that it is the first of them in the server's order. That order among equal due times is what `ByDueOrdered` states.
