# TimedDoor: a verified model of a door that reports being left open

This models the core of a small C++ component. It covers a `TimedDoor` that is locked or
unlocked, the `DoorTimerAdapter` through which a timer calls back into the door, and the
violation check `throwState`. That check fails while the door is open.

The model works on immutable values:

- `TimedDoors.TimedDoor` is a record. It holds the lock state `isOpened`, the timeout
  fixed at construction, and `pending`, the registrations the door has handed to the timer.
  Each registration is kept as the delay it carries.
- `Create`, `Unlock`, `Lock`, `ThrowState` and the adapter's `Timeout` are pure functions.
  A failing `throwState` is the value `Fail(DoorLeftOpen)`, not an exception.
- The timer is not a clock. `Unlock` appends one registration to `pending`, and a separate
  `Fire` step consumes the oldest one. `Fire` runs the adapter's callback against the door
  as it is at that moment. Every registration carries the same delay, so "oldest first" is
  the order the timers would expire in.
- `DoorTraces` runs any sequence of operations on one door (`Run`). A sequence can mix
  `lock`, `unlock`, the two reads, direct checks and `Fire` steps. `Run` returns the final
  door and one reply per operation.
- The reference definition `LastWrite` gives the lock state as the value written by the
  last `lock`/`unlock`. The trace lemmas relate `Run` to it, so a check after any
  interleaving is characterised exactly. A stale timer that fires after `lock` cannot fail.

`tregister` looks like fire-and-forget, but in src/TimedDoor.cpp:48-55 the future returned
by `std::async` is a discarded local whose destructor waits for the task. So `unlock` returns
only after its own callback has run with the door open, and the failure that callback raises
is kept in the future and dropped. Nothing is ever pending between two calls of the owner,
and a registration can never fire after a later `lock`.

The model admits more schedules than the code runs: `Unlock` leaves its registration pending
and a `Fire` step may be placed anywhere in a trace. The code's own schedule is the case where
every `Unlock` is immediately followed by the `Fire` of its registration (`DoorTraces.Blocking`).
`TimedDoors.UnlockWaitsForItsOwnCallback`, `DoorTraces.BlockingLeavesNothingPending` and
`DoorTraces.BlockingUnlockThenLockPasses` state what that schedule does. The lemmas about
stale registrations firing after `lock` hold for every schedule, so they hold for the code's
schedule too, where that case does not arise. In the model `unlock` never fails.

## Model

| member | source | states |
|---|---|---|
| TimedDoors.Create | src/TimedDoor.cpp:16-18 | a new door is closed, reports the constructor's timeout, and has issued no registration |
| TimedDoors.Unlock | src/TimedDoor.cpp:24-28 | unlock opens the door and appends exactly one registration carrying the configured timeout, even if the door was already open; earlier registrations and the timeout are untouched |
| TimedDoors.Lock | src/TimedDoor.cpp:30-32 | lock closes the door and changes nothing else; in particular no pending registration is cancelled |
| TimedDoors.ThrowState | src/TimedDoor.cpp:38-42 | the check fails if and only if the door is open, and the only failure is DoorLeftOpen |
| TimedDoors.Timeout | src/TimedDoor.cpp:10-14 | the adapter's callback fails if and only if the door is open, and always agrees with a direct throwState |
| TimedDoors.Fire | src/TimedDoor.cpp:48-55 | a firing consumes exactly one registration, the oldest; it fails exactly when the door is open at firing time; the lock state and timeout are unchanged |
| TimedDoors.ThrowStatePassesWhenCreated | test/tests.cpp:79-83 | throwState on a freshly constructed door does not fail |
| TimedDoors.ChecksPassAfterLock | src/TimedDoor.cpp:30-42 | after lock, from any state, neither throwState nor the adapter's callback fails |
| TimedDoors.ChecksFailAfterUnlock | test/tests.cpp:64-70 | after unlock, from any state, both throwState and the adapter's callback fail with DoorLeftOpen |
| TimedDoors.UnlockWaitsForItsOwnCallback | src/TimedDoor.cpp:48-55 | if unlock's own registration fires at once, as the blocking future forces, the callback fails, the door stays open and nothing is left pending |
| DoorTraces.Step | src/TimedDoor.cpp:10-42 | a single operation can fail only if it is a check and the door is open; only lock and unlock change the lock state; nothing changes the timeout |
| DoorTraces.ReadOpenedReportsLastWrite | src/TimedDoor.cpp:20-22 | isDoorOpened, read anywhere in a trace, reports the value written by the last lock/unlock before it (the initial state if none) |
| DoorTraces.ReadTimeOutReportsConfiguredTimeout | src/TimedDoor.cpp:34-36 | getTimeOut, read anywhere in a trace, reports the timeout the door was constructed with |
| DoorTraces.RunKeepsTimeout | src/TimedDoor.cpp:16-36 | no sequence of operations changes the timeout getTimeOut reports |
| DoorTraces.RunKeepsRegistrationsCarryTimeout | src/TimedDoor.cpp:24-28 | every registration issued over any sequence of operations carries the configured timeout |
| DoorTraces.RunOpenedIsLastWrite | src/TimedDoor.cpp:24-32 | after any sequence of operations the door is open exactly when the last lock/unlock was unlock (the initial state if there was none) |
| DoorTraces.CheckFailsIffLastWriteIsUnlock | src/TimedDoor.cpp:10-42 | in any trace, a direct throwState or adapter Timeout fails exactly when the last lock/unlock before it was unlock; a firing that finds a registration pending fails exactly then too; no other operation fails |
| DoorTraces.UnlocksAppendRegistrations | src/TimedDoor.cpp:24-32 | with no timer firing, n unlocks append exactly n registrations carrying the timeout, and lock removes none |
| DoorTraces.PendingCount | src/TimedDoor.cpp:24-32 | over any trace, pending registrations grow by exactly one per unlock and shrink by at most one per firing |
| DoorTraces.QueriesHaveNoEffect | src/TimedDoor.cpp:20-36 | isDoorOpened and getTimeOut have no side effect: removing them from any trace leaves the final door the same |
| DoorTraces.ClosedDoorNeverFails | src/TimedDoor.cpp:30-42 | from a closed door, a trace without unlock never fails, however many stale registrations fire, and the door stays closed |
| DoorTraces.StaleTimerAfterLockIsHarmless | test/tests.cpp:56-62 | construct, unlock, lock, fire any number of registrations, then throwState: no step fails (a schedule the model admits beyond the code's) |
| DoorTraces.BlockingLeavesNothingPending | src/TimedDoor.cpp:48-55 | when every unlock's registration fires before unlock returns, nothing is ever left pending and the lock state and timeout end as with the registrations left pending |
| DoorTraces.BlockingUnlockThenLockPasses | test/tests.cpp:56-62 | in the code's own schedule for unlock, lock, wait, check, the firing inside unlock fails and the check after lock passes |
| DoorTraces.LeftOpenDoorFails | test/tests.cpp:49-54 | construct, unlock, fire any number of registrations, then throwState: the check fails with DoorLeftOpen |

## Left out

- Real time: `Timer::sleep` and the delays inside the timer task (src/TimedDoor.cpp:44-46, 52) are not modelled. A registration fires only when a trace contains a `Fire` step. The model says nothing about when, in seconds, a firing happens.
- TimedDoors.Unlock: leaves its registration pending instead of firing it before returning, so traces may fire a registration after a later `lock` or never; the code as written always fires it inside `unlock` (src/TimedDoor.cpp:48-55). This admits more schedules than the code runs, and `DoorTraces.Blocking` picks out the code's own schedule.
- Concurrency: the model is sequential. The timer task's thread and its future are not modelled. A firing is an atomic step between two operations of the owning context. As written there is no data race on the lock state: the launch synchronizes with the task, and the owner stays blocked in the future's destructor while the task reads it. So the adapter's two reads of the lock state can never disagree, and `TimedDoors.Timeout` always equals `TimedDoors.ThrowState`.
- The fate of a fired callback's failure: `Fire` and the `Fire` step of a trace return the failure. In the source it is stored in the discarded future and reaches nobody.
- Heap allocation of the adapter and of each `Timer` (src/TimedDoor.cpp:17, 26) is memory management, not behaviour, and is left out. The client of a registration is always the door's own adapter, so a registration records only its delay.
- The `Door` and `TimerClient` interfaces and their dynamic dispatch are left out. There is one concrete door. The mock doubles and the mock door cast to a `TimedDoor` in test/tests.cpp are test plumbing.
- The exception type and its message are left out. A failure is the single value `DoorLeftOpen`.
- `Timer::tregister` used on its own, with a client other than the door's adapter (test/tests.cpp:41-47, 72-77), is left out. The model knows only registrations made by `unlock`.
- Timeout validation: the source does not check that the timeout is positive, so the model accepts any integer. The C++ `int` width does not matter because the timeout is only stored and copied, never computed with.
