/**
 A door that reports a violation when it is left open past its timeout.

 The door is an immutable record. Every operation of the door and of its
 timer adapter is a pure transition from one record to the next. The timer
 is not a clock: each registration it receives is kept in `pending`, in
 order, and a separate `Fire` step delivers the oldest one to the adapter.
 */
module TimedDoors {

  /** The single failure of the system: the door was found open by a check. */
  datatype DoorError = DoorLeftOpen

  /** What a check returns to the context that ran it. */
  datatype Outcome = Pass | Fail(error: DoorError)

  /**
   The state of one door.
   - `isOpened` is the lock state, the only thing `lock` and `unlock` change;
   - `timeout` is the delay in seconds fixed at construction;
   - `pending` holds, oldest first, the delay of every timer registration the
     door has issued and that has not fired yet. The client of every
     registration is this door's own adapter, so only the delay is kept.
   */
  datatype TimedDoor = TimedDoor(isOpened: bool, timeout: int, pending: seq<int>)

  /** Every pending registration carries the door's configured timeout. */
  predicate RegistrationsCarryTimeout(d: TimedDoor)
  {
    forall k :: 0 <= k < |d.pending| ==> d.pending[k] == d.timeout
  }

  /** A door after construction: closed, with the given timeout, nothing registered. */
  function Create(timeout: int): (d: TimedDoor)
    ensures !IsDoorOpened(d)
    ensures GetTimeOut(d) == timeout
    ensures d.pending == []
    ensures RegistrationsCarryTimeout(d)
  {
    TimedDoor(false, timeout, [])
  }

  /** Reads the lock state. */
  function IsDoorOpened(d: TimedDoor): bool
  {
    d.isOpened
  }

  /** Reads the configured timeout. */
  function GetTimeOut(d: TimedDoor): int
  {
    d.timeout
  }

  /**
   Opens the door and registers exactly one timer callback carrying the
   configured timeout, whether or not the door was already open.
   */
  function Unlock(d: TimedDoor): (d': TimedDoor)
    ensures IsDoorOpened(d')
    ensures d'.timeout == d.timeout
    ensures |d'.pending| == |d.pending| + 1
    ensures d'.pending[..|d.pending|] == d.pending
    ensures d'.pending[|d.pending|] == d.timeout
    ensures RegistrationsCarryTimeout(d) ==> RegistrationsCarryTimeout(d')
  {
    d.(isOpened := true, pending := d.pending + [d.timeout])
  }

  /** Closes the door. Nothing already registered is cancelled. */
  function Lock(d: TimedDoor): (d': TimedDoor)
    ensures !IsDoorOpened(d')
    ensures d'.timeout == d.timeout && d'.pending == d.pending
    ensures d'.(isOpened := d.isOpened) == d
  {
    d.(isOpened := false)
  }

  /** The violation check: fails exactly when the door is open. */
  function ThrowState(d: TimedDoor): (r: Outcome)
    ensures r.Fail? <==> IsDoorOpened(d)
    ensures r.Fail? ==> r.error == DoorLeftOpen
  {
    if d.isOpened then Fail(DoorLeftOpen) else Pass
  }

  /**
   The adapter's timer callback: it looks at the door first and runs the
   violation check only when it saw the door open.
   */
  function Timeout(d: TimedDoor): (r: Outcome)
    ensures r.Fail? <==> IsDoorOpened(d)
    ensures r == ThrowState(d)
  {
    if IsDoorOpened(d) then ThrowState(d) else Pass
  }

  /**
   The oldest pending registration fires: it is consumed, and the adapter's
   callback runs against the door as it is now, not as it was when the
   registration was made. The callback changes nothing in the door.
   */
  function Fire(d: TimedDoor): (result: (TimedDoor, Outcome))
    requires d.pending != []
    ensures result.0.isOpened == d.isOpened && result.0.timeout == d.timeout
    ensures result.0.pending == d.pending[1..]
    ensures result.1.Fail? <==> IsDoorOpened(d)
    ensures RegistrationsCarryTimeout(d) ==> RegistrationsCarryTimeout(result.0)
  {
    (d.(pending := d.pending[1..]), Timeout(d))
  }

  /** `throwState` right after construction never fails. */
  lemma ThrowStatePassesWhenCreated(timeout: int)
    ensures ThrowState(Create(timeout)) == Pass
  {
  }

  /** After `lock` neither the check nor the adapter's callback fails, whatever the prior state. */
  lemma ChecksPassAfterLock(d: TimedDoor)
    ensures ThrowState(Lock(d)) == Pass
    ensures Timeout(Lock(d)) == Pass
  {
  }

  /** After `unlock` both the check and the adapter's callback fail, whatever the prior state. */
  lemma ChecksFailAfterUnlock(d: TimedDoor)
    ensures ThrowState(Unlock(d)) == Fail(DoorLeftOpen)
    ensures Timeout(Unlock(d)) == Fail(DoorLeftOpen)
  {
  }

  /**
   As the timer is written, the future returned by the asynchronous launch is
   a local that is destroyed before registration returns, and its destruction
   waits for the task. So the registration made by `unlock` fires before
   `unlock` returns, with the door open; the callback fails and the failure is
   kept in the discarded future. Starting from a door with nothing pending,
   that schedule leaves the door open with nothing pending.
   */
  lemma UnlockWaitsForItsOwnCallback(d: TimedDoor)
    requires d.pending == []
    ensures Fire(Unlock(d)) == (TimedDoor(true, d.timeout, []), Fail(DoorLeftOpen))
  {
  }
}
