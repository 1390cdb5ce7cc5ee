/**
 Sequences of door operations, run one after another on one door.

 A trace interleaves the calls the owning context makes (`lock`, `unlock`,
 the two reads, a direct `throwState`, a direct call of the adapter's
 `Timeout`) with the firing of pending timer registrations. Running a trace
 yields the final door and one reply per operation.
 */
module DoorTraces {
  import opened TimedDoors

  /** One operation on the door, or the firing of the oldest registration. */
  datatype Op = DoUnlock | DoLock | ReadOpened | ReadTimeOut | CheckState | CallAdapter | FireTimer

  /** What one operation returns to whoever ran it. */
  datatype Reply = Done | Opened(value: bool) | Seconds(seconds: int) | Checked(outcome: Outcome)

  /** The final door and the replies, one per operation, in order. */
  datatype Trace = Trace(door: TimedDoor, log: seq<Reply>)

  /** The operations that run the violation check. */
  predicate IsCheck(op: Op)
  {
    op == CheckState || op == CallAdapter || op == FireTimer
  }

  /** The operations that only read the door. */
  predicate IsQuery(op: Op)
  {
    op == ReadOpened || op == ReadTimeOut
  }

  /** A reply that reports a violation. */
  predicate IsFailure(r: Reply)
  {
    r.Checked? && r.outcome.Fail?
  }

  /**
   One operation. A firing with nothing pending has no timer to deliver: no
   callback runs, so it replies `Done` and changes nothing.
   */
  function Step(d: TimedDoor, op: Op): (result: (TimedDoor, Reply))
    ensures IsFailure(result.1) ==> IsCheck(op) && IsDoorOpened(d)
    ensures op != DoUnlock && op != DoLock ==> IsDoorOpened(result.0) == IsDoorOpened(d)
    ensures GetTimeOut(result.0) == GetTimeOut(d)
    ensures result.1.Checked? <==> IsCheck(op) && (op == FireTimer ==> d.pending != [])
  {
    match op
    case DoUnlock => (Unlock(d), Done)
    case DoLock => (Lock(d), Done)
    case ReadOpened => (d, Opened(IsDoorOpened(d)))
    case ReadTimeOut => (d, Seconds(GetTimeOut(d)))
    case CheckState => (d, Checked(ThrowState(d)))
    case CallAdapter => (d, Checked(Timeout(d)))
    case FireTimer =>
      if d.pending == [] then (d, Done)
      else
        var (d', out) := Fire(d);
        (d', Checked(out))
  }

  /** Runs the operations in order from door `d`. */
  function Run(d: TimedDoor, ops: seq<Op>): (t: Trace)
    ensures |t.log| == |ops|
    decreases |ops|
  {
    if ops == [] then Trace(d, [])
    else
      var (d1, reply) := Step(d, ops[0]);
      var rest := Run(d1, ops[1..]);
      Trace(rest.door, [reply] + rest.log)
  }

  /**
   Reference definition of the lock state after `ops`: the value written by
   the last `lock` or `unlock` among them, or `init` when there is none.
   */
  function LastWrite(init: bool, ops: seq<Op>): bool
  {
    if ops == [] then init
    else if ops[|ops| - 1] == DoUnlock then true
    else if ops[|ops| - 1] == DoLock then false
    else LastWrite(init, ops[..|ops| - 1])
  }

  /** How many `unlock` calls `ops` holds. */
  function Unlocks(ops: seq<Op>): nat
  {
    if ops == [] then 0 else (if ops[0] == DoUnlock then 1 else 0) + Unlocks(ops[1..])
  }

  /** How many `Fire` steps `ops` holds. */
  function Fires(ops: seq<Op>): nat
  {
    if ops == [] then 0 else (if ops[0] == FireTimer then 1 else 0) + Fires(ops[1..])
  }

  /** `ops` without its read-only operations. */
  function WithoutQueries(ops: seq<Op>): (r: seq<Op>)
    ensures |r| <= |ops|
    ensures forall k :: 0 <= k < |r| ==> !IsQuery(r[k])
  {
    if ops == [] then []
    else if IsQuery(ops[0]) then WithoutQueries(ops[1..])
    else [ops[0]] + WithoutQueries(ops[1..])
  }

  /** Running `a + b` is running `a`, then running `b` from where `a` left the door. */
  lemma {:induction false} RunAppend(d: TimedDoor, a: seq<Op>, b: seq<Op>)
    ensures Run(d, a + b).door == Run(Run(d, a).door, b).door
    ensures Run(d, a + b).log == Run(d, a).log + Run(Run(d, a).door, b).log
    decreases |a|
  {
    if a == [] {
      assert a + b == b;
    } else {
      var d1 := Step(d, a[0]).0;
      assert (a + b)[1..] == a[1..] + b;
      RunAppend(d1, a[1..], b);
    }
  }

  /** No operation changes the configured timeout. */
  lemma {:induction false} RunKeepsTimeout(d: TimedDoor, ops: seq<Op>)
    ensures GetTimeOut(Run(d, ops).door) == GetTimeOut(d)
    decreases |ops|
  {
    if ops != [] {
      RunKeepsTimeout(Step(d, ops[0]).0, ops[1..]);
    }
  }

  /** Every registration ever issued carries the configured timeout. */
  lemma {:induction false} RunKeepsRegistrationsCarryTimeout(d: TimedDoor, ops: seq<Op>)
    requires RegistrationsCarryTimeout(d)
    ensures RegistrationsCarryTimeout(Run(d, ops).door)
    decreases |ops|
  {
    if ops != [] {
      RunKeepsRegistrationsCarryTimeout(Step(d, ops[0]).0, ops[1..]);
    }
  }

  /** The lock state after a trace is the last value written to it: last write wins. */
  lemma {:induction false} RunOpenedIsLastWrite(d: TimedDoor, ops: seq<Op>)
    ensures IsDoorOpened(Run(d, ops).door) == LastWrite(IsDoorOpened(d), ops)
    decreases |ops|
  {
    if ops != [] {
      var front := ops[..|ops| - 1];
      assert ops == front + [ops[|ops| - 1]];
      RunAppend(d, front, [ops[|ops| - 1]]);
      RunOpenedIsLastWrite(d, front);
    }
  }

  /** The reply to the `i`-th operation is that operation's reply on the door the first `i` left. */
  lemma ReplyAt(d: TimedDoor, ops: seq<Op>, i: int)
    requires 0 <= i < |ops|
    ensures Run(d, ops).log[i] == Step(Run(d, ops[..i]).door, ops[i]).1
  {
    assert ops == ops[..i] + ops[i..];
    RunAppend(d, ops[..i], ops[i..]);
  }

  /**
   The violation semantics of a whole trace. A direct `throwState` or a direct
   adapter `Timeout` fails exactly when the last `lock`/`unlock` before it was
   `unlock`. A firing that finds a registration pending fails exactly then
   too: a check made stale by a later `lock` reads the current closed state.
   Nothing else ever fails.
   */
  lemma CheckFailsIffLastWriteIsUnlock(d: TimedDoor, ops: seq<Op>, i: int)
    requires 0 <= i < |ops|
    ensures IsFailure(Run(d, ops).log[i]) ==> IsCheck(ops[i]) && LastWrite(IsDoorOpened(d), ops[..i])
    ensures (ops[i] == CheckState || ops[i] == CallAdapter) ==>
              (IsFailure(Run(d, ops).log[i]) <==> LastWrite(IsDoorOpened(d), ops[..i]))
    ensures ops[i] == FireTimer && Run(d, ops[..i]).door.pending != [] ==>
              (IsFailure(Run(d, ops).log[i]) <==> LastWrite(IsDoorOpened(d), ops[..i]))
  {
    ReplyAt(d, ops, i);
    RunOpenedIsLastWrite(d, ops[..i]);
  }

  /** `isDoorOpened` in a trace reports the value the last `lock`/`unlock` before it wrote. */
  lemma ReadOpenedReportsLastWrite(d: TimedDoor, ops: seq<Op>, i: int)
    requires 0 <= i < |ops| && ops[i] == ReadOpened
    ensures Run(d, ops).log[i] == Opened(LastWrite(IsDoorOpened(d), ops[..i]))
  {
    ReplyAt(d, ops, i);
    RunOpenedIsLastWrite(d, ops[..i]);
  }

  /** `getTimeOut` in a trace always reports the timeout the door started with. */
  lemma ReadTimeOutReportsConfiguredTimeout(d: TimedDoor, ops: seq<Op>, i: int)
    requires 0 <= i < |ops| && ops[i] == ReadTimeOut
    ensures Run(d, ops).log[i] == Seconds(GetTimeOut(d))
  {
    ReplyAt(d, ops, i);
    RunKeepsTimeout(d, ops[..i]);
  }

  /**
   Without `Fire` steps every `unlock` appends one registration carrying the
   timeout to the end of `pending`, and nothing else touches it: n unlocks,
   n registrations, no cancellation.
   */
  lemma {:induction false} UnlocksAppendRegistrations(d: TimedDoor, ops: seq<Op>)
    requires Fires(ops) == 0
    ensures Run(d, ops).door.pending == d.pending + seq(Unlocks(ops), _ => d.timeout)
    decreases |ops|
  {
    if ops != [] {
      var d1 := Step(d, ops[0]).0;
      UnlocksAppendRegistrations(d1, ops[1..]);
      RunKeepsTimeout(d1, ops[1..]);
    }
  }

  /**
   With `Fire` steps, the number of pending registrations grows by one per
   `unlock` and shrinks by at most one per `Fire`.
   */
  lemma {:induction false} PendingCount(d: TimedDoor, ops: seq<Op>)
    ensures |Run(d, ops).door.pending| <= |d.pending| + Unlocks(ops)
    ensures |d.pending| + Unlocks(ops) <= |Run(d, ops).door.pending| + Fires(ops)
    decreases |ops|
  {
    if ops != [] {
      PendingCount(Step(d, ops[0]).0, ops[1..]);
    }
  }

  /** The reads have no side effect: dropping them from a trace leaves the final door as it was. */
  lemma {:induction false} QueriesHaveNoEffect(d: TimedDoor, ops: seq<Op>)
    ensures Run(d, WithoutQueries(ops)).door == Run(d, ops).door
    decreases |ops|
  {
    if ops != [] {
      var d1 := Step(d, ops[0]).0;
      QueriesHaveNoEffect(d1, ops[1..]);
      if !IsQuery(ops[0]) {
        assert ([ops[0]] + WithoutQueries(ops[1..]))[1..] == WithoutQueries(ops[1..]);
      }
    }
  }

  /**
   A closed door that is never unlocked again never reports a violation,
   however many stale registrations fire and however often it is checked.
   */
  lemma {:induction false} ClosedDoorNeverFails(d: TimedDoor, ops: seq<Op>)
    requires !IsDoorOpened(d)
    requires Unlocks(ops) == 0
    ensures forall k :: 0 <= k < |ops| ==> !IsFailure(Run(d, ops).log[k])
    ensures !IsDoorOpened(Run(d, ops).door)
    decreases |ops|
  {
    if ops != [] {
      var d1 := Step(d, ops[0]).0;
      ClosedDoorNeverFails(d1, ops[1..]);
    }
  }

  /** `n` operations that are all `Fire`. */
  function FireAll(n: nat): (ops: seq<Op>)
    ensures |ops| == n && Unlocks(ops) == 0 && Fires(ops) == n
    ensures forall k :: 0 <= k < n ==> ops[k] == FireTimer
  {
    if n == 0 then [] else [FireTimer] + FireAll(n - 1)
  }

  /**
   Unlock, lock, let any number of registrations fire, then check: nothing
   fails, because every callback reads the closed state.
   */
  lemma StaleTimerAfterLockIsHarmless(timeout: int, n: nat)
    ensures var ops := [DoUnlock, DoLock] + FireAll(n) + [CheckState];
            forall k :: 0 <= k < |ops| ==> !IsFailure(Run(Create(timeout), ops).log[k])
  {
    var ops := [DoUnlock, DoLock] + FireAll(n) + [CheckState];
    var closed := Run(Create(timeout), [DoUnlock, DoLock]).door;
    assert [DoUnlock, DoLock][1..] == [DoLock] && [DoLock][1..] == [];
    assert closed == Lock(Unlock(Create(timeout)));
    assert ops == [DoUnlock, DoLock] + (FireAll(n) + [CheckState]);
    RunAppend(Create(timeout), [DoUnlock, DoLock], FireAll(n) + [CheckState]);
    UnlocksOfAppend(FireAll(n), [CheckState]);
    ClosedDoorNeverFails(closed, FireAll(n) + [CheckState]);
  }

  /**
   Unlock, let any number of registrations fire, then check: the check fails,
   because nothing closed the door.
   */
  lemma LeftOpenDoorFails(timeout: int, n: nat)
    ensures var ops := [DoUnlock] + FireAll(n) + [CheckState];
            Run(Create(timeout), ops).log[|ops| - 1] == Checked(Fail(DoorLeftOpen))
  {
    var ops := [DoUnlock] + FireAll(n) + [CheckState];
    var i := |ops| - 1;
    CheckFailsIffLastWriteIsUnlock(Create(timeout), ops, i);
    assert ops[..i] == [DoUnlock] + FireAll(n);
    assert ops[i] == CheckState;
    LastWriteSkipsChecks(false, [DoUnlock], FireAll(n));
    assert LastWrite(false, [DoUnlock]);
  }

  /** Operations other than `lock` and `unlock` leave the last written value alone. */
  lemma {:induction false} LastWriteSkipsChecks(init: bool, a: seq<Op>, b: seq<Op>)
    requires forall k :: 0 <= k < |b| ==> b[k] != DoUnlock && b[k] != DoLock
    ensures LastWrite(init, a + b) == LastWrite(init, a)
    decreases |b|
  {
    if b == [] {
      assert a + b == a;
    } else {
      var front := b[..|b| - 1];
      assert (a + b)[..|a + b| - 1] == a + front;
      assert (a + b)[|a + b| - 1] == b[|b| - 1];
      LastWriteSkipsChecks(init, a, front);
    }
  }

  /** Counting unlocks distributes over concatenation. */
  lemma {:induction false} UnlocksOfAppend(a: seq<Op>, b: seq<Op>)
    ensures Unlocks(a + b) == Unlocks(a) + Unlocks(b)
    decreases |a|
  {
    if a == [] {
      assert a + b == b;
    } else {
      assert (a + b)[1..] == a[1..] + b;
      UnlocksOfAppend(a[1..], b);
    }
  }

  /**
   The schedule the timer as written imposes: the future returned by the
   asynchronous launch is a local of the registration call, and destroying it
   waits for the task, so every `unlock` is followed by the firing of its own
   registration before anything else happens.
   */
  function Blocking(ops: seq<Op>): (r: seq<Op>)
    ensures Unlocks(r) == Unlocks(ops) && Fires(r) == Fires(ops) + Unlocks(ops)
  {
    if ops == [] then []
    else if ops[0] == DoUnlock then [DoUnlock, FireTimer] + Blocking(ops[1..])
    else [ops[0]] + Blocking(ops[1..])
  }

  /**
   Under the blocking schedule nothing is ever left pending, and the lock state
   and timeout end as they would with every registration left pending: the
   extra firings change only `pending`.
   */
  lemma {:induction false} BlockingLeavesNothingPending(d: TimedDoor, e: TimedDoor, ops: seq<Op>)
    requires d.pending == [] && d.(pending := e.pending) == e
    requires Fires(ops) == 0
    ensures Run(d, Blocking(ops)).door == Run(e, ops).door.(pending := [])
    decreases |ops|
  {
    if ops != [] {
      var rest := Blocking(ops[1..]);
      if ops[0] == DoUnlock {
        var b := [DoUnlock, FireTimer] + rest;
        assert b[1..] == [FireTimer] + rest && ([FireTimer] + rest)[1..] == rest;
        BlockingLeavesNothingPending(Fire(Unlock(d)).0, Unlock(e), ops[1..]);
      } else {
        assert ([ops[0]] + rest)[1..] == rest;
        BlockingLeavesNothingPending(Step(d, ops[0]).0, Step(e, ops[0]).0, ops[1..]);
      }
    }
  }

  /**
   Unlock, lock, wait, check, as the timer is written: the registration fires
   inside `unlock`, with the door open, and fails; the check after `lock`
   passes.
   */
  lemma BlockingUnlockThenLockPasses(timeout: int)
    ensures Blocking([DoUnlock, DoLock, CheckState]) == [DoUnlock, FireTimer, DoLock, CheckState]
    ensures Run(Create(timeout), [DoUnlock, FireTimer, DoLock, CheckState]).log
              == [Done, Checked(Fail(DoorLeftOpen)), Done, Checked(Pass)]
  {
    var ops := [DoUnlock, FireTimer, DoLock, CheckState];
    assert [DoUnlock, DoLock, CheckState][1..] == [DoLock, CheckState];
    assert [DoLock, CheckState][1..] == [CheckState];
    assert ops[1..] == [FireTimer, DoLock, CheckState];
    assert ops[1..][1..] == [DoLock, CheckState];
    assert ops[1..][1..][1..] == [CheckState];
  }
}
