/**
 waitForAudioToFinishTimeout (TTSSpeaker.cpp:829-885): the loop that waits for the end of
 an utterance and gives up when nothing seems to move. Time is a count of nanoseconds on an
 abstract clock; what the loop finds out in each turn is an observation.
 */
module Watchdog {

  import opened Wrappers

  /**
   One turn: the clock at the loop guard, at the wake-up, when it is compared with the
   duration, and when a new timeout is set; the flags at the wake-up; a duration message
   that came in meanwhile; and the stream position (zero when the query failed).
   */
  datatype Obs = Obs(
    guardAt: nat, wakeAt: nat, compareAt: nat, extendAt: nat,
    interrupted: bool, eos: bool, paused: bool, message: Option<int>, position: int)

  datatype Watch = Watch(start: nat, timeoutAt: nat, duration: int, lastPosition: int)

  datatype Reason = TimedOut | Stopped

  datatype Turn = Goes(w: Watch) | Leaves(reason: Reason)

  function DurationNow(w: Watch, o: Obs): int {
    if o.message.Some? then o.message.value else w.duration
  }

  // The clip has a known duration that is not over.
  predicate Unreached(w: Watch, o: Obs) {
    DurationNow(w, o) > 0 && o.compareAt < w.start + DurationNow(w, o)
  }

  predicate Advanced(w: Watch, o: Obs) {
    o.position > 0 && o.position > w.lastPosition
  }

  // Reasons to wait for another full timeout.
  predicate Alive(w: Watch, o: Obs) {
    o.paused || Unreached(w, o) || Advanced(w, o)
  }

  function TakeTurn(w: Watch, o: Obs, limit: nat): Turn {
    if w.timeoutAt <= o.guardAt then Leaves(TimedOut)
    else if o.interrupted || o.eos then Leaves(Stopped)
    else
      var d := DurationNow(w, o);
      if o.paused || Unreached(w, o) then Goes(w.(duration := d, timeoutAt := o.extendAt + limit))
      else if Advanced(w, o) then
        Goes(w.(duration := 0, timeoutAt := o.extendAt + limit, lastPosition := o.position))
      else Goes(w.(duration := 0))
  }

  // The clock does not run backwards, and a wait ends early only for a reason.
  predicate Genuine(w: Watch, o: Obs) {
    && o.guardAt <= o.wakeAt <= o.compareAt <= o.extendAt
    && (o.interrupted || o.eos || o.wakeAt >= w.timeoutAt)
  }

  // The state before turn n, if the loop is still running then.
  function Before(w: Watch, obs: nat -> Obs, limit: nat, n: nat): Option<Watch> {
    if n == 0 then Some(w)
    else
      var b := Before(w, obs, limit, n - 1);
      if b == None then None
      else
        var t := TakeTurn(b.value, obs(n - 1), limit);
        if t.Goes? then Some(t.w) else None
  }

  predicate InOrder(obs: nat -> Obs, n: nat) {
    obs(n).extendAt <= obs(n + 1).guardAt
  }

  predicate TurnOk(w: Watch, obs: nat -> Obs, limit: nat, n: nat) {
    var b := Before(w, obs, limit, n);
    b.Some? ==>
      && obs(n).guardAt <= obs(n).wakeAt <= obs(n).compareAt <= obs(n).extendAt
      && (b.value.timeoutAt <= obs(n).guardAt || Genuine(b.value, obs(n)))
  }

  ghost predicate Plausible(w: Watch, obs: nat -> Obs, limit: nat) {
    && w.start <= obs(0).guardAt
    && (forall n: nat :: InOrder(obs, n))
    && (forall n: nat :: TurnOk(w, obs, limit, n))
  }

  // Not paused, the duration as it was, the position bounded.
  predicate Calm(o: Obs, bound: int) {
    !o.paused && o.message == None && o.position <= bound
  }

  function Fresh(start: nat, duration: int, limit: nat): Watch {
    Watch(start, start + limit, duration, 0)
  }

  // ---------------------------------------------------------------------------------
  // The same, told from what was observed
  // ---------------------------------------------------------------------------------

  // The turn looks at a known duration and finds it over, or none.
  predicate RanOut(start: nat, known: int, o: Obs) {
    !o.paused && (known <= 0 || start + known <= o.compareAt)
  }

  // The duration known at the comparison of turn n: the last one that came in, unless it was found over since.
  function Known(start: nat, duration: int, obs: nat -> Obs, n: nat): int
    decreases n, 1
  {
    if obs(n).message.Some? then obs(n).message.value else Left(start, duration, obs, n)
  }

  // What is left of it when turn n begins.
  function Left(start: nat, duration: int, obs: nat -> Obs, n: nat): int
    decreases n, 0
  {
    if n == 0 then duration
    else if RanOut(start, Known(start, duration, obs, n - 1), obs(n - 1)) then 0
    else Known(start, duration, obs, n - 1)
  }

  // The furthest position that a turn before n has looked at; one that waits for a pause or a duration does not look.
  function Furthest(start: nat, duration: int, obs: nat -> Obs, n: nat): nat {
    if n == 0 then 0 else
      var before := Furthest(start, duration, obs, n - 1);
      var o := obs(n - 1);
      if RanOut(start, Known(start, duration, obs, n - 1), o) && o.position > before then o.position else before
  }

  // Turn n finds a pause, a known duration that is not over, or progress.
  predicate SignOfLife(start: nat, duration: int, obs: nat -> Obs, n: nat) {
    || !RanOut(start, Known(start, duration, obs, n), obs(n))
    || obs(n).position > Furthest(start, duration, obs, n)
  }

  // The moment of the last sign of life before turn n, or the start.
  function Since(start: nat, duration: int, obs: nat -> Obs, n: nat): nat {
    if n == 0 then start
    else if SignOfLife(start, duration, obs, n - 1) then obs(n - 1).extendAt
    else Since(start, duration, obs, n - 1)
  }

  predicate Overdue(start: nat, duration: int, obs: nat -> Obs, limit: nat, n: nat) {
    Since(start, duration, obs, n) + limit <= obs(n).guardAt
  }

  predicate Ended(o: Obs) { o.interrupted || o.eos }

  // Turn n does not leave.
  predicate Passes(start: nat, duration: int, obs: nat -> Obs, limit: nat, n: nat) {
    !Overdue(start, duration, obs, limit, n) && !Ended(obs(n))
  }

  ghost predicate StillRunning(start: nat, duration: int, obs: nat -> Obs, limit: nat, n: nat) {
    forall i: nat :: i < n ==> Passes(start, duration, obs, limit, i)
  }

  // What the observations say that the loop holds when turn n begins.
  function Observed(start: nat, duration: int, obs: nat -> Obs, limit: nat, n: nat): Watch {
    Watch(start, Since(start, duration, obs, n) + limit, Left(start, duration, obs, n),
          Furthest(start, duration, obs, n))
  }

  // The last duration message up to turn n is that of turn i.
  predicate LastMessage(obs: nat -> Obs, i: nat, n: nat) {
    i <= n && obs(i).message.Some? && forall j: nat :: i < j <= n ==> obs(j).message == None
  }

  ghost predicate FoundOver(start: nat, known: int, obs: nat -> Obs, i: nat, n: nat) {
    exists j: nat :: i <= j < n && RanOut(start, known, obs(j))
  }

  /** The known duration is the one of the last message, or zero once a turn has found that one over. */
  lemma {:induction false} KnownFromMessages(start: nat, duration: int, obs: nat -> Obs, i: nat, n: nat)
    requires LastMessage(obs, i, n)
    ensures var d := obs(i).message.value;
      Known(start, duration, obs, n) == if FoundOver(start, d, obs, i, n) then 0 else d
  {
    if i < n {
      var d := obs(i).message.value;
      KnownFromMessages(start, duration, obs, i, n - 1);
      assert obs(n).message == None;
      if FoundOver(start, d, obs, i, n - 1) {
        var j: nat :| i <= j < n - 1 && RanOut(start, d, obs(j));
        assert FoundOver(start, d, obs, i, n);
      } else if RanOut(start, d, obs(n - 1)) {
        assert FoundOver(start, d, obs, i, n);
      }
    }
  }

  // One turn of a loop that holds what was observed.
  lemma ObservedTurn(start: nat, duration: int, obs: nat -> Obs, limit: nat, n: nat)
    ensures Alive(Observed(start, duration, obs, limit, n), obs(n)) <==> SignOfLife(start, duration, obs, n)
    ensures TakeTurn(Observed(start, duration, obs, limit, n), obs(n), limit) ==
      if Overdue(start, duration, obs, limit, n) then Leaves(TimedOut)
      else if Ended(obs(n)) then Leaves(Stopped)
      else Goes(Observed(start, duration, obs, limit, n + 1))
  {
  }

  lemma OneMoreTurn(start: nat, duration: int, obs: nat -> Obs, limit: nat, n: nat)
    ensures StillRunning(start, duration, obs, limit, n + 1) <==>
      StillRunning(start, duration, obs, limit, n) && Passes(start, duration, obs, limit, n)
  {
  }

  /** In every turn the loop holds the timeout, the duration and the position that the observations give. */
  lemma {:induction false} HoldsWhatWasObserved(start: nat, duration: int, obs: nat -> Obs, limit: nat, n: nat)
    ensures Before(Fresh(start, duration, limit), obs, limit, n) ==
      if StillRunning(start, duration, obs, limit, n) then Some(Observed(start, duration, obs, limit, n)) else None
  {
    if n > 0 {
      HoldsWhatWasObserved(start, duration, obs, limit, n - 1);
      OneMoreTurn(start, duration, obs, limit, n - 1);
      ObservedTurn(start, duration, obs, limit, n - 1);
    }
  }

  /** The timeout always runs from the start or from the last sign of life. */
  lemma TimeoutRunsSince(start: nat, duration: int, obs: nat -> Obs, limit: nat, n: nat)
    requires Before(Fresh(start, duration, limit), obs, limit, n).Some?
    ensures var b := Before(Fresh(start, duration, limit), obs, limit, n);
      b.value.timeoutAt == Since(start, duration, obs, n) + limit
  {
    HoldsWhatWasObserved(start, duration, obs, limit, n);
  }

  predicate ClockRuns(start: nat, obs: nat -> Obs, n: nat) {
    && (n == 0 ==> start <= obs(0).guardAt)
    && obs(n).guardAt <= obs(n).wakeAt <= obs(n).compareAt <= obs(n).extendAt
    && obs(n).extendAt <= obs(n + 1).guardAt
  }

  lemma {:induction false} LaterGuard(start: nat, obs: nat -> Obs, i: nat, n: nat)
    requires forall k: nat :: k < n ==> ClockRuns(start, obs, k)
    requires i < n
    ensures start <= obs(i).compareAt <= obs(n).guardAt
  {
    assert ClockRuns(start, obs, n - 1);
    if i < n - 1 {
      LaterGuard(start, obs, i, n - 1);
    } else if n > 1 {
      LaterGuard(start, obs, n - 2, n - 1);
    }
  }

  /**
   A turn that is neither interrupted nor at the end of the stream, and whose clock is before the end
   of the known duration, goes on; and if the next one is scheduled in time it does not time out.
   */
  lemma GoesOnWhileKnown(start: nat, duration: int, obs: nat -> Obs, limit: nat, n: nat)
    requires StillRunning(start, duration, obs, limit, n) && !Overdue(start, duration, obs, limit, n)
    requires !Ended(obs(n)) && start <= obs(n).compareAt < start + Known(start, duration, obs, n)
    ensures StillRunning(start, duration, obs, limit, n + 1)
    ensures Overdue(start, duration, obs, limit, n + 1) <==> obs(n + 1).guardAt >= obs(n).extendAt + limit
  {
    OneMoreTurn(start, duration, obs, limit, n);
    assert SignOfLife(start, duration, obs, n);
  }

  /**
   After a message of d, scheduled in time and with no other message since, the loop does not time
   out before start + d.
   */
  lemma NoTimeoutWithinTheDuration(start: nat, duration: int, obs: nat -> Obs, limit: nat, i: nat, n: nat)
    requires forall k: nat :: k < n ==> ClockRuns(start, obs, k)
    requires i < n && LastMessage(obs, i, n - 1) && obs(n).guardAt < obs(n - 1).extendAt + limit
    requires Overdue(start, duration, obs, limit, n)
    ensures obs(n).guardAt >= start + obs(i).message.value
  {
    var d := obs(i).message.value;
    KnownFromMessages(start, duration, obs, i, n - 1);
    assert !SignOfLife(start, duration, obs, n - 1);
    LaterGuard(start, obs, n - 1, n);
    if FoundOver(start, d, obs, i, n - 1) {
      var j: nat :| i <= j < n - 1 && RanOut(start, d, obs(j));
      LaterGuard(start, obs, j, n);
    }
  }

  /**
   In every run the loop leaves for a timeout only when a full limit has passed since the
   start or since the last sign of life. And then the turn before it found no pause, no
   duration left and no progress; unless the thread was held up for a whole limit between
   setting the timeout and looking at the clock again, when nothing was looked at.
   */
  lemma TimesOutOnlyWhenIdle(start: nat, duration: int, obs: nat -> Obs, limit: nat, n: nat)
    requires Plausible(Fresh(start, duration, limit), obs, limit)
    requires Before(Fresh(start, duration, limit), obs, limit, n).Some?
    requires var b := Before(Fresh(start, duration, limit), obs, limit, n).value;
             TakeTurn(b, obs(n), limit) == Leaves(TimedOut)
    ensures var since := Since(start, duration, obs, n);
            && obs(n).guardAt >= since + limit
            && (|| (n > 0 && !SignOfLife(start, duration, obs, n - 1) && obs(n - 1).wakeAt >= since + limit)
                || (n == 0 && since == start)
                || (n > 0 && since == obs(n - 1).extendAt))
  {
    var w := Fresh(start, duration, limit);
    HoldsWhatWasObserved(start, duration, obs, limit, n);
    ObservedTurn(start, duration, obs, limit, n);
    if n > 0 {
      HoldsWhatWasObserved(start, duration, obs, limit, n - 1);
      assert Passes(start, duration, obs, limit, n - 1);
      assert TurnOk(w, obs, limit, n - 1) && InOrder(obs, n - 1);
    }
  }

  /** A turn without a sign of life is the last one: the next guard ends the loop. */
  lemma IdleTurnIsTheLast(start: nat, duration: int, obs: nat -> Obs, limit: nat, n: nat)
    requires Plausible(Fresh(start, duration, limit), obs, limit)
    requires StillRunning(start, duration, obs, limit, n + 1) && !SignOfLife(start, duration, obs, n)
    ensures var b := Before(Fresh(start, duration, limit), obs, limit, n + 1);
      b.Some? && TakeTurn(b.value, obs(n + 1), limit) == Leaves(TimedOut)
  {
    var w := Fresh(start, duration, limit);
    HoldsWhatWasObserved(start, duration, obs, limit, n);
    HoldsWhatWasObserved(start, duration, obs, limit, n + 1);
    OneMoreTurn(start, duration, obs, limit, n);
    assert TurnOk(w, obs, limit, n) && InOrder(obs, n);
  }

  /** While the speech stays paused the loop goes on for ever, as long as it is scheduled in time. */
  lemma {:induction false} PausedNeverLeaves(start: nat, duration: int, obs: nat -> Obs, limit: nat, n: nat)
    requires forall i: nat :: obs(i).paused && !obs(i).interrupted && !obs(i).eos
    requires obs(0).guardAt < start + limit
    requires forall i: nat :: obs(i + 1).guardAt < obs(i).extendAt + limit
    ensures var w := Fresh(start, duration, limit);
            Before(w, obs, limit, n).Some? && obs(n).guardAt < Before(w, obs, limit, n).value.timeoutAt
  {
    if n > 0 {
      PausedNeverLeaves(start, duration, obs, limit, n - 1);
      assert obs(n - 1).paused && obs(n - 1 + 1).guardAt < obs(n - 1).extendAt + limit;
    }
  }

  // Everything in one turn happens at the same moment, and the position has moved.
  function AllAt(moment: nat, paused: bool): Obs {
    Obs(moment, moment, moment, moment, false, false, paused, None, 1)
  }

  // Paused in the first turn, held up before the second.
  function LateTurn(start: nat, limit: nat, n: nat): Obs {
    if n == 0 then AllAt(start + limit, true).(guardAt := start) else AllAt(start + limit + limit, false)
  }

  /**
   Held up for a whole timeout, the loop gives up without a look, though there is a sign of
   life: before its first turn, or straight after a turn that had set a new timeout.
   */
  lemma HeldUpLeavesUnlooked(start: nat, duration: int, limit: nat) returns (early: nat -> Obs, late: nat -> Obs)
    requires limit > 0
    ensures var w := Fresh(start, duration, limit);
      && Plausible(w, early, limit) && Alive(w, early(0)) && TakeTurn(w, early(0), limit) == Leaves(TimedOut)
      && Plausible(w, late, limit) && TakeTurn(w, late(0), limit).Goes?
      && Before(w, late, limit, 1).Some? && Alive(Before(w, late, limit, 1).value, late(1))
      && TakeTurn(Before(w, late, limit, 1).value, late(1), limit) == Leaves(TimedOut)
  {
    var w := Fresh(start, duration, limit);
    early := (n: nat) => AllAt(start + limit, false);
    late := (n: nat) => LateTurn(start, limit, n);
    assert late(0) == LateTurn(start, limit, 0) && late(1) == LateTurn(start, limit, 1);
    forall n: nat ensures InOrder(early, n) && TurnOk(w, early, limit, n) {
      OnlyTheFirst(w, early, limit, n);
    }
    assert TakeTurn(w, late(0), limit) == Goes(Watch(start, start + limit + limit, duration, 0));
    var w1 := TakeTurn(w, late(0), limit).w;
    assert Before(w, late, limit, 0) == Some(w) && Before(w, late, limit, 1) == Some(w1);
    forall n: nat ensures InOrder(late, n) && TurnOk(w, late, limit, n) {
      OnlyTheFirstTwo(w, late, limit, n);
    }
  }

  lemma {:induction false} OnlyTheFirst(w: Watch, obs: nat -> Obs, limit: nat, n: nat)
    requires TakeTurn(w, obs(0), limit).Leaves?
    ensures Before(w, obs, limit, n) == if n == 0 then Some(w) else None
  {
    if n > 0 {
      OnlyTheFirst(w, obs, limit, n - 1);
    }
  }

  lemma {:induction false} OnlyTheFirstTwo(w: Watch, obs: nat -> Obs, limit: nat, n: nat)
    requires TakeTurn(w, obs(0), limit).Goes? && TakeTurn(TakeTurn(w, obs(0), limit).w, obs(1), limit).Leaves?
    ensures Before(w, obs, limit, n)
         == if n == 0 then Some(w) else if n == 1 then Some(TakeTurn(w, obs(0), limit).w) else None
  {
    if n > 1 {
      OnlyTheFirstTwo(w, obs, limit, n - 1);
    }
  }

  function Positive(x: int): nat {
    if x > 0 then x else 0
  }

  /**
   The loop itself. It ends when from some turn on nothing pauses, no duration comes in and
   the position is bounded: the turns before that one are counted down, then what is left of
   the duration shrinks, then what is left of the position, then one idle turn is enough. It
   leaves in the first turn that is overdue, interrupted or at the end of the stream.
   */
  method WaitForAudioToFinish(start: nat, duration: int, obs: nat -> Obs, limit: nat, ghost calmFrom: nat,
      ghost bound: int)
    returns (n: nat, reason: Reason)
    requires limit > 0 && Plausible(Fresh(start, duration, limit), obs, limit)
    requires forall i: nat :: i >= calmFrom ==> Calm(obs(i), bound)
    ensures StillRunning(start, duration, obs, limit, n)
    ensures reason == TimedOut <==> Overdue(start, duration, obs, limit, n)
    ensures reason == Stopped ==> Ended(obs(n))
  {
    n := 0;
    var timeoutAt: nat := start + limit;
    var lastPosition, left := 0, duration;
    while timeoutAt > obs(n).guardAt
      invariant Before(Fresh(start, duration, limit), obs, limit, n)
          == Some(Watch(start, timeoutAt, left, lastPosition))
      invariant StillRunning(start, duration, obs, limit, n)
      invariant Watch(start, timeoutAt, left, lastPosition) == Observed(start, duration, obs, limit, n)
      decreases Positive(calmFrom - n), Positive(start + Positive(left) - timeoutAt), Positive(bound - lastPosition),
                if timeoutAt > obs(n).guardAt then 1 else 0
    {
      var o := obs(n);
      ghost var w := Watch(start, timeoutAt, left, lastPosition);
      assert TurnOk(Fresh(start, duration, limit), obs, limit, n) && InOrder(obs, n);
      assert Genuine(w, o) && (n >= calmFrom ==> Calm(obs(n), bound));
      if o.interrupted || o.eos {
        return n, Stopped;
      }
      if o.message.Some? {
        left := o.message.value;
      }
      if o.paused {
        timeoutAt := o.extendAt + limit;
      } else if left > 0 && o.compareAt < start + left {
        timeoutAt := o.extendAt + limit;
      } else {
        left := 0;
        if o.position > 0 && o.position > lastPosition {
          timeoutAt := o.extendAt + limit;
          lastPosition := o.position;
        }
      }
      assert TakeTurn(w, o, limit) == Goes(Watch(start, timeoutAt, left, lastPosition));
      ObservedTurn(start, duration, obs, limit, n);
      OneMoreTurn(start, duration, obs, limit, n);
      n := n + 1;
    }
    reason := TimedOut;
  }
}
