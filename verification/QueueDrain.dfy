/**
 When clear() sleeps while it holds the mutex (BufferQueue.cpp:99-101), and what follows.
 */
module QueueDrain {

  import opened Wrappers
  import opened QueueMachine

  // ---------------------------------------------------------------------------------
  // Between reading the semaphore and taking a token
  // ---------------------------------------------------------------------------------

  // The tokens seen at line 99, plus those posted since, are still there or were taken by
  // removers that now wait for the mutex.
  ghost predicate WaitsFor(c: Config, s: State, t: Tid)
    requires t in s.pcs && s.pcs[t].ClearWait?
  {
    && !c.atomicDrain
    && s.pcs[t].value > 0
    && s.semFull + |s.taken| == s.pcs[t].value + s.postedSince
    && forall r <- s.taken :: r in s.pcs && s.pcs[r] == RemoveLock
  }

  ghost predicate DrainInv(c: Config, s: State) {
    && MutexInv(c, s)
    && (forall t <- s.pcs :: s.pcs[t].ClearWait? ==> WaitsFor(c, s, t))
  }

  lemma DrainStep(c: Config, s: State, step: Step)
    requires DrainInv(c, s) && Can(c, s, step)
    ensures DrainInv(c, Do(c, s, step))
  {
    var s' := Do(c, s, step);
    Moves(c, s, step);
    MutexStep(c, s, step);
    forall t <- s'.pcs | s'.pcs[t].ClearWait? ensures WaitsFor(c, s', t) {
      if t == step.t {
        EntersWait(c, s, t);
      } else {
        assert s.pcs[t].ClearWait? && s.lock == Some(t) && WaitsFor(c, s, t);
        OthersWhileWaiting(c, s, step, t);
        assert forall r <- s'.taken :: r in s'.pcs && s'.pcs[r] == RemoveLock;
      }
    }
  }

  lemma EntersWait(c: Config, s: State, t: Tid)
    requires t in s.pcs && Can(c, s, Go(t)) && Do(c, s, Go(t)).pcs[t].ClearWait?
    ensures WaitsFor(c, Do(c, s, Go(t)), t)
  {
    assert s.pcs[t].ClearRead?;
  }

  // While one thread is about to take its token, others can only take or post tokens.
  lemma OthersWhileWaiting(c: Config, s: State, step: Step, t: Tid)
    requires DrainInv(c, s) && Can(c, s, step) && t in s.pcs && s.pcs[t].ClearWait? && step.t != t
    ensures var s' := Do(c, s, step);
            && s'.pcs[t] == s.pcs[t] && s'.lock == s.lock && s'.buffer == s.buffer
            && (|| (s'.semFull == s.semFull && s'.taken == s.taken && s'.postedSince == s.postedSince
                    && s.pcs[step.t] != RemoveLock && s.pcs[step.t] != PrePost)
                || (s.pcs[step.t] == RemoveWait && s.semFull > 0
                    && s'.semFull == s.semFull - 1 && s'.taken == s.taken + {step.t} && step.t !in s.taken
                    && s'.postedSince == s.postedSince && s'.pcs[step.t] == RemoveLock)
                || (s.pcs[step.t] == PrePost
                    && s'.semFull == s.semFull + 1 && s'.taken == s.taken && s'.postedSince == s.postedSince + 1))
  {
    assert s.lock == Some(t);
    assert !Holds(s.pcs[step.t]);
  }

  lemma {:induction false} DrainAlways(c: Config, s: State, steps: seq<Step>)
    requires DrainInv(c, s) && Runs(c, s, steps)
    ensures DrainInv(c, Final(c, s, steps))
    decreases |steps|
  {
    if steps != [] {
      DrainStep(c, s, steps[0]);
      DrainAlways(c, Do(c, s, steps[0]), steps[1..]);
    }
  }

  // A thread sits inside a call and cannot move because a semaphore is zero.
  predicate Asleep(s: State, t: Tid)
    requires t in s.pcs
  {
    var pc := s.pcs[t];
    (pc.AddWait? && s.semEmpty == 0) || (pc.RemoveWait? && s.semFull == 0) || (pc.ClearWait? && s.semFull == 0)
  }

  /**
   In every run: the only thread that can sleep on a semaphore with the mutex in hand is a
   clear() at line 101, and it sleeps exactly when removers took every token it had seen
   at line 99 and every token posted since. All of those removers wait for its mutex.
   */
  lemma SleepsWithMutexExactlyWhenOvertaken(c: Config, s: State, steps: seq<Step>, t: Tid)
    requires Init(c, s) && Runs(c, s, steps) && t in Final(c, s, steps).pcs
    ensures var f := Final(c, s, steps);
            && (Asleep(f, t) && f.lock == Some(t) <==>
                  f.pcs[t].ClearWait? && |f.taken| == f.pcs[t].value + f.postedSince)
            && (Asleep(f, t) && f.lock == Some(t) ==>
                  !c.atomicDrain && f.taken != {} && forall r <- f.taken :: r in f.pcs && f.pcs[r] == RemoveLock)
  {
    DrainAlways(c, s, steps);
  }

  /**
   With line 99 and line 101 in one atomic step no thread ever sleeps on a semaphore while
   it holds the mutex: the holder can always move.
   */
  lemma AtomicDrainNeverSleepsWithMutex(c: Config, s: State, steps: seq<Step>)
    requires Init(c, s) && Runs(c, s, steps) && c.atomicDrain
    ensures var f := Final(c, s, steps);
            forall t <- f.pcs :: f.lock == Some(t) ==> !Asleep(f, t) && Can(c, f, Go(t))
  {
    DrainAlways(c, s, steps);
    var f := Final(c, s, steps);
    forall t <- f.pcs | f.lock == Some(t) ensures !Asleep(f, t) && Can(c, f, Go(t)) {
      AtomicHolderMoves(c, f, t);
    }
  }

  lemma AtomicHolderMoves(c: Config, s: State, t: Tid)
    requires DrainInv(c, s) && c.atomicDrain && t in s.pcs && s.lock == Some(t)
    ensures !Asleep(s, t) && Can(c, s, Go(t))
  {
    assert Holds(s.pcs[t]);
  }

  // ---------------------------------------------------------------------------------
  // The deadlock
  // ---------------------------------------------------------------------------------

  // clear() asleep with the mutex, and nobody left who can post without the mutex.
  ghost predicate Stuck(c: Config, s: State, t: Tid) {
    && MutexInv(c, s)
    && t in s.pcs && s.lock == Some(t) && s.pcs[t].ClearWait? && s.semFull == 0
    && forall u <- s.pcs :: s.pcs[u] != PrePost
  }

  /** Once stuck, stuck for ever, whatever the other threads do; the queue never changes again. */
  lemma {:induction false} StuckForever(c: Config, s: State, steps: seq<Step>, t: Tid)
    requires Stuck(c, s, t) && Runs(c, s, steps)
    ensures Stuck(c, Final(c, s, steps), t) && Final(c, s, steps).buffer == s.buffer
    decreases |steps|
  {
    if steps != [] {
      var s' := Do(c, s, steps[0]);
      Moves(c, s, steps[0]);
      MutexStep(c, s, steps[0]);
      assert steps[0].t != t;
      assert !Holds(s.pcs[steps[0].t]);
      StuckStep(c, s, steps[0], t);
      StuckForever(c, s', steps[1..], t);
    }
  }

  lemma StuckStep(c: Config, s: State, step: Step, t: Tid)
    requires Stuck(c, s, t) && Can(c, s, step) && step.t != t && !Holds(s.pcs[step.t])
    ensures var s' := Do(c, s, step);
            && s'.lock == s.lock && s'.semFull == 0 && s'.buffer == s.buffer && s'.pcs[step.t] != PrePost
  {
  }

  /** Only a preDelete() that had already released the mutex can wake a sleeping clear(). */
  lemma OnlyPreDeleteWakes(c: Config, s: State, step: Step, t: Tid)
    requires DrainInv(c, s) && t in s.pcs && s.lock == Some(t) && Asleep(s, t) && Can(c, s, step)
    ensures Do(c, s, step).semFull > 0 <==> s.pcs[step.t] == PrePost
  {
    OthersWhileWaiting(c, s, step, t);
  }

  // Three threads: a producer, a consumer and one that clears.
  function Three(): Config { Config(8, {1}, false) }

  function One(): Buffer { Buffer(0, [1]) }

  function Pcs(p: Pc, q: Pc, r: Pc): map<Tid, Pc> {
    map[0 := p, 1 := q, 2 := r]
  }

  lemma PcsUpdateFirst(p: Pc, q: Pc, r: Pc, x: Pc)
    ensures Pcs(p, q, r)[0 := x] == Pcs(x, q, r)
  {
  }

  lemma PcsUpdateSecond(p: Pc, q: Pc, r: Pc, x: Pc)
    ensures Pcs(p, q, r)[1 := x] == Pcs(p, x, r)
  {
  }

  lemma PcsUpdateThird(p: Pc, q: Pc, r: Pc, x: Pc)
    ensures Pcs(p, q, r)[2 := x] == Pcs(p, q, x)
  {
  }

  function Start(): State {
    State([], 0, 8, None, Pcs(Idle, Idle, Idle), 0, [], [], [], 0, {}, 0)
  }

  // While the producer adds its one item.
  function Adding(pc: Pc): State {
    var entered := pc == AddPost || pc == AddUnlock || pc == Idle;
    State(if entered then [One()] else [], if pc == AddUnlock || pc == Idle then 1 else 0,
          if pc.AddWait? then 8 else 7, if pc.AddWait? || pc.AddLock? || pc == Idle then None else Some(0),
          Pcs(pc, Idle, Idle), 1, if entered then [One()] else [], [], [], 0, {}, 0)
  }

  lemma AddOne(pc: Pc, pc': Pc)
    requires || (pc, pc') == (AddWait(One()), AddLock(One())) || (pc, pc') == (AddLock(One()), AddPush(One()))
             || (pc, pc') == (AddPush(One()), AddPost) || (pc, pc') == (AddPost, AddUnlock)
                 || (pc, pc') == (AddUnlock, Idle)
    ensures Can(Three(), Adding(pc), Go(0)) && Do(Three(), Adding(pc), Go(0)) == Adding(pc')
  {
    PcsUpdateFirst(pc, Idle, Idle, pc');
  }

  // While the consumer and the clearing thread race for the only token.
  function Racing(q: Pc, r: Pc): State {
    Adding(Idle).(pcs := Pcs(Idle, q, r), semFull := if q == RemoveLock then 0 else 1,
                  lock := if Holds(r) then Some(2) else None,
                  buffer := if r.ClearRead? || r.ClearWait? then [] else [One()],
                  popped := if r.ClearRead? || r.ClearWait? then [Popped(One(), true)] else [],
                  taken := if q == RemoveLock then {1} else {})
  }

  function Last(): State { Racing(RemoveLock, ClearWait(false, 1)) }

  // One more step in front of a run.
  lemma Before(c: Config, s: State, step: Step, s': State, steps: seq<Step>) returns (more: seq<Step>)
    requires Can(c, s, step) && Do(c, s, step) == s' && Runs(c, s', steps)
    ensures Runs(c, s, more) && Final(c, s, more) == Final(c, s', steps)
  {
    more := [step] + steps;
    assert more[1..] == steps;
  }

  lemma AddBefore(pc: Pc, pc': Pc, steps: seq<Step>) returns (more: seq<Step>)
    requires || (pc, pc') == (AddWait(One()), AddLock(One())) || (pc, pc') == (AddLock(One()), AddPush(One()))
             || (pc, pc') == (AddPush(One()), AddPost) || (pc, pc') == (AddPost, AddUnlock)
                 || (pc, pc') == (AddUnlock, Idle)
    requires Runs(Three(), Adding(pc'), steps) && Final(Three(), Adding(pc'), steps) == Last()
    ensures Runs(Three(), Adding(pc), more) && Final(Three(), Adding(pc), more) == Last()
  {
    AddOne(pc, pc');
    more := Before(Three(), Adding(pc), Go(0), Adding(pc'), steps);
  }

  lemma RaceOne(q: Pc, r: Pc, q': Pc, r': Pc, step: Step)
    requires || (q, r, q', r', step) == (Idle, Idle, RemoveWait, Idle, Call(1, Remove))
             || (q, r, q', r', step) == (RemoveWait, Idle, RemoveWait, ClearLock(false), Call(2, Clear))
             || (q, r, q', r', step) == (RemoveWait, ClearLock(false), RemoveWait, ClearTest(false), Go(2))
             || (q, r, q', r', step) == (RemoveWait, ClearTest(false), RemoveWait, ClearRead(false), Go(2))
             || (q, r, q', r', step) == (RemoveWait, ClearRead(false), RemoveWait, ClearWait(false, 1), Go(2))
             || (q, r, q', r', step) == (RemoveWait, ClearWait(false, 1), RemoveLock, ClearWait(false, 1), Go(1))
    ensures Can(Three(), Racing(q, r), step) && Do(Three(), Racing(q, r), step) == Racing(q', r')
  {
    PcsUpdateSecond(Idle, q, r, q');
    PcsUpdateThird(Idle, q, r, r');
  }

  lemma RaceBefore(q: Pc, r: Pc, q': Pc, r': Pc, step: Step, steps: seq<Step>) returns (more: seq<Step>)
    requires || (q, r, q', r', step) == (Idle, Idle, RemoveWait, Idle, Call(1, Remove))
             || (q, r, q', r', step) == (RemoveWait, Idle, RemoveWait, ClearLock(false), Call(2, Clear))
             || (q, r, q', r', step) == (RemoveWait, ClearLock(false), RemoveWait, ClearTest(false), Go(2))
             || (q, r, q', r', step) == (RemoveWait, ClearTest(false), RemoveWait, ClearRead(false), Go(2))
             || (q, r, q', r', step) == (RemoveWait, ClearRead(false), RemoveWait, ClearWait(false, 1), Go(2))
             || (q, r, q', r', step) == (RemoveWait, ClearWait(false, 1), RemoveLock, ClearWait(false, 1), Go(1))
    requires Runs(Three(), Racing(q', r'), steps) && Final(Three(), Racing(q', r'), steps) == Last()
    ensures Runs(Three(), Racing(q, r), more) && Final(Three(), Racing(q, r), more) == Last()
  {
    RaceOne(q, r, q', r', step);
    more := Before(Three(), Racing(q, r), step, Racing(q', r'), steps);
  }

  lemma Race() returns (steps: seq<Step>)
    ensures Runs(Three(), Racing(Idle, Idle), steps) && Final(Three(), Racing(Idle, Idle), steps) == Last()
  {
    steps := [];
    steps := RaceBefore(RemoveWait, ClearWait(false, 1), RemoveLock, ClearWait(false, 1), Go(1), steps);
    steps := RaceBefore(RemoveWait, ClearRead(false), RemoveWait, ClearWait(false, 1), Go(2), steps);
    steps := RaceBefore(RemoveWait, ClearTest(false), RemoveWait, ClearRead(false), Go(2), steps);
    steps := RaceBefore(RemoveWait, ClearLock(false), RemoveWait, ClearTest(false), Go(2), steps);
    steps := RaceBefore(RemoveWait, Idle, RemoveWait, ClearLock(false), Call(2, Clear), steps);
    steps := RaceBefore(Idle, Idle, RemoveWait, Idle, Call(1, Remove), steps);
  }

  /** The stuck state is reachable with one producer, one consumer and one clear(). */
  lemma ClearCanDeadlock() returns (steps: seq<Step>)
    ensures Init(Three(), Start()) && Runs(Three(), Start(), steps)
    ensures Stuck(Three(), Final(Three(), Start(), steps), 2)
  {
    steps := Race();
    assert Racing(Idle, Idle) == Adding(Idle);
    steps := AddBefore(AddUnlock, Idle, steps);
    steps := AddBefore(AddPost, AddUnlock, steps);
    steps := AddBefore(AddPush(One()), AddPost, steps);
    steps := AddBefore(AddLock(One()), AddPush(One()), steps);
    steps := AddBefore(AddWait(One()), AddLock(One()), steps);
    PcsUpdateFirst(Idle, Idle, Idle, AddWait(One()));
    steps := Before(Three(), Start(), Call(0, Add([1])), Adding(AddWait(One())), steps);
    LastIsStuck();
  }

  lemma LastIsStuck()
    ensures Stuck(Three(), Last(), 2)
  {
  }

  // ---------------------------------------------------------------------------------
  // clear() finishes
  // ---------------------------------------------------------------------------------

  predicate InLoop(pc: Pc) {
    pc.ClearTest? || pc.ClearRead? || pc.ClearWait? || pc.ClearPost?
  }

  // Steps clear() still needs before it reaches the unlock.
  function Rank(s: State, t: Tid): nat
    requires t in s.pcs && InLoop(s.pcs[t])
  {
    4 * |s.buffer|
    + match s.pcs[t] { case ClearRead(_) => 4 case ClearWait(_, _) => 3 case ClearPost(_) => 2 case _ => 1 }
  }

  lemma RankStep(c: Config, s: State, step: Step, t: Tid)
    requires MutexInv(c, s) && Can(c, s, step) && t in s.pcs && InLoop(s.pcs[t])
    ensures var s' := Do(c, s, step);
            && t in s'.pcs
            && (step.t != t ==> s'.pcs[t] == s.pcs[t] && s'.buffer == s.buffer)
            && (step.t == t ==> s'.pcs[t].ClearUnlock? || (InLoop(s'.pcs[t]) && Rank(s', t) < Rank(s, t)))
  {
    if step.t != t {
      assert s.lock == Some(t);
      assert !Holds(s.pcs[step.t]);
    }
  }

  function OwnMoves(steps: seq<Step>, t: Tid): nat {
    if steps == [] then 0 else (if steps[0].t == t then 1 else 0) + OwnMoves(steps[1..], t)
  }

  /**
   However the other threads interleave, a clear() that gets to move as often as its rank
   (four moves an item and one more) has emptied the queue and reached its unlock. So it
   finishes unless it falls asleep.
   */
  lemma {:induction false} ClearFinishes(c: Config, s: State, steps: seq<Step>, t: Tid) returns (k: nat)
    requires MutexInv(c, s) && Runs(c, s, steps) && t in s.pcs && InLoop(s.pcs[t])
    requires OwnMoves(steps, t) >= Rank(s, t)
    ensures k <= |steps| && Runs(c, s, steps[..k])
    ensures var f := Final(c, s, steps[..k]); t in f.pcs && f.pcs[t].ClearUnlock? && f.buffer == []
    decreases |steps|
  {
    var s' := Do(c, s, steps[0]);
    RankStep(c, s, steps[0], t);
    MutexStep(c, s, steps[0]);
    var j := 0;
    if steps[0].t == t && s'.pcs[t].ClearUnlock? {
      assert steps[1..][..0] == [];
    } else {
      j := ClearFinishes(c, s', steps[1..], t);
    }
    k := j + 1;
    assert steps[..k][1..] == steps[1..][..j];
  }
}
