/**
 The bounded queue between the threads that receive audio and the thread that feeds
 it to the pipeline, as a machine whose steps are the single semaphore, mutex and queue
 operations of SystemAudioPlayer/impl/BufferQueue.cpp. Any number of threads take part;
 each has a program counter, and the scheduler picks which enabled thread moves next.
 */
module QueueMachine {

  import opened Wrappers

  type Byte = bv8
  type Tid = nat

  datatype Buffer = Buffer(id: nat, data: seq<Byte>)

  // What left the queue, and whether clear() threw it away or remove() handed it out.
  datatype Popped = Popped(item: Buffer, cleared: bool)

  // The largest piece handed to appsrc in one go.
  const FRAGMENT: nat := 131072

  /**
   The program counters. `pre` tells a clear() made by preDelete() from a plain one.
   */
  datatype Pc =
    | Idle
    // push_data, then add
    | PushTest(data: seq<Byte>)
    | AddWait(b: Buffer)
    | AddLock(b: Buffer)
    | AddPush(b: Buffer)
    | AddPost
    | AddUnlock
    // remove, then the chunk loop of PushDataAppSrc
    | RemoveWait
    | RemoveLock
    | RemoveTake
    | RemovePost(b: Buffer)
    | RemoveUnlock(got: Option<Buffer>)
    | Feed(b: Buffer, off: nat)
    // clear and preDelete
    | ClearLock(pre: bool)
    | ClearTest(pre: bool)
    | ClearRead(pre: bool)
    | ClearWait(pre: bool, value: nat)
    | ClearPost(pre: bool)
    | ClearUnlock(pre: bool)
    | PrePost

  datatype Op = PushData(data: seq<Byte>) | Add(data: seq<Byte>) | Remove | Clear | PreDelete

  datatype Step = Call(t: Tid, op: Op) | Go(t: Tid)

  /**
   `consumers` are the threads that may call remove(). With `atomicDrain` the semaphore is
   read and decremented by clear() in one step instead of two.
   */
  datatype Config = Config(size: nat, consumers: set<Tid>, atomicDrain: bool)

  /**
   The shared variables, the threads, and a history: every buffer that entered the queue,
   every buffer that left it, the chunks handed to appsrc, the number of posts made by
   preDelete(), and, while a clear() sits between reading and taking a token, the threads
   that took tokens meanwhile and the posts that arrived meanwhile.
   */
  datatype State = State(
    buffer: seq<Buffer>, semFull: nat, semEmpty: nat, lock: Option<Tid>,
    pcs: map<Tid, Pc>, nextId: nat,
    accepted: seq<Buffer>, popped: seq<Popped>, pushed: seq<seq<Byte>>,
    posts: nat, taken: set<Tid>, postedSince: nat)

  predicate Init(c: Config, s: State) {
    && s.buffer == [] && s.semFull == 0 && s.semEmpty == c.size && s.lock == None
    && (forall t <- s.pcs :: s.pcs[t] == Idle)
    && s.nextId == 0 && s.accepted == [] && s.popped == [] && s.pushed == []
    && s.posts == 0 && s.taken == {} && s.postedSince == 0
    && c.consumers <= s.pcs.Keys
  }

  // The thread is inside a call and not asleep on a semaphore or on the mutex.
  predicate Enabled(s: State, pc: Pc) {
    match pc
    case Idle => false
    case AddWait(_) => s.semEmpty > 0
    case RemoveWait => s.semFull > 0
    case ClearWait(_, _) => s.semFull > 0
    case AddLock(_) => s.lock == None
    case RemoveLock => s.lock == None
    case ClearLock(_) => s.lock == None
    case _ => true
  }

  predicate Can(c: Config, s: State, step: Step) {
    && step.t in s.pcs
    && match step
       case Call(t, op) => s.pcs[t] == Idle && (op.Remove? ==> t in c.consumers)
       case Go(t) => Enabled(s, s.pcs[t])
  }

  function At(s: State, t: Tid, pc: Pc): State {
    s.(pcs := s.pcs[t := pc])
  }

  function Do(c: Config, s: State, step: Step): State
    requires Can(c, s, step)
  {
    match step
    case Call(t, op) => DoCall(s, t, op)
    case Go(t) =>
      var pc := s.pcs[t];
      if Produces(pc) then GoAdd(s, t) else if Consumes(pc) then GoRemove(s, t) else GoClear(c, s, t)
  }

  predicate Produces(pc: Pc) {
    pc.PushTest? || pc.AddWait? || pc.AddLock? || pc.AddPush? || pc.AddPost? || pc.AddUnlock?
  }

  predicate Consumes(pc: Pc) {
    pc.RemoveWait? || pc.RemoveLock? || pc.RemoveTake? || pc.RemovePost? || pc.RemoveUnlock? || pc.Feed?
  }

  function DoCall(s: State, t: Tid, op: Op): State {
    match op
    case PushData(data) => At(s, t, PushTest(data))
    case Add(data) => At(s, t, AddWait(Buffer(s.nextId, data))).(nextId := s.nextId + 1)
    case Remove => At(s, t, RemoveWait)
    case Clear => At(s, t, ClearLock(false))
    case PreDelete => At(s, t, ClearLock(true))
  }

  function GoAdd(s: State, t: Tid): State
    requires t in s.pcs && Enabled(s, s.pcs[t])
  {
    match s.pcs[t]
    case PushTest(data) =>
      // isFull() reads the semaphore; only when it is not zero is a buffer made
      if s.semEmpty == 0 then At(s, t, Idle)
      else At(s, t, AddWait(Buffer(s.nextId, data))).(nextId := s.nextId + 1)
    case AddWait(b) => At(s, t, AddLock(b)).(semEmpty := s.semEmpty - 1)
    case AddLock(b) => At(s, t, AddPush(b)).(lock := Some(t))
    case AddPush(b) => At(s, t, AddPost).(buffer := s.buffer + [b], accepted := s.accepted + [b])
    case AddPost => At(s, t, AddUnlock).(semFull := s.semFull + 1)
    case AddUnlock => At(s, t, Idle).(lock := None)
    case _ => s
  }

  function GoRemove(s: State, t: Tid): State
    requires t in s.pcs && Enabled(s, s.pcs[t])
  {
    match s.pcs[t]
    case RemoveWait => At(s, t, RemoveLock).(semFull := s.semFull - 1, taken := s.taken + {t})
    case RemoveLock => At(s, t, RemoveTake).(lock := Some(t))
    case RemoveTake =>
      if s.buffer == [] then At(s, t, RemoveUnlock(None))
      else At(s, t, RemovePost(s.buffer[0])).(buffer := s.buffer[1..],
                                              popped := s.popped + [Popped(s.buffer[0], false)])
    case RemovePost(b) => At(s, t, RemoveUnlock(Some(b))).(semEmpty := s.semEmpty + 1)
    case RemoveUnlock(got) => At(s, t, if got.Some? then Feed(got.value, 0) else Idle).(lock := None)
    case Feed(b, off) =>
      if off >= |b.data| then At(s, t, Idle)
      else
        var end := if |b.data| - off > FRAGMENT then off + FRAGMENT else |b.data|;
        At(s, t, Feed(b, end)).(pushed := s.pushed + [b.data[off..end]])
    case _ => s
  }

  function GoClear(c: Config, s: State, t: Tid): State
    requires t in s.pcs && Enabled(s, s.pcs[t])
  {
    match s.pcs[t]
    case ClearLock(pre) => At(s, t, ClearTest(pre)).(lock := Some(t))
    case ClearTest(pre) =>
      if s.buffer == [] then At(s, t, ClearUnlock(pre))
      else At(s, t, ClearRead(pre)).(buffer := s.buffer[1..], popped := s.popped + [Popped(s.buffer[0], true)])
    case ClearRead(pre) =>
      if s.semFull == 0 then At(s, t, ClearPost(pre))
      else if c.atomicDrain then At(s, t, ClearPost(pre)).(semFull := s.semFull - 1)
      else At(s, t, ClearWait(pre, s.semFull)).(taken := {}, postedSince := 0)
    case ClearWait(pre, _) => At(s, t, ClearPost(pre)).(semFull := s.semFull - 1)
    case ClearPost(pre) => At(s, t, ClearTest(pre)).(semEmpty := s.semEmpty + 1)
    case ClearUnlock(pre) => At(s, t, if pre then PrePost else Idle).(lock := None)
    case PrePost => At(s, t, Idle).(semFull := s.semFull + 1, posts := s.posts + 1, postedSince := s.postedSince + 1)
    case _ => s
  }

  predicate Runs(c: Config, s: State, steps: seq<Step>)
    decreases |steps|
  {
    steps == [] || (Can(c, s, steps[0]) && Runs(c, Do(c, s, steps[0]), steps[1..]))
  }

  function Final(c: Config, s: State, steps: seq<Step>): State
    requires Runs(c, s, steps)
    decreases |steps|
  {
    if steps == [] then s else Final(c, Do(c, s, steps[0]), steps[1..])
  }

  lemma {:induction false} RunsSnoc(c: Config, s: State, steps: seq<Step>, step: Step)
    requires Runs(c, s, steps) && Can(c, Final(c, s, steps), step)
    ensures Runs(c, s, steps + [step]) && Final(c, s, steps + [step]) == Do(c, Final(c, s, steps), step)
    decreases |steps|
  {
    if steps == [] {
      assert (steps + [step])[1..] == [];
    } else {
      assert (steps + [step])[1..] == steps[1..] + [step];
      RunsSnoc(c, Do(c, s, steps[0]), steps[1..], step);
    }
  }

  // ---------------------------------------------------------------------------------
  // Counting threads
  // ---------------------------------------------------------------------------------

  // What a thread owes to the two semaphores.
  datatype Kind =
    | PastWait   // took an empty slot, has not filled it
    | Unposted   // filled a slot, has not posted it
    | Token      // took a full token, has not looked at the queue
    | Unsettled  // clear() popped an item, its token is not dealt with
    | Freed      // popped an item, its slot is not posted
    | Free

  function KindOf(pc: Pc): Kind {
    match pc
    case AddLock(_) => PastWait
    case AddPush(_) => PastWait
    case AddPost => Unposted
    case RemoveLock => Token
    case RemoveTake => Token
    case RemovePost(_) => Freed
    case ClearRead(_) => Unsettled
    case ClearWait(_, _) => Unsettled
    case ClearPost(_) => Freed
    case _ => Free
  }

  function Threads(pcs: map<Tid, Pc>, k: Kind): set<Tid> {
    set t | t in pcs && KindOf(pcs[t]) == k
  }

  function Count(pcs: map<Tid, Pc>, k: Kind): nat {
    |Threads(pcs, k)|
  }

  lemma Recount(pcs: map<Tid, Pc>, t: Tid, pc: Pc)
    requires t in pcs
    ensures forall k :: Count(pcs[t := pc], k) == Count(pcs, k)
                          - (if KindOf(pcs[t]) == k then 1 else 0) + (if KindOf(pc) == k then 1 else 0)
  {
    forall k ensures Count(pcs[t := pc], k) == Count(pcs, k)
                       - (if KindOf(pcs[t]) == k then 1 else 0) + (if KindOf(pc) == k then 1 else 0)
    {
      var rest := Threads(pcs, k) - {t};
      assert Threads(pcs, k) == if KindOf(pcs[t]) == k then rest + {t} else rest;
      assert Threads(pcs[t := pc], k) == if KindOf(pc) == k then rest + {t} else rest;
    }
  }

  // ---------------------------------------------------------------------------------
  // The mutex
  // ---------------------------------------------------------------------------------

  predicate Holds(pc: Pc) {
    pc.AddPush? || pc.AddPost? || pc.AddUnlock? || pc.RemoveTake? || pc.RemovePost? || pc.RemoveUnlock?
    || pc.ClearTest? || pc.ClearRead? || pc.ClearWait? || pc.ClearPost? || pc.ClearUnlock?
  }

  ghost predicate MutexInv(c: Config, s: State) {
    && (forall t <- s.pcs :: Holds(s.pcs[t]) <==> s.lock == Some(t))
    && (s.lock.Some? ==> s.lock.value in s.pcs)
    && (forall t <- s.pcs :: Consumes(s.pcs[t]) ==> t in c.consumers)
    && c.consumers <= s.pcs.Keys
  }

  // Only the moving thread's program counter changes, and it takes and frees the mutex properly.
  ghost predicate MovesAlone(c: Config, s: State, t: Tid, s': State) {
    && t in s.pcs && t in s'.pcs && s'.pcs == s.pcs[t := s'.pcs[t]]
    && (|| (s'.lock == s.lock && (Holds(s'.pcs[t]) <==> Holds(s.pcs[t])))
        || (s.lock == None && s'.lock == Some(t) && Holds(s'.pcs[t]))
        || (Holds(s.pcs[t]) && s'.lock == None && !Holds(s'.pcs[t])))
    && (Consumes(s'.pcs[t]) ==> Consumes(s.pcs[t]) || t in c.consumers)
  }

  lemma MovesAdd(c: Config, s: State, t: Tid)
    requires t in s.pcs && Enabled(s, s.pcs[t]) && Produces(s.pcs[t])
    ensures MovesAlone(c, s, t, GoAdd(s, t))
  {
  }

  lemma MovesRemove(c: Config, s: State, t: Tid)
    requires t in s.pcs && Enabled(s, s.pcs[t]) && Consumes(s.pcs[t])
    ensures MovesAlone(c, s, t, GoRemove(s, t))
  {
  }

  lemma MovesClear(c: Config, s: State, t: Tid)
    requires t in s.pcs && Enabled(s, s.pcs[t]) && !Produces(s.pcs[t]) && !Consumes(s.pcs[t])
    ensures MovesAlone(c, s, t, GoClear(c, s, t))
  {
  }

  lemma Moves(c: Config, s: State, step: Step)
    requires Can(c, s, step)
    ensures MovesAlone(c, s, step.t, Do(c, s, step))
  {
    match step
    case Call(t, op) =>
    case Go(t) =>
      if Produces(s.pcs[t]) {
        MovesAdd(c, s, t);
      } else if Consumes(s.pcs[t]) {
        MovesRemove(c, s, t);
      } else {
        MovesClear(c, s, t);
      }
  }

  lemma MutexStep(c: Config, s: State, step: Step)
    requires MutexInv(c, s) && Can(c, s, step)
    ensures MutexInv(c, Do(c, s, step))
  {
    Moves(c, s, step);
    var s' := Do(c, s, step);
    assert MovesAlone(c, s, step.t, s');
    assert s'.pcs.Keys == s.pcs.Keys;
  }

  // At most the holder of the mutex can be in a kind whose threads all hold it.
  lemma OnlyTheHolder(c: Config, s: State, k: Kind)
    requires MutexInv(c, s) && (k == Unposted || k == Unsettled || k == Freed)
    ensures Count(s.pcs, k) == if s.lock.Some? && KindOf(s.pcs[s.lock.value]) == k then 1 else 0
  {
    var ts := Threads(s.pcs, k);
    if s.lock.Some? && KindOf(s.pcs[s.lock.value]) == k {
      assert ts == {s.lock.value};
    } else {
      assert ts == {};
    }
  }

  // ---------------------------------------------------------------------------------
  // Conservation of slots, no lost wake-up, bounded surplus
  // ---------------------------------------------------------------------------------

  // Full tokens in circulation that no queued item stands behind.
  function Surplus(s: State): int {
    s.semFull + Count(s.pcs, Token) + Count(s.pcs, Unposted) - |s.buffer| - Count(s.pcs, Unsettled)
  }

  // Slots that are filled, free, or in the hands of a thread.
  function Slots(s: State): int {
    |s.buffer| + s.semEmpty + Count(s.pcs, PastWait) + Count(s.pcs, Freed) + Count(s.pcs, Unsettled)
  }

  ghost predicate CountInv(c: Config, s: State) {
    && Slots(s) == c.size
    && 0 <= Surplus(s) <= |c.consumers| + s.posts
  }

  lemma TokensWithinConsumers(c: Config, s: State)
    requires MutexInv(c, s)
    ensures Count(s.pcs, Token) <= |c.consumers|
  {
    SubsetSize(Threads(s.pcs, Token), c.consumers);
  }

  lemma {:induction false} SubsetSize(a: set<Tid>, b: set<Tid>)
    requires a <= b
    ensures |a| <= |b|
  {
    if a != {} {
      var x :| x in a;
      SubsetSize(a - {x}, b - {x});
    }
  }

  function W(pc: Pc, k: Kind): nat {
    if KindOf(pc) == k then 1 else 0
  }

  // The surplus as seen from one thread, all other threads left out.
  function OwnSurplus(s: State, pc: Pc): int {
    s.semFull + W(pc, Token) + W(pc, Unposted) - |s.buffer| - W(pc, Unsettled)
  }

  function OwnSlots(s: State, pc: Pc): int {
    |s.buffer| + s.semEmpty + W(pc, PastWait) + W(pc, Freed) + W(pc, Unsettled)
  }

  // clear() found no token to take for the item it threw away.
  predicate SkipsToken(s: State, step: Step) {
    step.Go? && step.t in s.pcs && s.pcs[step.t].ClearRead? && s.semFull == 0
  }

  lemma Delta(c: Config, s: State, step: Step)
    requires Can(c, s, step)
    ensures var s' := Do(c, s, step);
            var pc, pc' := s.pcs[step.t], s'.pcs[step.t];
            && OwnSlots(s', pc') == OwnSlots(s, pc)
            && (pc == RemoveTake && s.buffer == [] ==> OwnSurplus(s', pc') == OwnSurplus(s, pc) - 1)
            && (SkipsToken(s, step) ==> OwnSurplus(s', pc') == OwnSurplus(s, pc) + 1)
            && (pc == PrePost ==> OwnSurplus(s', pc') == OwnSurplus(s, pc) + 1 && s'.posts == s.posts + 1)
            && (!(pc == RemoveTake && s.buffer == []) && !SkipsToken(s, step) && pc != PrePost
                ==> OwnSurplus(s', pc') == OwnSurplus(s, pc))
            && s'.posts >= s.posts
  {
    match step
    case Call(t, op) =>
    case Go(t) =>
      if Produces(s.pcs[t]) {
        DeltaAdd(s, t);
      } else if Consumes(s.pcs[t]) {
        DeltaRemove(s, t);
      } else {
        DeltaClear(c, s, t);
      }
  }

  lemma DeltaClear(c: Config, s: State, t: Tid)
    requires t in s.pcs && Enabled(s, s.pcs[t]) && !Produces(s.pcs[t]) && !Consumes(s.pcs[t])
    ensures var s' := GoClear(c, s, t);
            && OwnSlots(s', s'.pcs[t]) == OwnSlots(s, s.pcs[t])
            && OwnSurplus(s', s'.pcs[t]) == OwnSurplus(s, s.pcs[t])
                 + (if SkipsToken(s, Go(t)) || s.pcs[t] == PrePost then 1 else 0)
            && s'.posts == s.posts + if s.pcs[t] == PrePost then 1 else 0
  {
  }

  lemma DeltaAdd(s: State, t: Tid)
    requires t in s.pcs && Enabled(s, s.pcs[t]) && Produces(s.pcs[t])
    ensures var s' := GoAdd(s, t);
            && OwnSlots(s', s'.pcs[t]) == OwnSlots(s, s.pcs[t])
            && OwnSurplus(s', s'.pcs[t]) == OwnSurplus(s, s.pcs[t])
            && s'.posts == s.posts
  {
  }

  lemma DeltaRemove(s: State, t: Tid)
    requires t in s.pcs && Enabled(s, s.pcs[t]) && Consumes(s.pcs[t])
    ensures var s' := GoRemove(s, t);
            && OwnSlots(s', s'.pcs[t]) == OwnSlots(s, s.pcs[t])
            && OwnSurplus(s', s'.pcs[t]) == OwnSurplus(s, s.pcs[t])
                 - (if s.pcs[t] == RemoveTake && s.buffer == [] then 1 else 0)
            && s'.posts == s.posts
  {
  }

  // The counts move as far as the moving thread's own share does.
  lemma CountsMove(s: State, s': State, t: Tid)
    requires t in s.pcs && t in s'.pcs && s'.pcs == s.pcs[t := s'.pcs[t]]
    ensures Surplus(s') - Surplus(s) == OwnSurplus(s', s'.pcs[t]) - OwnSurplus(s, s.pcs[t])
    ensures Slots(s') - Slots(s) == OwnSlots(s', s'.pcs[t]) - OwnSlots(s, s.pcs[t])
  {
    Recount(s.pcs, t, s'.pcs[t]);
  }

  lemma CountStep(c: Config, s: State, step: Step)
    requires MutexInv(c, s) && CountInv(c, s) && Can(c, s, step)
    ensures CountInv(c, Do(c, s, step))
  {
    var s' := Do(c, s, step);
    Moves(c, s, step);
    Delta(c, s, step);
    CountsMove(s, s', step.t);
    SurplusStays(c, s, step);
  }

  lemma SurplusStays(c: Config, s: State, step: Step)
    requires MutexInv(c, s) && CountInv(c, s) && Can(c, s, step)
    ensures 0 <= Surplus(Do(c, s, step)) <= |c.consumers| + Do(c, s, step).posts
  {
    var s' := Do(c, s, step);
    Moves(c, s, step);
    Delta(c, s, step);
    CountsMove(s, s', step.t);
    if s.pcs[step.t] == RemoveTake && s.buffer == [] {
      assert step.t in Threads(s.pcs, Token);
      OnlyTheHolder(c, s, Unsettled);
    } else if SkipsToken(s, step) {
      TokensWithinConsumers(c, s);
      OnlyTheHolder(c, s, Unposted);
      OnlyTheHolder(c, s, Unsettled);
    }
  }

  lemma CountInit(c: Config, s: State)
    requires Init(c, s)
    ensures MutexInv(c, s) && CountInv(c, s)
  {
    forall k | k != Free ensures Count(s.pcs, k) == 0 {
      assert Threads(s.pcs, k) == {};
    }
  }

  /**
   In every interleaving: no slot is lost or invented; there are always at least as many
   wake-ups in circulation as queued items; and never more than one spare wake-up per
   consumer and per preDelete().
   */
  lemma {:induction false} SlotsAndWakeups(c: Config, s: State, steps: seq<Step>)
    requires MutexInv(c, s) && CountInv(c, s) && Runs(c, s, steps)
    ensures MutexInv(c, Final(c, s, steps)) && CountInv(c, Final(c, s, steps))
    decreases |steps|
  {
    if steps != [] {
      MutexStep(c, s, steps[0]);
      CountStep(c, s, steps[0]);
      SlotsAndWakeups(c, Do(c, s, steps[0]), steps[1..]);
    }
  }

  lemma ConservationFromStart(c: Config, s: State, steps: seq<Step>)
    requires Init(c, s) && Runs(c, s, steps)
    ensures var f := Final(c, s, steps);
            && |f.buffer| + f.semEmpty + Count(f.pcs, PastWait) + Count(f.pcs, Freed) + Count(f.pcs, Unsettled)
                == c.size
            && f.semFull + Count(f.pcs, Token) + Count(f.pcs, Unposted) >= |f.buffer| + Count(f.pcs, Unsettled)
            && f.semFull + Count(f.pcs, Token) + Count(f.pcs, Unposted)
               <= |f.buffer| + Count(f.pcs, Unsettled) + |c.consumers| + f.posts
            && Count(f.pcs, Unsettled) <= 1
            && |f.buffer| <= c.size
  {
    CountInit(c, s);
    SlotsAndWakeups(c, s, steps);
    OnlyTheHolder(c, Final(c, s, steps), Unsettled);
  }
}
