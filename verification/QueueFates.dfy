/**
 What becomes of each buffer, and of the bytes in it, in every interleaving: the queue of
 BufferQueue.cpp between push_data and PushDataAppSrc of AudioPlayer.cpp.
 */
module QueueFates {

  import opened Wrappers
  import opened QueueMachine

  // ---------------------------------------------------------------------------------
  // Where each buffer is
  // ---------------------------------------------------------------------------------

  function Items(popped: seq<Popped>): seq<Buffer> {
    if popped == [] then [] else Items(popped[..|popped| - 1]) + [popped[|popped| - 1].item]
  }

  // The items that remove() handed out, oldest first.
  function Removed(popped: seq<Popped>): seq<Buffer> {
    if popped == [] then []
    else Removed(popped[..|popped| - 1])
         + if popped[|popped| - 1].cleared then [] else [popped[|popped| - 1].item]
  }

  function PendingOf(pc: Pc): Option<Buffer> {
    match pc
    case AddWait(b) => Some(b)
    case AddLock(b) => Some(b)
    case AddPush(b) => Some(b)
    case _ => None
  }

  // The buffer each thread is bringing in.
  function Bringing(pcs: map<Tid, Pc>): map<Tid, Buffer> {
    map t | t in pcs && PendingOf(pcs[t]).Some? :: PendingOf(pcs[t]).value
  }

  ghost predicate Pending(bringing: map<Tid, Buffer>, id: nat) {
    exists t :: t in bringing && bringing[t].id == id
  }

  ghost predicate Listed(items: seq<Buffer>, id: nat) {
    exists i :: 0 <= i < |items| && items[i].id == id
  }

  ghost predicate Left(s: State, id: nat, cleared: bool) {
    exists i :: 0 <= i < |s.popped| && s.popped[i].item.id == id && s.popped[i].cleared == cleared
  }

  // Every id given out is pending or accepted, never both, and never twice.
  ghost predicate IdsInv(bringing: map<Tid, Buffer>, accepted: seq<Buffer>, nextId: nat) {
    && (forall i, j | 0 <= i < j < |accepted| :: accepted[i].id != accepted[j].id)
    && (forall i | 0 <= i < |accepted| :: accepted[i].id < nextId)
    && (forall t <- bringing :: bringing[t].id < nextId && !Listed(accepted, bringing[t].id))
    && (forall t <- bringing, u <- bringing | t != u :: bringing[t].id != bringing[u].id)
    && (forall id | 0 <= id < nextId :: Pending(bringing, id) || Listed(accepted, id))
  }

  ghost predicate FateInv(s: State) {
    && s.accepted == Items(s.popped) + s.buffer
    && IdsInv(Bringing(s.pcs), s.accepted, s.nextId)
  }

  lemma IdsMade(bringing: map<Tid, Buffer>, accepted: seq<Buffer>, nextId: nat, t: Tid, b: Buffer)
    requires IdsInv(bringing, accepted, nextId) && t !in bringing && b.id == nextId
    ensures IdsInv(bringing[t := b], accepted, nextId + 1)
  {
    var now := bringing[t := b];
    forall id | 0 <= id < nextId + 1 ensures Pending(now, id) || Listed(accepted, id) {
      if id == nextId {
        assert t in now && now[t].id == id;
      } else if Pending(bringing, id) {
        var u :| u in bringing && bringing[u].id == id;
        assert u in now && now[u].id == id;
      }
    }
  }

  lemma IdsEntered(bringing: map<Tid, Buffer>, accepted: seq<Buffer>, nextId: nat, t: Tid)
    requires IdsInv(bringing, accepted, nextId) && t in bringing
    ensures IdsInv(bringing - {t}, accepted + [bringing[t]], nextId)
  {
    var now, acc := bringing - {t}, accepted + [bringing[t]];
    forall u <- now ensures !Listed(acc, now[u].id) {
      assert !Listed(accepted, now[u].id) && now[u].id != bringing[t].id;
    }
    assert !Listed(accepted, bringing[t].id);
    forall i, j | 0 <= i < j < |acc| ensures acc[i].id != acc[j].id {}
    forall id | 0 <= id < nextId ensures Pending(now, id) || Listed(acc, id) {
      if Listed(accepted, id) {
        var i :| 0 <= i < |accepted| && accepted[i].id == id;
        assert acc[i].id == id;
      } else {
        var u :| u in bringing && bringing[u].id == id;
        if u == t {
          assert acc[|accepted|].id == id;
        } else {
          assert u in now && now[u].id == id;
        }
      }
    }
  }

  // What one step does to a buffer.
  datatype Fate = Untouched | Made | Entered | Popping(cleared: bool)

  function FateOf(s: State, step: Step): Fate
    requires step.t in s.pcs
  {
    var pc := s.pcs[step.t];
    if (step.Call? && step.op.Add?) || (step.Go? && pc.PushTest? && s.semEmpty > 0) then Made
    else if step.Go? && pc.AddPush? then Entered
    else if step.Go? && (pc.RemoveTake? || pc.ClearTest?) && s.buffer != [] then Popping(pc.ClearTest?)
    else Untouched
  }

  // A buffer is made pending, or enters the queue at its tail, or leaves it at its head.
  ghost predicate Flows(s: State, s': State, t: Tid, fate: Fate)
    requires t in s.pcs && t in s'.pcs
  {
    var was, now := PendingOf(s.pcs[t]), PendingOf(s'.pcs[t]);
    match fate
    case Untouched => was == now && s'.accepted == s.accepted && s'.buffer == s.buffer
                      && s'.popped == s.popped && s'.nextId == s.nextId
    case Made => was == None && now.Some? && now.value.id == s.nextId && s'.nextId == s.nextId + 1
                 && s'.accepted == s.accepted && s'.buffer == s.buffer && s'.popped == s.popped
    case Entered => was.Some? && now == None && s'.accepted == s.accepted + [was.value]
                    && s'.buffer == s.buffer + [was.value] && s'.popped == s.popped && s'.nextId == s.nextId
    case Popping(cleared) =>
      was == now == None && s'.accepted == s.accepted && s'.nextId == s.nextId
      && s.buffer != [] && s'.buffer == s.buffer[1..] && s'.popped == s.popped + [Popped(s.buffer[0], cleared)]
  }

  lemma Flow(c: Config, s: State, step: Step)
    requires Can(c, s, step)
    ensures step.t in Do(c, s, step).pcs && Flows(s, Do(c, s, step), step.t, FateOf(s, step))
  {
    match step
    case Call(t, op) =>
    case Go(t) => if Produces(s.pcs[t]) {} else if Consumes(s.pcs[t]) {} else {}
  }

  lemma BringingUpdate(pcs: map<Tid, Pc>, t: Tid, pc: Pc)
    requires t in pcs
    ensures var was, now := Bringing(pcs), Bringing(pcs[t := pc]);
            && (t in was <==> PendingOf(pcs[t]).Some?)
            && (t in was ==> was[t] == PendingOf(pcs[t]).value)
            && now == (if PendingOf(pc).Some? then was[t := PendingOf(pc).value] else was - {t})
            && (PendingOf(pc) == PendingOf(pcs[t]) ==> now == was)
  {
  }

  lemma IdsMove(s: State, s': State, t: Tid, fate: Fate)
    requires IdsInv(Bringing(s.pcs), s.accepted, s.nextId)
    requires t in s.pcs && t in s'.pcs && s'.pcs == s.pcs[t := s'.pcs[t]] && Flows(s, s', t, fate)
    ensures IdsInv(Bringing(s'.pcs), s'.accepted, s'.nextId)
  {
    BringingUpdate(s.pcs, t, s'.pcs[t]);
    if fate == Made {
      IdsMade(Bringing(s.pcs), s.accepted, s.nextId, t, PendingOf(s'.pcs[t]).value);
    } else if fate == Entered {
      IdsEntered(Bringing(s.pcs), s.accepted, s.nextId, t);
    } else {
      assert Bringing(s'.pcs) == Bringing(s.pcs);
    }
  }

  lemma OrderMoves(s: State, s': State, t: Tid, fate: Fate)
    requires s.accepted == Items(s.popped) + s.buffer
    requires t in s.pcs && t in s'.pcs && Flows(s, s', t, fate)
    ensures s'.accepted == Items(s'.popped) + s'.buffer
  {
    match fate
    case Untouched =>
    case Made =>
    case Entered =>
      var b := PendingOf(s.pcs[t]).value;
      assert (Items(s.popped) + s.buffer) + [b] == Items(s.popped) + (s.buffer + [b]);
    case Popping(cleared) => PopOrder(s.popped, s.buffer, cleared);
  }

  lemma PopOrder(popped: seq<Popped>, buffer: seq<Buffer>, cleared: bool)
    requires buffer != []
    ensures Items(popped + [Popped(buffer[0], cleared)]) + buffer[1..] == Items(popped) + buffer
  {
    ItemsSnoc(popped, Popped(buffer[0], cleared));
    assert buffer == [buffer[0]] + buffer[1..];
  }

  lemma FateStep(c: Config, s: State, step: Step)
    requires FateInv(s) && Can(c, s, step)
    ensures FateInv(Do(c, s, step))
  {
    Moves(c, s, step);
    Flow(c, s, step);
    IdsMove(s, Do(c, s, step), step.t, FateOf(s, step));
    OrderMoves(s, Do(c, s, step), step.t, FateOf(s, step));
  }

  lemma ItemsSnoc(popped: seq<Popped>, p: Popped)
    ensures Items(popped + [p]) == Items(popped) + [p.item]
    ensures Removed(popped + [p]) == Removed(popped) + if p.cleared then [] else [p.item]
  {
    assert (popped + [p])[..|popped|] == popped;
  }

  lemma {:induction false} FatesAlways(c: Config, s: State, steps: seq<Step>)
    requires FateInv(s) && Runs(c, s, steps)
    ensures FateInv(Final(c, s, steps))
    decreases |steps|
  {
    if steps != [] {
      FateStep(c, s, steps[0]);
      FatesAlways(c, Do(c, s, steps[0]), steps[1..]);
    }
  }

  lemma {:induction false} ItemsAt(popped: seq<Popped>)
    ensures |Items(popped)| == |popped|
    ensures forall i | 0 <= i < |popped| :: Items(popped)[i] == popped[i].item
  {
    if popped != [] {
      ItemsAt(popped[..|popped| - 1]);
    }
  }

  /**
   In every run each buffer ever made is in exactly one place: on its way in, in the queue,
   handed out, or cleared; it leaves the queue at most once; and buffers leave in the order
   in which they came.
   */
  lemma ExactlyOneFate(c: Config, s: State, steps: seq<Step>, id: nat)
    requires Init(c, s) && Runs(c, s, steps) && id < Final(c, s, steps).nextId
    ensures var f := Final(c, s, steps);
            var pending := Pending(Bringing(f.pcs), id);
            && (pending || Listed(f.buffer, id) || Left(f, id, false) || Left(f, id, true))
            && !(pending && Listed(f.buffer, id))
            && !(pending && (Left(f, id, false) || Left(f, id, true)))
            && !(Listed(f.buffer, id) && (Left(f, id, false) || Left(f, id, true)))
            && !(Left(f, id, false) && Left(f, id, true))
            && (forall i, j | 0 <= i < j < |f.popped| :: f.popped[i].item.id != f.popped[j].item.id)
            && f.accepted == Items(f.popped) + f.buffer
  {
    assert Bringing(s.pcs) == map[];
    FatesAlways(c, s, steps);
    Places(Final(c, s, steps), id);
  }

  ghost predicate DistinctIds(items: seq<Buffer>) {
    forall i, j | 0 <= i < j < |items| :: items[i].id != items[j].id
  }

  lemma InOnePart(a: seq<Buffer>, b: seq<Buffer>, id: nat)
    requires DistinctIds(a + b)
    ensures Listed(a + b, id) <==> Listed(a, id) || Listed(b, id)
    ensures !(Listed(a, id) && Listed(b, id))
    ensures DistinctIds(a)
  {
    assert forall i | 0 <= i < |a| :: (a + b)[i] == a[i];
    assert forall i | 0 <= i < |b| :: (a + b)[|a| + i] == b[i];
  }

  lemma LeftOneWay(s: State, id: nat)
    requires DistinctIds(Items(s.popped))
    ensures Listed(Items(s.popped), id) <==> Left(s, id, false) || Left(s, id, true)
    ensures !(Left(s, id, false) && Left(s, id, true))
    ensures forall i, j | 0 <= i < j < |s.popped| :: s.popped[i].item.id != s.popped[j].item.id
  {
    ItemsAt(s.popped);
    if Listed(Items(s.popped), id) {
      var i :| 0 <= i < |s.popped| && Items(s.popped)[i].id == id;
      assert Left(s, id, s.popped[i].cleared);
    }
  }

  lemma Places(f: State, id: nat)
    requires FateInv(f) && id < f.nextId
    ensures var pending := Pending(Bringing(f.pcs), id);
            && (pending || Listed(f.buffer, id) || Left(f, id, false) || Left(f, id, true))
            && !(pending && Listed(f.buffer, id))
            && !(pending && (Left(f, id, false) || Left(f, id, true)))
            && !(Listed(f.buffer, id) && (Left(f, id, false) || Left(f, id, true)))
            && !(Left(f, id, false) && Left(f, id, true))
            && (forall i, j | 0 <= i < j < |f.popped| :: f.popped[i].item.id != f.popped[j].item.id)
  {
    InOnePart(Items(f.popped), f.buffer, id);
    LeftOneWay(f, id);
    assert Pending(Bringing(f.pcs), id) ==> !Listed(f.accepted, id);
  }

  // ---------------------------------------------------------------------------------
  // The bytes handed to appsrc
  // ---------------------------------------------------------------------------------

  function Chunks(data: seq<Byte>): seq<seq<Byte>> {
    if data == [] then []
    else if |data| <= FRAGMENT then [data]
    else [data[..FRAGMENT]] + Chunks(data[FRAGMENT..])
  }

  function AllChunks(items: seq<Buffer>): seq<seq<Byte>> {
    if items == [] then [] else AllChunks(items[..|items| - 1]) + Chunks(items[|items| - 1].data)
  }

  function Flatten(chunks: seq<seq<Byte>>): seq<Byte> {
    if chunks == [] then [] else chunks[0] + Flatten(chunks[1..])
  }

  function Bytes(items: seq<Buffer>): seq<Byte> {
    if items == [] then [] else Bytes(items[..|items| - 1]) + items[|items| - 1].data
  }

  // What the feeding thread has in hand and has not pushed yet.
  function Rest(pc: Pc): seq<Byte> {
    match pc
    case RemovePost(b) => b.data
    case RemoveUnlock(Some(b)) => b.data
    case Feed(b, off) => if off <= |b.data| then b.data[off..] else []
    case _ => []
  }

  ghost predicate StreamInv(c: Config, s: State, f: Tid) {
    && MutexInv(c, s) && c.consumers == {f}
    && s.pushed + Chunks(Rest(s.pcs[f])) == AllChunks(Removed(s.popped))
  }

  lemma ChunksOfRest(b: Buffer, off: nat)
    requires off < |b.data|
    ensures var end := if |b.data| - off > FRAGMENT then off + FRAGMENT else |b.data|;
            Chunks(b.data[off..]) == [b.data[off..end]] + Chunks(b.data[end..])
  {
    var rest := b.data[off..];
    if |rest| > FRAGMENT {
      assert rest[..FRAGMENT] == b.data[off..off + FRAGMENT];
      assert rest[FRAGMENT..] == b.data[off + FRAGMENT..];
    } else {
      assert b.data[off..|b.data|] == rest;
      assert b.data[|b.data|..] == [];
    }
  }

  // A step by a thread that is not the feeder leaves the feeder's side of the stream alone.
  lemma NotTheFeeder(c: Config, s: State, step: Step)
    requires Can(c, s, step) && !Consumes(s.pcs[step.t])
    ensures var s' := Do(c, s, step);
            s'.pushed == s.pushed && Rest(s'.pcs[step.t]) == [] == Rest(s.pcs[step.t])
    ensures FateOf(s, step) != Popping(false)
  {
    match step
    case Call(t, op) =>
    case Go(t) => if Produces(s.pcs[t]) {} else {}
  }

  lemma TheFeederTakes(s: State, t: Tid)
    requires t in s.pcs && Consumes(s.pcs[t]) && !s.pcs[t].Feed? && Enabled(s, s.pcs[t])
    ensures var s' := GoRemove(s, t);
            && s'.pushed == s.pushed
            && (!(s.pcs[t].RemoveTake? && s.buffer != []) ==>
                  Rest(s'.pcs[t]) == Rest(s.pcs[t]) && Removed(s'.popped) == Removed(s.popped))
            && (s.pcs[t].RemoveTake? && s.buffer != [] ==>
                  Rest(s.pcs[t]) == [] && Rest(s'.pcs[t]) == s.buffer[0].data
                  && Removed(s'.popped) == Removed(s.popped) + [s.buffer[0]])
  {
    match s.pcs[t]
    case RemoveTake =>
      if s.buffer != [] {
        ItemsSnoc(s.popped, Popped(s.buffer[0], false));
      }
    case RemoveUnlock(got) =>
      if got.Some? {
        assert got.value.data[0..] == got.value.data;
      }
    case _ =>
  }

  lemma TheFeederPushes(s: State, t: Tid)
    requires t in s.pcs && s.pcs[t].Feed?
    ensures var s' := GoRemove(s, t);
            && s'.popped == s.popped
            && s'.pushed + Chunks(Rest(s'.pcs[t])) == s.pushed + Chunks(Rest(s.pcs[t]))
  {
    var b, off := s.pcs[t].b, s.pcs[t].off;
    if off < |b.data| {
      ChunksOfRest(b, off);
      var end := if |b.data| - off > FRAGMENT then off + FRAGMENT else |b.data|;
      Assoc(s.pushed, [b.data[off..end]], Chunks(b.data[end..]));
    }
  }

  lemma Assoc<T>(a: seq<T>, b: seq<T>, c: seq<T>)
    ensures (a + b) + c == a + (b + c)
  {
  }

  lemma AllChunksSnoc(items: seq<Buffer>, b: Buffer)
    ensures AllChunks(items + [b]) == AllChunks(items) + Chunks(b.data)
  {
    assert (items + [b])[..|items|] == items;
  }

  lemma RemovedUnder(s: State, s': State, t: Tid, fate: Fate)
    requires t in s.pcs && t in s'.pcs && Flows(s, s', t, fate) && fate != Popping(false)
    ensures Removed(s'.popped) == Removed(s.popped)
  {
    if fate == Popping(true) {
      ItemsSnoc(s.popped, Popped(s.buffer[0], true));
    }
  }

  lemma StreamStep(c: Config, s: State, step: Step, f: Tid)
    requires StreamInv(c, s, f) && Can(c, s, step)
    ensures StreamInv(c, Do(c, s, step), f)
  {
    Moves(c, s, step);
    MutexStep(c, s, step);
    if !Consumes(s.pcs[step.t]) {
      NotTheFeeder(c, s, step);
      Flow(c, s, step);
      RemovedUnder(s, Do(c, s, step), step.t, FateOf(s, step));
    } else {
      assert step == Go(f);
      FeederStep(s, f);
    }
  }

  lemma FeederStep(s: State, f: Tid)
    requires f in s.pcs && Consumes(s.pcs[f]) && Enabled(s, s.pcs[f])
    requires s.pushed + Chunks(Rest(s.pcs[f])) == AllChunks(Removed(s.popped))
    ensures var s' := GoRemove(s, f); s'.pushed + Chunks(Rest(s'.pcs[f])) == AllChunks(Removed(s'.popped))
  {
    if s.pcs[f].Feed? {
      TheFeederPushes(s, f);
    } else {
      TheFeederTakes(s, f);
      if s.pcs[f].RemoveTake? && s.buffer != [] {
        TakeKeepsStream(s.pushed, Removed(s.popped), s.buffer[0]);
      }
    }
  }

  lemma TakeKeepsStream(pushed: seq<seq<Byte>>, items: seq<Buffer>, b: Buffer)
    requires pushed + Chunks([]) == AllChunks(items)
    ensures pushed + Chunks(b.data) == AllChunks(items + [b])
  {
    AllChunksSnoc(items, b);
    assert pushed + [] == pushed;
  }

  lemma {:induction false} StreamAlways(c: Config, s: State, steps: seq<Step>, f: Tid)
    requires StreamInv(c, s, f) && Runs(c, s, steps)
    ensures StreamInv(c, Final(c, s, steps), f)
    decreases |steps|
  {
    if steps != [] {
      StreamStep(c, s, steps[0], f);
      StreamAlways(c, Do(c, s, steps[0]), steps[1..], f);
    }
  }

  predicate ProperChunks(chunks: seq<seq<Byte>>) {
    forall i | 0 <= i < |chunks| :: 1 <= |chunks[i]| <= 131072
  }

  lemma {:induction false} ChunksRebuild(data: seq<Byte>)
    ensures Flatten(Chunks(data)) == data && ProperChunks(Chunks(data))
    ensures forall i | 0 <= i < |Chunks(data)| - 1 :: |Chunks(data)[i]| == 131072
    decreases |data|
  {
    if |data| > FRAGMENT {
      ChunksRebuild(data[FRAGMENT..]);
      assert Chunks(data)[0] == data[..FRAGMENT];
      assert Chunks(data)[1..] == Chunks(data[FRAGMENT..]);
      assert data == data[..FRAGMENT] + data[FRAGMENT..];
    } else if data != [] {
      assert Chunks(data)[1..] == [];
    }
  }

  lemma {:induction false} FlattenConcat(a: seq<seq<Byte>>, b: seq<seq<Byte>>)
    ensures Flatten(a + b) == Flatten(a) + Flatten(b)
  {
    if a == [] {
      assert a + b == b;
    } else {
      assert (a + b)[1..] == a[1..] + b;
      FlattenConcat(a[1..], b);
    }
  }

  lemma {:induction false} AllChunksRebuild(items: seq<Buffer>)
    ensures Flatten(AllChunks(items)) == Bytes(items) && ProperChunks(AllChunks(items))
  {
    if items != [] {
      var n := |items| - 1;
      AllChunksRebuild(items[..n]);
      ChunksRebuild(items[n].data);
      FlattenConcat(AllChunks(items[..n]), Chunks(items[n].data));
      ProperConcat(AllChunks(items[..n]), Chunks(items[n].data));
    }
  }

  lemma ProperConcat(a: seq<seq<Byte>>, b: seq<seq<Byte>>)
    ensures ProperChunks(a + b) <==> ProperChunks(a) && ProperChunks(b)
  {
    assert forall i | 0 <= i < |a| :: (a + b)[i] == a[i];
    assert forall i | 0 <= i < |b| :: (a + b)[|a| + i] == b[i];
  }

  lemma {:induction false} BytesConcat(a: seq<Buffer>, b: seq<Buffer>)
    ensures Bytes(a + b) == Bytes(a) + Bytes(b)
    decreases |b|
  {
    if b == [] {
      assert a + b == a;
    } else {
      var n := |b| - 1;
      assert (a + b)[..|a + b| - 1] == a + b[..n];
      BytesConcat(a, b[..n]);
    }
  }

  lemma {:induction false} NothingCleared(popped: seq<Popped>)
    requires forall i | 0 <= i < |popped| :: !popped[i].cleared
    ensures Removed(popped) == Items(popped)
  {
    if popped != [] {
      NothingCleared(popped[..|popped| - 1]);
    }
  }

  /**
   The byte stream. With one feeding thread, in every interleaving with any number of
   producers, clears and preDeletes: the chunks pushed so far, followed by the chunks of
   what the feeder holds, are exactly the chunks of the removed buffers in order; every
   chunk is non-empty and at most 131072 bytes; and as long as nothing was cleared, pushed
   bytes + rest in hand + queue are all the bytes ever accepted.
   */
  lemma ByteStream(c: Config, s: State, steps: seq<Step>, f: Tid)
    requires Init(c, s) && Runs(c, s, steps) && c.consumers == {f}
    ensures var l := Final(c, s, steps);
            && f in l.pcs
            && l.pushed + Chunks(Rest(l.pcs[f])) == AllChunks(Removed(l.popped))
            && ProperChunks(l.pushed)
            && Flatten(l.pushed) + Rest(l.pcs[f]) == Bytes(Removed(l.popped))
            && ((forall i | 0 <= i < |l.popped| :: !l.popped[i].cleared) ==>
                  Bytes(l.accepted) == Flatten(l.pushed) + Rest(l.pcs[f]) + Bytes(l.buffer))
  {
    assert Bringing(s.pcs) == map[];
    StreamAlways(c, s, steps, f);
    FatesAlways(c, s, steps);
    var l := Final(c, s, steps);
    PushedBytes(l.pushed, Rest(l.pcs[f]), Removed(l.popped));
    if forall i | 0 <= i < |l.popped| :: !l.popped[i].cleared {
      NothingCleared(l.popped);
      BytesConcat(Items(l.popped), l.buffer);
    }
  }

  lemma PushedBytes(pushed: seq<seq<Byte>>, rest: seq<Byte>, items: seq<Buffer>)
    requires pushed + Chunks(rest) == AllChunks(items)
    ensures ProperChunks(pushed) && Flatten(pushed) + rest == Bytes(items)
  {
    AllChunksRebuild(items);
    ChunksRebuild(rest);
    FlattenConcat(pushed, Chunks(rest));
    ProperConcat(pushed, Chunks(rest));
  }

  // ---------------------------------------------------------------------------------
  // isFull() and the add() after it
  // ---------------------------------------------------------------------------------

  // Only thread p produces, and only through push_data.
  predicate OnlyPushedBy(p: Tid, steps: seq<Step>) {
    forall i | 0 <= i < |steps| && steps[i].Call? ::
      !steps[i].op.Add? && (steps[i].op.PushData? ==> steps[i].t == p)
  }

  ghost predicate SoleProducer(s: State, p: Tid) {
    && (forall t <- s.pcs :: Produces(s.pcs[t]) ==> t == p)
    && (p in s.pcs && s.pcs[p].AddWait? ==> s.semEmpty > 0)
  }

  lemma SoleProducerStep(c: Config, s: State, step: Step, p: Tid)
    requires SoleProducer(s, p) && Can(c, s, step)
    requires step.Call? ==> !step.op.Add? && (step.op.PushData? ==> step.t == p)
    ensures SoleProducer(Do(c, s, step), p)
  {
    Moves(c, s, step);
    var s' := Do(c, s, step);
    if step.Go? && !Produces(s.pcs[step.t]) {
      NoProduction(c, s, step.t);
    }
    assert Produces(s'.pcs[step.t]) ==> step.t == p;
    assert forall t <- s'.pcs :: Produces(s'.pcs[t]) ==> t == p;
  }

  lemma NoProduction(c: Config, s: State, t: Tid)
    requires Can(c, s, Go(t)) && !Produces(s.pcs[t])
    ensures Do(c, s, Go(t)).semEmpty >= s.semEmpty && !Produces(Do(c, s, Go(t)).pcs[t])
  {
    if Consumes(s.pcs[t]) {} else {}
  }

  /** With a single producer, once isFull() said no, the add() that follows never sleeps. */
  lemma {:induction false} SoleProducerNeverSleeps(c: Config, s: State, steps: seq<Step>, p: Tid)
    requires SoleProducer(s, p) && Runs(c, s, steps) && OnlyPushedBy(p, steps)
    ensures var f := Final(c, s, steps);
            SoleProducer(f, p) && (p in f.pcs && f.pcs[p].AddWait? ==> Can(c, f, Go(p)))
    decreases |steps|
  {
    if steps != [] {
      SoleProducerStep(c, s, steps[0], p);
      assert forall i | 0 <= i < |steps[1..]| :: steps[1..][i] == steps[i + 1];
      SoleProducerNeverSleeps(c, Do(c, s, steps[0]), steps[1..], p);
    }
  }
}
