/**
 The methods of BufferQueue.cpp and the loop of PushDataAppSrc as code over fields, each
 written in the order of the source and each tied, line by line, to moves of the machine:
 what a call does when no other thread interleaves is one legal run of that machine.
 */
module QueueCode {

  import opened Wrappers
  import opened QueueMachine
  import opened QueueFates

  // States and steps of a run.
  ghost predicate Path(c: Config, states: seq<State>, steps: seq<Step>) {
    && |states| == |steps| + 1
    && forall i {:trigger steps[i]} | 0 <= i < |steps| :: Can(c, states[i], steps[i])
        && states[i + 1] == Do(c, states[i], steps[i])
  }

  lemma {:induction false} PathIsRun(c: Config, states: seq<State>, steps: seq<Step>, n: nat)
    requires Path(c, states, steps) && n <= |steps|
    ensures Runs(c, states[0], steps[..n]) && Final(c, states[0], steps[..n]) == states[n]
  {
    if n > 0 {
      PathIsRun(c, states, steps, n - 1);
      RunsSnoc(c, states[0], steps[..n - 1], steps[n - 1]);
      assert steps[..n - 1] + [steps[n - 1]] == steps[..n];
    }
  }

  class BufferQueue {
    var buffer: seq<Buffer>
    var semFull: nat
    var semEmpty: nat
    // Stands for the pointer that `new Buffer` returns next.
    var nextId: nat
    // What appsrc was given.
    var pushed: seq<seq<Byte>>

    ghost const config: Config
    ghost const start: State
    ghost var machine: State
    // The run that led to `machine`.
    ghost var path: seq<State>
    ghost var trail: seq<Step>

    // The object is where a run of the machine from its initial state leads.
    ghost predicate OnTrail()
      reads this
    {
      && !config.atomicDrain && Path(config, path, trail) && path[0] == start && path[|trail|] == machine
      && machine.buffer == buffer && machine.semFull == semFull && machine.semEmpty == semEmpty
      && machine.pushed == pushed && machine.nextId == nextId
    }

    ghost predicate Valid()
      reads this
    {
      OnTrail() && machine.lock == None && forall t <- machine.pcs :: machine.pcs[t] == Idle
    }

    // Thread t cannot go on.
    ghost predicate Sleeping(t: Tid)
      reads this
    {
      t in machine.pcs && !Can(config, machine, Go(t))
    }

    constructor (size: nat, ghost threads: set<Tid>, ghost consumers: set<Tid>)
      requires consumers <= threads
      ensures Valid() && buffer == [] && semFull == 0 && semEmpty == size && pushed == []
      ensures machine.pcs.Keys == threads && config == Config(size, consumers, false) && Init(config, start)
    {
      buffer, semFull, semEmpty, pushed, nextId := [], 0, size, [], 0;
      config := Config(size, consumers, false);
      var s := State([], 0, size, None, map t | t in threads :: Idle, 0, [], [], [], 0, {}, 0);
      start, machine, path, trail := s, s, [s], [];
    }

    ghost method Move(step: Step)
      requires Path(config, path, trail) && path[|trail|] == machine && Can(config, machine, step)
      modifies `machine, `path, `trail
      ensures machine == Do(config, old(machine), step)
      ensures Path(config, path, trail) && path[|trail|] == machine && path[0] == old(path[0])
    {
      machine := Do(config, machine, step);
      path, trail := path + [machine], trail + [step];
    }

    /** The object is always where a run of the machine from its start leads. */
    lemma Reached()
      requires OnTrail()
      ensures Runs(config, start, trail) && Final(config, start, trail) == machine
    {
      PathIsRun(config, path, trail, |trail|);
      assert trail[..|trail|] == trail;
    }

    method IsFull() returns (full: bool)
      ensures full == (semEmpty == 0)
    {
      var value := semEmpty;
      full := value == 0;
    }

    method PushData(ghost t: Tid, data: seq<Byte>)
      requires Valid() && t in machine.pcs
      modifies this
      ensures Valid() && machine.pcs.Keys == old(machine.pcs.Keys)
      ensures old(semEmpty) == 0 ==> buffer == old(buffer) && semFull == old(semFull) && semEmpty == 0
      ensures old(semEmpty) > 0 ==> |buffer| == |old(buffer)| + 1 && buffer[..|old(buffer)|] == old(buffer)
                                    && buffer[|old(buffer)|].data == data
                                    && semFull == old(semFull) + 1 && semEmpty == old(semEmpty) - 1
      ensures pushed == old(pushed)
    {
      Move(Call(t, Op.PushData(data)));
      var full := IsFull();
      Move(Go(t));
      if !full {
        var b := Buffer(nextId, data);
        nextId := nextId + 1;
        var done := Add(t, b);
      }
    }

    // Entered with the caller's buffer made and the thread in front of its first wait, where it
    // stays asleep when no slot is free.
    method Add(ghost t: Tid, data: Buffer) returns (done: bool)
      requires OnTrail() && machine.lock == None && t in machine.pcs && machine.pcs[t] == AddWait(data)
      requires forall u <- machine.pcs :: u != t ==> machine.pcs[u] == Idle
      modifies this
      ensures OnTrail() && machine.pcs.Keys == old(machine.pcs.Keys) && pushed == old(pushed)
      ensures done == (old(semEmpty) > 0)
      ensures done ==> Valid() && buffer == old(buffer) + [data] && semFull == old(semFull) + 1
                       && semEmpty == old(semEmpty) - 1
      ensures !done ==> Sleeping(t) && machine == old(machine)
    {
      if semEmpty == 0 {
        return false;
      }
      EnterAdd(t, data);
      PutItem(t, data);
      LeaveAdd(t);
      return true;
    }

    method PutItem(ghost t: Tid, data: Buffer)
      requires OnTrail() && machine.lock == Some(t) && t in machine.pcs && machine.pcs[t] == AddPush(data)
      modifies `buffer, `machine, `path, `trail
      ensures OnTrail() && machine.lock == Some(t) && machine.pcs == old(machine.pcs)[t := AddPost]
      ensures buffer == old(buffer) + [data]
    {
      buffer := buffer + [data];
      Move(Go(t));
    }

    method LeaveAdd(ghost t: Tid)
      requires OnTrail() && machine.lock == Some(t) && t in machine.pcs && machine.pcs[t] == AddPost
      modifies `semFull, `machine, `path, `trail
      ensures OnTrail() && machine.lock == None && machine.pcs == old(machine.pcs)[t := Idle]
          && semFull == old(semFull) + 1
    {
      semFull := semFull + 1;
      Move(Go(t));
      Move(Go(t));
    }

    // The wait for a slot, and the lock.
    method EnterAdd(ghost t: Tid, ghost data: Buffer)
      requires OnTrail() && machine.lock == None && t in machine.pcs && machine.pcs[t] == AddWait(data) && semEmpty > 0
      modifies `semEmpty, `machine, `path, `trail
      ensures OnTrail() && machine.lock == Some(t) && machine.pcs == old(machine.pcs)[t := AddPush(data)]
      ensures semEmpty == old(semEmpty) - 1
    {
      semEmpty := semEmpty - 1;
      Move(Go(t));
      Move(Go(t));
    }

    method Clear(ghost t: Tid)
      requires Valid() && t in machine.pcs
      modifies this
      ensures Valid() && machine.pcs.Keys == old(machine.pcs.Keys)
      ensures buffer == [] && semEmpty == old(semEmpty) + |old(buffer)|
      ensures semFull == if old(semFull) >= |old(buffer)| then old(semFull) - |old(buffer)| else 0
      ensures pushed == old(pushed)
    {
      Move(Call(t, Op.Clear));
      ClearBody(t, false);
    }

    method ClearBody(ghost t: Tid, ghost pre: bool)
      requires OnTrail() && machine.lock == None && t in machine.pcs && machine.pcs[t] == ClearLock(pre)
      requires forall u <- machine.pcs :: u != t ==> machine.pcs[u] == Idle
      modifies this
      ensures OnTrail() && machine.lock == None && machine.pcs == old(machine.pcs)[t := if pre then PrePost else Idle]
      ensures buffer == [] && semEmpty == old(semEmpty) + |old(buffer)|
      ensures semFull == if old(semFull) >= |old(buffer)| then old(semFull) - |old(buffer)| else 0
      ensures pushed == old(pushed)
    {
      Move(Go(t));
      while buffer != []
        invariant OnTrail() && machine.lock == Some(t) && machine.pcs == old(machine.pcs)[t := ClearTest(pre)]
        invariant semEmpty + |buffer| == old(semEmpty) + |old(buffer)| && |buffer| <= |old(buffer)|
        invariant semFull == if old(semFull) >= |old(buffer)| - |buffer|
                             then old(semFull) - (|old(buffer)| - |buffer|) else 0
        invariant pushed == old(pushed)
        decreases |buffer|
      {
        ClearOne(t, pre);
      }
      LeaveClear(t, pre);
    }

    ghost method LeaveClear(t: Tid, pre: bool)
      requires OnTrail() && machine.lock == Some(t) && t in machine.pcs && machine.pcs[t] == ClearTest(pre)
          && buffer == []
      modifies `machine, `path, `trail
      ensures OnTrail() && machine.lock == None && machine.pcs == old(machine.pcs)[t := if pre then PrePost else Idle]
    {
      Move(Go(t));
      Move(Go(t));
    }

    // One turn of the loop in clear().
    method ClearOne(ghost t: Tid, ghost pre: bool)
      requires OnTrail() && machine.lock == Some(t) && t in machine.pcs && machine.pcs[t] == ClearTest(pre)
      requires buffer != []
      modifies this
      ensures OnTrail() && machine.lock == Some(t) && machine.pcs == old(machine.pcs)
      ensures buffer == old(buffer)[1..] && semEmpty == old(semEmpty) + 1
      ensures semFull == if old(semFull) > 0 then old(semFull) - 1 else 0
      ensures pushed == old(pushed)
    {
      var value := DropFront(t, pre);
      if value != 0 {
        TakeToken(t, pre, value);
      }
      PostSlot(t, pre);
    }

    // Line 102.
    method PostSlot(ghost t: Tid, ghost pre: bool)
      requires OnTrail() && machine.lock == Some(t) && t in machine.pcs && machine.pcs[t] == ClearPost(pre)
      modifies `semEmpty, `machine, `path, `trail
      ensures OnTrail() && machine.lock == Some(t) && machine.pcs == old(machine.pcs)[t := ClearTest(pre)]
      ensures semEmpty == old(semEmpty) + 1
    {
      semEmpty := semEmpty + 1;
      Move(Go(t));
    }

    // Line 101, which does not sleep here.
    method TakeToken(ghost t: Tid, ghost pre: bool, ghost value: nat)
      requires OnTrail() && machine.lock == Some(t) && t in machine.pcs && machine.pcs[t] == ClearWait(pre, value)
          && semFull > 0
      modifies `semFull, `machine, `path, `trail
      ensures OnTrail() && machine.lock == Some(t) && machine.pcs == old(machine.pcs)[t := ClearPost(pre)]
      ensures semFull == old(semFull) - 1
    {
      semFull := semFull - 1;
      Move(Go(t));
    }

    // Lines 95 to 99: throw the front item away and read the semaphore.
    method DropFront(ghost t: Tid, ghost pre: bool) returns (value: nat)
      requires OnTrail() && machine.lock == Some(t) && t in machine.pcs && machine.pcs[t] == ClearTest(pre)
      requires buffer != []
      modifies `buffer, `machine, `path, `trail
      ensures OnTrail() && machine.lock == Some(t) && value == semFull && buffer == old(buffer)[1..]
      ensures machine.pcs == old(machine.pcs)[t := if value != 0 then ClearWait(pre, value) else ClearPost(pre)]
    {
      buffer := buffer[1..];
      Move(Go(t));
      value := semFull;
      Move(Go(t));
    }

    method PreDelete(ghost t: Tid)
      requires Valid() && t in machine.pcs
      modifies this
      ensures Valid() && machine.pcs.Keys == old(machine.pcs.Keys)
      ensures buffer == [] && semEmpty == old(semEmpty) + |old(buffer)|
      ensures semFull == 1 + if old(semFull) >= |old(buffer)| then old(semFull) - |old(buffer)| else 0
      ensures pushed == old(pushed)
    {
      Move(Call(t, Op.PreDelete));
      ClearBody(t, true);
      semFull := semFull + 1;
      Move(Go(t));
    }

    // The wait for a token, and the lock.
    method EnterRemove(ghost t: Tid)
      requires OnTrail() && machine.lock == None && t in machine.pcs && machine.pcs[t] == RemoveWait && semFull > 0
      modifies `semFull, `machine, `path, `trail
      ensures OnTrail() && machine.lock == Some(t) && machine.pcs == old(machine.pcs)[t := RemoveTake]
      ensures semFull == old(semFull) - 1
    {
      semFull := semFull - 1;
      Move(Go(t));
      Move(Go(t));
    }

    // The front item, if the token stands for one.
    method TakeFront(ghost t: Tid) returns (item: Option<Buffer>)
      requires OnTrail() && machine.lock == Some(t) && t in machine.pcs && machine.pcs[t] == RemoveTake
      modifies `buffer, `semEmpty, `machine, `path, `trail
      ensures OnTrail() && machine.lock == Some(t) && machine.pcs == old(machine.pcs)[t := RemoveUnlock(item)]
      ensures old(buffer) == [] ==> item == None && buffer == [] && semEmpty == old(semEmpty)
      ensures old(buffer) != [] ==> item == Some(old(buffer)[0]) && buffer == old(buffer)[1..]
                                    && semEmpty == old(semEmpty) + 1
    {
      item := None;
      if buffer != [] {
        item := Some(buffer[0]);
        buffer := buffer[1..];
        Move(Go(t));  assert machine.pcs == old(machine.pcs)[t := RemovePost(item.value)];
        semEmpty := semEmpty + 1;
      }
      Move(Go(t));
    }

    // Asleep in front of its wait when there is no token.
    method Remove(ghost t: Tid) returns (done: bool, item: Option<Buffer>)
      requires Valid() && t in machine.pcs && t in config.consumers
      modifies this
      ensures OnTrail() && machine.lock == None && pushed == old(pushed) && done == (old(semFull) > 0)
      ensures done ==> machine.pcs == old(machine.pcs)[t := if item.Some? then Feed(item.value, 0) else Idle]
                       && semFull == old(semFull) - 1
      ensures done && old(buffer) == [] ==> item == None && buffer == [] && semEmpty == old(semEmpty)
      ensures done && old(buffer) != [] ==> item == Some(old(buffer)[0]) && buffer == old(buffer)[1..]
                                            && semEmpty == old(semEmpty) + 1
      ensures !done ==> item == None && Sleeping(t) && machine.pcs == old(machine.pcs)[t := RemoveWait]
                        && buffer == old(buffer) && semEmpty == old(semEmpty) && semFull == 0
    {
      Move(Call(t, Op.Remove));
      if semFull == 0 {
        return false, None;
      }
      EnterRemove(t);
      item := TakeFront(t);
      Move(Go(t));
      return true, item;
    }

    // The chunk loop of PushDataAppSrc over one buffer.
    method PushChunks(ghost t: Tid, b: Buffer)
      requires OnTrail() && machine.lock == None && t in machine.pcs && machine.pcs[t] == Feed(b, 0)
      requires forall u <- machine.pcs :: u != t ==> machine.pcs[u] == Idle
      modifies this
      ensures Valid() && machine.pcs.Keys == old(machine.pcs.Keys) && pushed == old(pushed) + Chunks(b.data)
      ensures buffer == old(buffer) && semFull == old(semFull) && semEmpty == old(semEmpty)
    {
      var length := |b.data|;
      var off := 0;
      assert b.data[0..] == b.data;
      while length != 0
        invariant 0 <= off && 0 <= length && off + length == |b.data|
        invariant OnTrail() && machine.lock == None && machine.pcs == old(machine.pcs)[t := Feed(b, off)]
        invariant pushed + Chunks(b.data[off..]) == old(pushed) + Chunks(b.data)
        invariant buffer == old(buffer) && semFull == old(semFull) && semEmpty == old(semEmpty)
        decreases length
      {
        ChunksOfRest(b, off);
        var lenToSend := length;
        if lenToSend > FRAGMENT {
          lenToSend := FRAGMENT;
        }
        Assoc(pushed, [b.data[off..off + lenToSend]], Chunks(b.data[off + lenToSend..]));
        pushed := pushed + [b.data[off..off + lenToSend]];
        Move(Go(t));
        off := off + lenToSend;
        length := length - lenToSend;
      }
      assert b.data[off..] == [] && pushed + [] == pushed;
      Move(Go(t));
    }

    /**
     One turn of the loop of PushDataAppSrc: take a buffer, or sleep until there is one, and hand it
     over in chunks.
     */
    method FeedOnce(ghost t: Tid) returns (done: bool)
      requires Valid() && t in machine.pcs && t in config.consumers
      modifies this
      ensures OnTrail() && machine.pcs.Keys == old(machine.pcs.Keys) && done == (old(semFull) > 0)
      ensures done ==> Valid() && semFull == old(semFull) - 1
      ensures done && old(buffer) == [] ==> pushed == old(pushed) && buffer == []
      ensures done && old(buffer) != []
          ==> pushed == old(pushed) + Chunks(old(buffer)[0].data) && buffer == old(buffer)[1..]
                                            && semEmpty == old(semEmpty) + 1
      ensures !done ==> Sleeping(t) && pushed == old(pushed) && buffer == old(buffer) && semEmpty == old(semEmpty)
    {
      var item: Option<Buffer>;
      done, item := Remove(t);
      if item.Some? {
        PushChunks(t, item.value);
      }
    }
  }
}
