/**
 Listeners of UnifiedCASManagement/UnifiedCASManagementImplementation.cpp: a list of
 reference-counted sinks, and events that are dispatched to a snapshot of it without the lock.

 What happens under the lock is one step; the call of a sink begins and ends in two, so that
 anything can come between, also the sink taking itself off the list.
 */
module CasDispatch {

  type Sink = nat
  type DispatchId = nat
  type Payload = string

  // next: the sink to call or, when inCall, being called. Those from next on are still held.
  datatype Dispatch = Dispatch(payload: Payload, snapshot: seq<Sink>, next: nat, inCall: bool)

  datatype Call = Call(dispatch: DispatchId, sink: Sink, payload: Payload)

  // refs: how many references the object holds on a sink; log: the calls made so far.
  datatype State = State(list: seq<Sink>, refs: map<Sink, int>, dispatches: map<DispatchId, Dispatch>, log: seq<Call>)

  const START := State([], map[], map[], [])

  function Refs(s: State, k: Sink): int { if k in s.refs then s.refs[k] else 0 }

  function AddRef(refs: map<Sink, int>, k: Sink): map<Sink, int> {
    refs[k := (if k in refs then refs[k] else 0) + 1]
  }

  function Release(refs: map<Sink, int>, k: Sink): map<Sink, int> {
    refs[k := (if k in refs then refs[k] else 0) - 1]
  }

  function AddRefAll(refs: map<Sink, int>, sinks: seq<Sink>): map<Sink, int>
    decreases |sinks|
  {
    if sinks == [] then refs else AddRefAll(AddRef(refs, sinks[0]), sinks[1..])
  }

  function Without(list: seq<Sink>, k: Sink): seq<Sink> {
    if list == [] then [] else if list[0] == k then list[1..] else [list[0]] + Without(list[1..], k)
  }

  datatype Step =
    | Register(sink: Sink)
    | Unregister(sink: Sink)
    | Begin(d: DispatchId, payload: Payload)
    | CallSink(d: DispatchId)
    | Return(d: DispatchId)

  predicate Can(s: State, step: Step) {
    match step
    case Register(_) => true
    case Unregister(_) => true
    case Begin(d, _) => d !in s.dispatches
    case CallSink(d) => d in s.dispatches && s.dispatches[d].next < |s.dispatches[d].snapshot|
        && !s.dispatches[d].inCall
    case Return(d) => d in s.dispatches && s.dispatches[d].next < |s.dispatches[d].snapshot| && s.dispatches[d].inCall
  }

  function Do(s: State, step: Step): State
    requires Can(s, step)
  {
    match step
    case Register(k) =>
      if k in s.list then s else s.(list := s.list + [k], refs := AddRef(s.refs, k))
    case Unregister(k) =>
      if k in s.list then s.(list := Without(s.list, k), refs := Release(s.refs, k)) else s
    case Begin(d, payload) =>
      s.(refs := AddRefAll(s.refs, s.list), dispatches := s.dispatches[d := Dispatch(payload, s.list, 0, false)])
    case CallSink(d) =>
      var i := s.dispatches[d];
      s.(dispatches := s.dispatches[d := i.(inCall := true)], log := s.log + [Call(d, i.snapshot[i.next], i.payload)])
    case Return(d) =>
      var i := s.dispatches[d];
      s.(dispatches := s.dispatches[d := i.(inCall := false, next := i.next + 1)],
          refs := Release(s.refs, i.snapshot[i.next]))
  }

  // Runs, with the state they lead to. The last step is the newest.
  predicate Runs(steps: seq<Step>)
    decreases |steps|, 0
  {
    |steps| > 0 ==> Runs(steps[..|steps| - 1]) && Can(After(steps[..|steps| - 1]), steps[|steps| - 1])
  }

  function After(steps: seq<Step>): State
    requires Runs(steps)
    decreases |steps|, 1
  {
    if |steps| == 0 then START else Do(After(steps[..|steps| - 1]), steps[|steps| - 1])
  }

  // ---------------------------------------------------------------------------------
  // References
  // ---------------------------------------------------------------------------------

  predicate Distinct(list: seq<Sink>) {
    forall i, j :: 0 <= i < j < |list| ==> list[i] != list[j]
  }

  predicate HeldBy(s: State, d: DispatchId, k: Sink)
    requires d in s.dispatches
  {
    exists i :: s.dispatches[d].next <= i < |s.dispatches[d].snapshot| && s.dispatches[d].snapshot[i] == k
  }

  // The dispatches that have still to call k and to release it.
  function Holders(s: State, k: Sink): set<DispatchId> {
    set d | d in s.dispatches && HeldBy(s, d, k)
  }

  predicate Counted(s: State, k: Sink) {
    Refs(s, k) == (if k in s.list then 1 else 0) + |Holders(s, k)|
  }

  predicate DispatchOk(s: State, d: DispatchId)
    requires d in s.dispatches
  {
    var i := s.dispatches[d];
    Distinct(i.snapshot) && i.next <= |i.snapshot| && (i.inCall ==> i.next < |i.snapshot|)
  }

  ghost predicate Invariant(s: State) {
    && Distinct(s.list)
    && (forall d :: d in s.dispatches ==> DispatchOk(s, d))
    && (forall k :: Counted(s, k))
  }

  lemma {:induction false} AddRefAllCounts(refs: map<Sink, int>, sinks: seq<Sink>, k: Sink)
    requires Distinct(sinks)
    ensures var after := AddRefAll(refs, sinks);
      (if k in after then after[k] else 0) == (if k in refs then refs[k] else 0) + (if k in sinks then 1 else 0)
    decreases |sinks|
  {
    if sinks != [] {
      AddRefAllCounts(AddRef(refs, sinks[0]), sinks[1..], k);
      assert sinks == [sinks[0]] + sinks[1..];
    }
  }

  lemma ConsDistinct(k: Sink, list: seq<Sink>)
    requires k !in list && Distinct(list)
    ensures Distinct([k] + list)
  {
  }

  lemma {:induction false} WithoutOne(list: seq<Sink>, k: Sink)
    requires Distinct(list)
    ensures Distinct(Without(list, k)) && forall j :: j in Without(list, k) <==> j in list && j != k
  {
    if list != [] {
      WithoutOne(list[1..], k);
      assert list == [list[0]] + list[1..];
      assert list[0] !in list[1..];
      if list[0] != k {
        assert list[0] !in Without(list[1..], k);
        ConsDistinct(list[0], Without(list[1..], k));
      }
    }
  }

  lemma {:induction false} WithoutCounts(list: seq<Sink>, k: Sink)
    ensures k in list ==> multiset(list) == multiset(Without(list, k)) + multiset{k}
  {
    if list != [] {
      assert list == [list[0]] + list[1..];
      if list[0] != k {
        WithoutCounts(list[1..], k);
      }
    }
  }

  lemma SameHolders(s: State, s': State, k: Sink)
    requires s'.dispatches == s.dispatches
    ensures Holders(s', k) == Holders(s, k)
  {
    assert forall d :: d in s.dispatches ==> HeldBy(s', d, k) == HeldBy(s, d, k);
  }

  lemma BeginHolders(s: State, d: DispatchId, payload: Payload, k: Sink)
    requires Can(s, Begin(d, payload))
    ensures Holders(Do(s, Begin(d, payload)), k) == Holders(s, k) + (if k in s.list then {d} else {})
  {
    var s' := Do(s, Begin(d, payload));
    forall e | e in s'.dispatches ensures HeldBy(s', e, k) <==> if e == d then k in s.list else HeldBy(s, e, k) {
      if e == d {
        assert k in s.list <==> exists i :: 0 <= i < |s.list| && s.list[i] == k;
      }
    }
  }

  lemma ReturnHolders(s: State, d: DispatchId, k: Sink)
    requires Can(s, Return(d)) && DispatchOk(s, d)
    ensures var sink := s.dispatches[d].snapshot[s.dispatches[d].next];
      && d in Holders(s, sink)
      && Holders(Do(s, Return(d)), k) == if k == sink then Holders(s, k) - {d} else Holders(s, k)
  {
    var s' := Do(s, Return(d));
    var i := s.dispatches[d];
    var sink := i.snapshot[i.next];
    assert HeldBy(s, d, sink);
    forall e | e in s'.dispatches ensures HeldBy(s', e, k) <==> HeldBy(s, e, k) && !(e == d && k == sink) {
      if e == d && HeldBy(s, d, k) && k != sink {
        var n :| i.next <= n < |i.snapshot| && i.snapshot[n] == k;
        assert i.next + 1 <= n && s'.dispatches[d].snapshot[n] == k;
      }
      if e == d && HeldBy(s', d, k) {
        var n :| i.next + 1 <= n < |i.snapshot| && i.snapshot[n] == k;
        assert i.snapshot[n] == k;
      }
    }
  }

  lemma CountedStays(s: State, step: Step, k: Sink)
    requires Invariant(s) && Can(s, step)
    ensures Counted(Do(s, step), k)
  {
    assert Counted(s, k);
    if step.Begin? {
      AddRefAllCounts(s.refs, s.list, k);
      BeginHolders(s, step.d, step.payload, k);
      assert step.d !in Holders(s, k);
    } else if step.Return? {
      assert DispatchOk(s, step.d);
      ReturnHolders(s, step.d, k);
    } else if step.CallSink? {
      CallHolders(s, step.d, k);
    } else {
      WithoutOne(s.list, step.sink);
      SameHolders(s, Do(s, step), k);
    }
  }

  lemma CallHolders(s: State, d: DispatchId, k: Sink)
    requires Can(s, CallSink(d))
    ensures Holders(Do(s, CallSink(d)), k) == Holders(s, k)
  {
    var s' := Do(s, CallSink(d));
    assert forall e :: e in s.dispatches ==> HeldBy(s', e, k) == HeldBy(s, e, k);
  }

  lemma StepKeeps(s: State, step: Step)
    requires Invariant(s) && Can(s, step)
    ensures Invariant(Do(s, step))
  {
    var s' := Do(s, step);
    forall k ensures Counted(s', k) {
      CountedStays(s, step, k);
    }
    if step.Unregister? {
      WithoutOne(s.list, step.sink);
    }
    forall d | d in s'.dispatches ensures DispatchOk(s', d) {
      assert d in s.dispatches ==> DispatchOk(s, d);
    }
  }

  lemma {:induction false} RunKeeps(steps: seq<Step>)
    requires Runs(steps)
    ensures Invariant(After(steps))
    decreases |steps|
  {
    if |steps| > 0 {
      RunKeeps(steps[..|steps| - 1]);
      StepKeeps(After(steps[..|steps| - 1]), steps[|steps| - 1]);
    } else {
      assert forall k :: Holders(START, k) == {};
    }
  }

  /**
   In every run the references held on a sink are one for its place in the list and one for each
   dispatch that has not released it.
   */
  lemma ReferencesBalance(steps: seq<Step>, k: Sink)
    requires Runs(steps)
    ensures Refs(After(steps), k) == (if k in After(steps).list then 1 else 0) + |Holders(After(steps), k)|
  {
    RunKeeps(steps);
    assert Counted(After(steps), k);
  }

  /**
   A sink is held from before it is called until after, whatever happens meanwhile, and so is every
   sink the dispatch has still to call.
   */
  lemma CalledOnlyWhileHeld(steps: seq<Step>, d: DispatchId, i: nat)
    requires Runs(steps) && d in After(steps).dispatches
    requires After(steps).dispatches[d].next <= i < |After(steps).dispatches[d].snapshot|
    ensures var k := After(steps).dispatches[d].snapshot[i];
      Refs(After(steps), k) >= 1 && (k in After(steps).list ==> Refs(After(steps), k) >= 2)
  {
    var s := After(steps);
    var k := s.dispatches[d].snapshot[i];
    ReferencesBalance(steps, k);
    assert HeldBy(s, d, k) && d in Holders(s, k);
    assert Holders(s, k) != {};
  }

  /** When no dispatch is under way exactly the listed sinks are held, once each. */
  lemma NothingLeaks(steps: seq<Step>, k: Sink)
    requires Runs(steps)
    requires forall d :: d in After(steps).dispatches ==>
      After(steps).dispatches[d].next == |After(steps).dispatches[d].snapshot|
    ensures Refs(After(steps), k) == if k in After(steps).list then 1 else 0
  {
    ReferencesBalance(steps, k);
    assert Holders(After(steps), k) == {};
  }

  // ---------------------------------------------------------------------------------
  // Deliveries
  // ---------------------------------------------------------------------------------

  // The calls that dispatch d has made, in order.
  function CallsOf(log: seq<Call>, d: DispatchId): seq<Call>
    decreases |log|
  {
    if log == [] then []
    else CallsOf(log[..|log| - 1], d) + if log[|log| - 1].dispatch == d then [log[|log| - 1]] else []
  }

  function CallsFor(d: DispatchId, sinks: seq<Sink>, payload: Payload): seq<Call> {
    seq(|sinks|, i requires 0 <= i < |sinks| => Call(d, sinks[i], payload))
  }

  predicate Delivered(s: State, d: DispatchId)
    requires d in s.dispatches && DispatchOk(s, d)
  {
    var i := s.dispatches[d];
    CallsOf(s.log, d) == CallsFor(d, i.snapshot[..i.next + (if i.inCall then 1 else 0)], i.payload)
  }

  ghost predicate AllDelivered(s: State)
    requires Invariant(s)
  {
    && (forall d :: d in s.dispatches ==> DispatchOk(s, d) && Delivered(s, d))
    && (forall d :: d !in s.dispatches ==> CallsOf(s.log, d) == [])
  }

  lemma OneMoreCall(log: seq<Call>, c: Call, d: DispatchId)
    ensures CallsOf(log + [c], d) == CallsOf(log, d) + if c.dispatch == d then [c] else []
  {
    assert (log + [c])[..|log|] == log;
  }

  lemma CallDelivers(s: State, d: DispatchId, e: DispatchId)
    requires Can(s, CallSink(d)) && e in s.dispatches && DispatchOk(s, e) && Delivered(s, e)
    ensures var s' := Do(s, CallSink(d)); DispatchOk(s', e) && Delivered(s', e)
  {
    var i := s.dispatches[d];
    var c := Call(d, i.snapshot[i.next], i.payload);
    OneMoreCall(s.log, c, e);
    if e == d {
      assert i.snapshot[..i.next + 1] == i.snapshot[..i.next] + [i.snapshot[i.next]];
      assert CallsFor(d, i.snapshot[..i.next + 1], i.payload) == CallsFor(d, i.snapshot[..i.next], i.payload) + [c];
    }
  }

  lemma StepDelivers(s: State, step: Step)
    requires Invariant(s) && Can(s, step) && AllDelivered(s)
    ensures Invariant(Do(s, step)) && AllDelivered(Do(s, step))
  {
    StepKeeps(s, step);
    var s' := Do(s, step);
    forall d ensures if d in s'.dispatches then DispatchOk(s', d) && Delivered(s', d) else CallsOf(s'.log, d) == [] {
      if d in s.dispatches {
        assert DispatchOk(s, d) && Delivered(s, d);
        if step.CallSink? {
          CallDelivers(s, step.d, d);
        }
      } else if step.CallSink? {
        OneMoreCall(s.log, s'.log[|s.log|], d);
      }
    }
  }

  lemma {:induction false} RunDelivers(steps: seq<Step>)
    requires Runs(steps)
    ensures Invariant(After(steps)) && AllDelivered(After(steps))
    decreases |steps|
  {
    RunKeeps(steps);
    if |steps| > 0 {
      RunDelivers(steps[..|steps| - 1]);
      StepDelivers(After(steps[..|steps| - 1]), steps[|steps| - 1]);
    }
  }

  lemma {:induction false} SnapshotTaken(steps: seq<Step>, n: nat)
    requires Runs(steps) && n < |steps| && steps[n].Begin?
    ensures Runs(steps[..n]) && steps[n].d in After(steps).dispatches
    ensures After(steps).dispatches[steps[n].d].snapshot == After(steps[..n]).list
    ensures After(steps).dispatches[steps[n].d].payload == steps[n].payload
    decreases |steps|
  {
    var front := steps[..|steps| - 1];
    if n == |front| {
      assert steps[..n] == front;
    } else {
      SnapshotTaken(front, n);
      assert front[..n] == steps[..n];
    }
  }

  /**
   A dispatch that has finished has called exactly the sinks listed when it began, once each and in
   that order, with its payload.
   */
  lemma DeliversItsSnapshot(steps: seq<Step>, n: nat)
    requires Runs(steps) && n < |steps| && steps[n].Begin? && Runs(steps[..n])
    requires steps[n].d in After(steps).dispatches
    requires After(steps).dispatches[steps[n].d].next == |After(steps).dispatches[steps[n].d].snapshot|
    ensures CallsOf(After(steps).log, steps[n].d) == CallsFor(steps[n].d, After(steps[..n]).list, steps[n].payload)
    ensures Distinct(After(steps[..n]).list)
  {
    SnapshotTaken(steps, n);
    RunDelivers(steps);
    RunKeeps(steps[..n]);
    var s, d := After(steps), steps[n].d;
    assert DispatchOk(s, d) && Delivered(s, d);
    assert s.dispatches[d].snapshot[..s.dispatches[d].next] == s.dispatches[d].snapshot;
  }

  /** And before it has finished it has called the first of them. */
  lemma DeliversAPrefix(steps: seq<Step>, n: nat)
    requires Runs(steps) && n < |steps| && steps[n].Begin? && Runs(steps[..n])
    ensures CallsOf(After(steps).log, steps[n].d) <= CallsFor(steps[n].d, After(steps[..n]).list, steps[n].payload)
  {
    SnapshotTaken(steps, n);
    RunDelivers(steps);
    var s, d := After(steps), steps[n].d;
    assert DispatchOk(s, d) && Delivered(s, d);
    var i := s.dispatches[d];
    var m := i.next + if i.inCall then 1 else 0;
    assert CallsFor(d, i.snapshot, i.payload)[..m] == CallsFor(d, i.snapshot[..m], i.payload);
  }
}
