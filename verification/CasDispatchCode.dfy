/**
 Register, Unregister and event_data over their fields. A callback may register and
 unregister sinks itself, or other threads may while it runs; both are given as the steps
 that come during the call.
 */
module CasDispatchCode {

  import opened CasDispatch

  datatype Result = ERROR_NONE | ERROR_ALREADY_CONNECTED | ERROR_UNKNOWN_KEY

  // States and steps of a run.
  ghost predicate Path(states: seq<State>, steps: seq<Step>) {
    && |states| == |steps| + 1 && states[0] == START
    && forall i {:trigger steps[i]} | 0 <= i < |steps| :: Can(states[i], steps[i])
        && states[i + 1] == Do(states[i], steps[i])
  }

  lemma {:induction false} PathIsRun(states: seq<State>, steps: seq<Step>, n: nat)
    requires Path(states, steps) && n <= |steps|
    ensures Runs(steps[..n]) && After(steps[..n]) == states[n]
  {
    if n > 0 {
      PathIsRun(states, steps, n - 1);
      assert steps[..n][..n - 1] == steps[..n - 1] && steps[..n][n - 1] == steps[n - 1];
    }
  }

  class UnifiedCASManagementImplementation {
    var notifications: seq<Sink>
    // The references this object holds.
    var refs: map<Sink, int>
    // The calls of OnDataReceived.
    var log: seq<Call>
    ghost var machine: State
    // The run that led to `machine`.
    ghost var path: seq<State>
    ghost var trail: seq<Step>

    ghost predicate Valid()
      reads this
    {
      && Path(path, trail) && path[|trail|] == machine
      && notifications == machine.list && refs == machine.refs && log == machine.log
    }

    /** The object is always where a run of the machine leads. */
    lemma Reached()
      requires Valid()
      ensures Runs(trail) && After(trail) == machine && Invariant(machine)
    {
      PathIsRun(path, trail, |trail|);
      assert trail[..|trail|] == trail;
      RunKeeps(trail);
    }

    constructor ()
      ensures Valid() && machine == START
    {
      notifications, refs, log := [], map[], [];
      machine, path, trail := START, [START], [];
    }

    ghost method Move(step: Step)
      requires Path(path, trail) && path[|trail|] == machine && Can(machine, step)
      modifies `machine, `path, `trail
      ensures machine == Do(old(machine), step) && trail == old(trail) + [step]
      ensures Path(path, trail) && path[|trail|] == machine
    {
      machine := Do(machine, step);
      path, trail := path + [machine], trail + [step];
    }

    method Register(notification: Sink) returns (result: Result)
      requires Valid()
      modifies this
      ensures Valid() && machine == Do(old(machine), Step.Register(notification))
      ensures result == if notification in old(notifications) then ERROR_ALREADY_CONNECTED else ERROR_NONE
      ensures result == ERROR_NONE ==>
        && notifications == old(notifications) + [notification]
        && Refs(machine, notification) == Refs(old(machine), notification) + 1
      ensures result != ERROR_NONE ==> notifications == old(notifications) && refs == old(refs)
    {
      if notification !in notifications {
        notifications := notifications + [notification];
        refs := AddRef(refs, notification);
        result := ERROR_NONE;
      } else {
        result := ERROR_ALREADY_CONNECTED;
      }
      Move(Step.Register(notification));
    }

    method Unregister(notification: Sink) returns (result: Result)
      requires Valid()
      modifies this
      ensures Valid() && machine == Do(old(machine), Step.Unregister(notification))
      ensures result == if notification in old(notifications) then ERROR_NONE else ERROR_UNKNOWN_KEY
      ensures notification !in notifications
      ensures result == ERROR_NONE ==>
        && multiset(old(notifications)) == multiset(notifications) + multiset{notification}
        && Refs(machine, notification) == Refs(old(machine), notification) - 1
      ensures result != ERROR_NONE ==> notifications == old(notifications) && refs == old(refs)
    {
      Reached();
      WithoutOne(notifications, notification);
      WithoutCounts(notifications, notification);
      if notification in notifications {
        refs := Release(refs, notification);
        notifications := Without(notifications, notification);
        result := ERROR_NONE;
      } else {
        result := ERROR_UNKNOWN_KEY;
      }
      Move(Step.Unregister(notification));
    }

    // The locked part of event_data: the copy and its references.
    method Snapshot(ghost d: DispatchId, payload: Payload) returns (copy: seq<Sink>)
      requires Valid() && d !in machine.dispatches
      modifies this
      ensures Valid() && machine == Do(old(machine), Begin(d, payload)) && copy == old(notifications)
    {
      copy := notifications;
      var i := 0;
      assert copy[0..] == copy;
      while i < |copy|
        invariant 0 <= i <= |copy| && notifications == copy && log == old(log)
        invariant AddRefAll(refs, copy[i..]) == AddRefAll(old(refs), copy)
        invariant machine == old(machine) && path == old(path) && trail == old(trail)
      {
        assert copy[i..][1..] == copy[i + 1..];
        refs := AddRef(refs, copy[i]);
        i := i + 1;
      }
      Move(Begin(d, payload));
    }

    // What happens to the list while a sink is being called.
    method Meanwhile(ghost d: DispatchId, acts: seq<Step>)
      requires Valid() && d in machine.dispatches
      requires forall act :: act in acts ==> act.Register? || act.Unregister?
      modifies this
      ensures Valid() && log == old(log) && machine.dispatches == old(machine.dispatches)
    {
      var i := 0;
      while i < |acts|
        invariant 0 <= i <= |acts| && Valid() && log == old(log) && machine.dispatches == old(machine.dispatches)
      {
        assert acts[i] in acts;
        if acts[i].Register? {
          var r := Register(acts[i].sink);
        } else {
          var r := Unregister(acts[i].sink);
        }
        i := i + 1;
      }
    }

    method CallOne(d: DispatchId, sink: Sink, payload: Payload, acts: seq<Step>, ghost n: nat)
      requires Valid() && d in machine.dispatches && n < |machine.dispatches[d].snapshot|
      requires machine.dispatches[d] == Dispatch(payload, machine.dispatches[d].snapshot, n, false)
      requires machine.dispatches[d].snapshot[n] == sink
      requires forall act :: act in acts ==> act.Register? || act.Unregister?
      modifies this
      ensures Valid() && d in machine.dispatches
      ensures machine.dispatches[d] == Dispatch(payload, old(machine.dispatches[d].snapshot), n + 1, false)
      ensures log == old(log) + [Call(d, sink, payload)]
    {
      Move(CallSink(d));
      log := log + [Call(d, sink, payload)];
      Meanwhile(d, acts);
      refs := Release(refs, sink);
      Move(Return(d));
    }

    /**
     One event: every sink of the list is called once, in order, with the payload, whatever
     the list goes through during the calls (during[i] comes in the call of the i-th sink).
     */
    method EventData(d: DispatchId, payload: Payload, during: seq<seq<Step>>)
      requires Valid() && d !in machine.dispatches && |during| == |notifications|
      requires forall i, act :: 0 <= i < |during| && act in during[i] ==> act.Register? || act.Unregister?
      modifies this
      ensures Valid() && log == old(log) + CallsFor(d, old(notifications), payload)
      ensures d in machine.dispatches
          && machine.dispatches[d] == Dispatch(payload, old(notifications), |old(notifications)|, false)
    {
      var copy := Snapshot(d, payload);
      var i := 0;
      assert CallsFor(d, copy[..0], payload) == [] && log + [] == log;
      while i < |copy|
        invariant 0 <= i <= |copy| && Valid() && d in machine.dispatches
        invariant machine.dispatches[d] == Dispatch(payload, copy, i, false)
        invariant log == old(log) + CallsFor(d, copy[..i], payload)
      {
        CallOne(d, copy[i], payload, during[i], i);
        assert CallsFor(d, copy[..i + 1], payload) == CallsFor(d, copy[..i], payload) + [Call(d, copy[i], payload)];
        i := i + 1;
      }
      assert copy[..i] == copy;
    }
  }
}
