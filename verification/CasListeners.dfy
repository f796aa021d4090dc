/**
 Who is listed, and who is called, told from the calls of Register and Unregister alone.
 */
module CasListeners {

  import opened CasDispatch

  // A Register of k that no Unregister of k has come after.
  predicate Stands(steps: seq<Step>, k: Sink, i: nat) {
    i < |steps| && steps[i] == Register(k) && forall j :: i < j < |steps| ==> steps[j] != Unregister(k)
  }

  // The last Register or Unregister of k is a Register.
  ghost predicate Registered(steps: seq<Step>, k: Sink) {
    exists i: nat :: Stands(steps, k, i)
  }

  // The Register that put k on the list: later ones find it there.
  ghost predicate Puts(steps: seq<Step>, k: Sink, i: nat) {
    Stands(steps, k, i) && forall j: nat :: j < i ==> !Stands(steps, k, j)
  }

  lemma StandsStep(steps: seq<Step>, k: Sink, i: nat)
    requires |steps| > 0
    ensures var n := |steps| - 1;
      Stands(steps, k, i) <==>
        (i == n && steps[n] == Register(k)) || (steps[n] != Unregister(k) && Stands(steps[..n], k, i))
  {
    var n := |steps| - 1;
    if steps[n] != Unregister(k) && Stands(steps[..n], k, i) {
      assert forall j :: i < j < n ==> steps[..n][j] == steps[j];
    }
    if Stands(steps, k, i) && i < n {
      assert forall j :: i < j < n ==> steps[..n][j] == steps[j];
    }
  }

  lemma RegisteredStep(steps: seq<Step>, k: Sink)
    requires |steps| > 0
    ensures var n := |steps| - 1;
      Registered(steps, k) <==>
        steps[n] == Register(k) || (steps[n] != Unregister(k) && Registered(steps[..n], k))
  {
    var n := |steps| - 1;
    if steps[n] == Register(k) {
      StandsStep(steps, k, n);
    }
    forall i: nat | Stands(steps, k, i)
      ensures steps[n] == Register(k) || (steps[n] != Unregister(k) && Stands(steps[..n], k, i))
    {
      StandsStep(steps, k, i);
    }
    forall i: nat ensures steps[n] != Unregister(k) && Stands(steps[..n], k, i) ==> Stands(steps, k, i) {
      StandsStep(steps, k, i);
    }
  }

  /** A sink is listed if and only if the last Register or Unregister of it is a Register. */
  lemma {:induction false} ListedExactly(steps: seq<Step>, k: Sink)
    requires Runs(steps)
    ensures k in After(steps).list <==> Registered(steps, k)
    decreases |steps|
  {
    if |steps| > 0 {
      var front := steps[..|steps| - 1];
      ListedExactly(front, k);
      RegisteredStep(steps, k);
      RunKeeps(front);
      if steps[|steps| - 1].Unregister? {
        WithoutOne(After(front).list, steps[|steps| - 1].sink);
      }
    }
  }

  lemma PutsBefore(steps: seq<Step>, k: Sink, i: nat)
    requires Runs(steps) && |steps| > 0 && Puts(steps, k, i)
    ensures if k in After(steps[..|steps| - 1]).list then Puts(steps[..|steps| - 1], k, i) else i == |steps| - 1
  {
    var n := |steps| - 1;
    ListedExactly(steps[..n], k);
    StandsStep(steps, k, i);
    if k in After(steps[..n]).list {
      var m: nat :| Stands(steps[..n], k, m);
      assert steps[n] != Unregister(k);
      StandsStep(steps, k, m);
      assert i <= m;
      forall j: nat | j < i ensures !Stands(steps[..n], k, j) {
        StandsStep(steps, k, j);
      }
    }
  }

  lemma {:induction false} WithoutPlaces(list: seq<Sink>, k: Sink, a: nat, b: nat) returns (c: nat, d: nat)
    requires a < b < |Without(list, k)|
    ensures c < d < |list| && list[c] == Without(list, k)[a] && list[d] == Without(list, k)[b]
  {
    if list[0] == k {
      c, d := a + 1, b + 1;
    } else if a > 0 {
      c, d := WithoutPlaces(list[1..], k, a - 1, b - 1);
      c, d := c + 1, d + 1;
    } else {
      c, d := 0, WithoutPlace(list[1..], k, b - 1) + 1;
    }
  }

  function WithoutPlace(list: seq<Sink>, k: Sink, a: nat): (c: nat)
    requires a < |Without(list, k)|
    ensures c < |list| && list[c] == Without(list, k)[a]
  {
    if list[0] == k then a + 1 else if a == 0 then 0 else WithoutPlace(list[1..], k, a - 1) + 1
  }

  /** The list is in the order of the Registers that put its sinks there. */
  lemma {:induction false} ListedInOrder(steps: seq<Step>, a: nat, b: nat, i: nat, j: nat)
    requires Runs(steps) && a < b < |After(steps).list|
    requires Puts(steps, After(steps).list[a], i) && Puts(steps, After(steps).list[b], j)
    ensures i < j
    decreases |steps|
  {
    var n := |steps| - 1;
    var before, after := After(steps[..n]).list, After(steps).list;
    RunKeeps(steps);
    assert Distinct(after);
    PutsBefore(steps, after[a], i);
    PutsBefore(steps, after[b], j);
    if steps[n].Unregister? && steps[n].sink in before {
      var c, d := WithoutPlaces(before, steps[n].sink, a, b);
      ListedInOrder(steps[..n], c, d, i, j);
    } else if b < |before| {
      ListedInOrder(steps[..n], a, b, i, j);
    } else {
      assert before[a] == after[a];
    }
  }

  // ---------------------------------------------------------------------------------
  // Who is called
  // ---------------------------------------------------------------------------------

  lemma {:induction false} CallsOfCounts(log: seq<Call>, c: Call)
    ensures multiset(CallsOf(log, c.dispatch))[c] == multiset(log)[c]
    decreases |log|
  {
    if log != [] {
      var n := |log| - 1;
      CallsOfCounts(log[..n], c);
      assert log == log[..n] + [log[n]];
    }
  }

  lemma {:induction false} CallsForCounts(d: DispatchId, sinks: seq<Sink>, payload: Payload, c: Call)
    requires Distinct(sinks) && c.dispatch == d
    ensures multiset(CallsFor(d, sinks, payload))[c] == if c.payload == payload && c.sink in sinks then 1 else 0
    decreases |sinks|
  {
    if sinks != [] {
      var n := |sinks| - 1;
      CallsForCounts(d, sinks[..n], payload, c);
      assert sinks == sinks[..n] + [sinks[n]];
      assert CallsFor(d, sinks, payload) == CallsFor(d, sinks[..n], payload) + [Call(d, sinks[n], payload)];
    }
  }

  ghost predicate Finished(s: State, d: DispatchId) {
    d in s.dispatches && s.dispatches[d].next == |s.dispatches[d].snapshot|
  }

  /**
   A finished dispatch has called a sink exactly once, with its own payload, if the last Register
   or Unregister before it began was a Register, and else never.
   */
  lemma CallsExactlyTheRegistered(steps: seq<Step>, n: nat, c: Call)
    requires Runs(steps) && n < |steps| && steps[n].Begin? && steps[n].d == c.dispatch
    requires Finished(After(steps), c.dispatch)
    ensures multiset(After(steps).log)[c] ==
      if c.payload == steps[n].payload && Registered(steps[..n], c.sink) then 1 else 0
  {
    SnapshotTaken(steps, n);
    DeliversItsSnapshot(steps, n);
    ListedExactly(steps[..n], c.sink);
    CallsOfCounts(After(steps).log, c);
    CallsForCounts(c.dispatch, After(steps[..n]).list, steps[n].payload, c);
  }

  /** So a dispatch that began after Register(k), with no Unregister(k) in between, has called k once. */
  lemma CallsWhoRegistered(steps: seq<Step>, m: nat, n: nat, k: Sink)
    requires Runs(steps) && m < n < |steps| && steps[n].Begin? && Finished(After(steps), steps[n].d)
    requires steps[m] == Register(k) && forall j :: m < j < n ==> steps[j] != Unregister(k)
    ensures multiset(After(steps).log)[Call(steps[n].d, k, steps[n].payload)] == 1
  {
    assert Stands(steps[..n], k, m);
    CallsExactlyTheRegistered(steps, n, Call(steps[n].d, k, steps[n].payload));
  }

  /** And one that began after Unregister(k), with no Register(k) in between, has not called it. */
  lemma CallsNobodyWhoLeft(steps: seq<Step>, m: nat, n: nat, c: Call)
    requires Runs(steps) && m < n < |steps| && steps[n].Begin? && Finished(After(steps), steps[n].d)
    requires steps[m] == Unregister(c.sink) && forall j :: m < j < n ==> steps[j] != Register(c.sink)
    requires c.dispatch == steps[n].d
    ensures c !in After(steps).log
  {
    forall i: nat ensures !Stands(steps[..n], c.sink, i) {
      assert i < m ==> steps[..n][m] == Unregister(c.sink);
    }
    CallsExactlyTheRegistered(steps, n, c);
    assert multiset(After(steps).log)[c] == 0;
  }
}
