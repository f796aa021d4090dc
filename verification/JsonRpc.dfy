/**
 helpers/WebSockets/CommunicationInterface/JsonRpcInterface.h: requests sent from any number
 of threads and the responses that find them through a map of promises.

 One step is one stretch under responseMutex_, or one call made without it: a thread can be
 overtaken between the test for an ongoing request, the insertion, the sending, the end of
 the wait, the erasure and the reading of the response.
 */
module JsonRpc {

  import opened Wrappers

  type Id = n: int | 0 <= n < 0x1_0000_0000

  // The members of a response that isValid and processResponse look at; None is a member not set.
  datatype RpcError = RpcError(code: Option<int>, text: Option<string>)
  datatype RpcResult = RpcResult(success: Option<bool>)
  datatype Response = Response(version: Option<string>, id: Option<Id>, result: Option<RpcResult>,
      error: Option<RpcError>)
  {
    predicate IsValid() {
      && version == Some("2.0")
      && id.Some?
      && (result.Some? || error.Some?)
      && !(result.Some? && error.Some?)
      && (error.Some? ==> error.value.code.Some? && error.value.text.Some?)
    }
  }

  // What sendRequest makes of the response it waited for.
  predicate Accepts(id: Id, r: Response) {
    r.IsValid() && r.id == Some(id) && r.result.Some? && r.result.value.success == Some(true)
  }

  /**
   An accepted response is a JSON-RPC 2.0 response with its own id and a result, no error: section 5
   of the JSON-RPC 2.0 Specification.
   */
  lemma AcceptedIsSuccess(id: Id, r: Response)
    ensures Accepts(id, r) <==>
      r.version == Some("2.0") && r.id == Some(id) && r.error == None && r.result == Some(RpcResult(Some(true)))
  {
  }

  // Where a call of sendRequest is. In Created, Waiting and the three ToRemove it has a promise in the map.
  datatype Pc =
    | Begin
    | Checked
    | Created
    | Waiting
    | AnsweredToRemove
    | TimedOutToRemove
    | UnsentToRemove
    | ToProcess
    | Done(ok: bool)

  // A delivered response is the n-th that arrived.
  datatype Delivery = Delivery(n: nat, response: Response)
  // `got` is the shared state of the promise and its future; `woken`: wait_for reported ready.
  datatype Caller = Caller(id: Id, pc: Pc, got: Option<Delivery>, woken: bool)

  type CallerId = nat

  datatype State = State(callers: map<CallerId, Caller>, promises: map<Id, CallerId>, arrivals: nat)

  const START := State(map[], map[], 0)

  datatype Step =
    | Call(c: CallerId, id: Id)
    | Check(c: CallerId)
    | Create(c: CallerId)
    | Send(c: CallerId, sent: bool)
    | WaitEnds(c: CallerId)
    | Remove(c: CallerId)
    | Process(c: CallerId)
    | Arrive(routeId: Id, response: Response)

  predicate Holding(pc: Pc) {
    pc == Created || pc == Waiting || pc == AnsweredToRemove || pc == TimedOutToRemove || pc == UnsentToRemove
  }

  predicate At(s: State, c: CallerId, pc: Pc) {
    c in s.callers && s.callers[c].pc == pc
  }

  predicate Can(s: State, step: Step) {
    match step
    case Call(c, _) => c !in s.callers
    case Check(c) => At(s, c, Begin)
    case Create(c) => At(s, c, Checked)
    case Send(c, _) => At(s, c, Created)
    case WaitEnds(c) => At(s, c, Waiting)
    case Remove(c) => At(s, c, AnsweredToRemove) || At(s, c, TimedOutToRemove) || At(s, c, UnsentToRemove)
    case Process(c) => At(s, c, ToProcess)
    case Arrive(_, _) => true
  }

  function To(s: State, c: CallerId, pc: Pc): State
    requires c in s.callers
  {
    s.(callers := s.callers[c := s.callers[c].(pc := pc)])
  }

  // set_value throws: the promise has its value already.
  predicate Throws(s: State, routeId: Id) {
    routeId in s.promises && s.promises[routeId] in s.callers && s.callers[s.promises[routeId]].got.Some?
  }

  function Arrived(s: State, routeId: Id, r: Response): State {
    var counted := s.(arrivals := s.arrivals + 1);
    if routeId !in s.promises || s.promises[routeId] !in s.callers || Throws(s, routeId) then counted
    else
      var c := s.promises[routeId];
      counted.(callers := s.callers[c := s.callers[c].(got := Some(Delivery(s.arrivals, r)))])
  }

  function Do(s: State, step: Step): State
    requires Can(s, step)
  {
    match step
    case Call(c, id) => s.(callers := s.callers[c := Caller(id, Begin, None, false)])
    case Check(c) => To(s, c, if s.callers[c].id in s.promises then Done(false) else Checked)
    case Create(c) =>
      if s.callers[c].id in s.promises then To(s, c, Done(false))
      else To(s, c, Created).(promises := s.promises[s.callers[c].id := c])
    case Send(c, sent) => To(s, c, if sent then Waiting else UnsentToRemove)
    case WaitEnds(c) =>
      if s.callers[c].got.Some? then s.(callers := s.callers[c := s.callers[c].(pc := AnsweredToRemove, woken := true)])
      else To(s, c, TimedOutToRemove)
    case Remove(c) =>
      To(s, c, if s.callers[c].pc == AnsweredToRemove then ToProcess else Done(false))
        .(promises := s.promises - {s.callers[c].id})
    case Process(c) =>
      To(s, c, Done(s.callers[c].got.Some? && Accepts(s.callers[c].id, s.callers[c].got.value.response)))
    case Arrive(routeId, r) => Arrived(s, routeId, r)
  }

  // Runs, with the state they lead to. The last step is the newest.
  predicate Runs(steps: seq<Step>)
    decreases |steps|, 0
  {
    |steps| > 0 ==> Runs(steps[..|steps| - 1]) && Can(After(steps[..|steps| - 1]), steps[|steps| - 1])
  }

  function After(steps: seq<Step>): State
    requires Runs(steps)
    decreases |steps|, 1
  {
    if |steps| == 0 then START else Do(After(steps[..|steps| - 1]), steps[|steps| - 1])
  }

  lemma {:induction false} PrefixRuns(steps: seq<Step>, n: nat)
    requires Runs(steps) && n <= |steps|
    ensures Runs(steps[..n])
    decreases |steps|
  {
    if n == |steps| {
      assert steps[..n] == steps;
    } else {
      PrefixRuns(steps[..|steps| - 1], n);
      assert steps[..|steps| - 1][..n] == steps[..n];
    }
  }

  // ---------------------------------------------------------------------------------
  // The invariant
  // ---------------------------------------------------------------------------------

  // Each registered id belongs to one caller that still has to remove it.
  predicate Registered(s: State, id: Id)
    requires id in s.promises
  {
    s.promises[id] in s.callers && s.callers[s.promises[id]].id == id && Holding(s.callers[s.promises[id]].pc)
  }

  predicate CallerOk(s: State, c: CallerId)
    requires c in s.callers
  {
    var k := s.callers[c];
    && (Holding(k.pc) ==> k.id in s.promises && s.promises[k.id] == c)
    && (k.pc == Begin || k.pc == Checked ==> k.got == None && !k.woken)
    && (k.woken ==> k.got.Some?)
    && (k.pc == AnsweredToRemove || k.pc == ToProcess ==> k.woken)
    && (k.pc.Done? ==> (k.pc.ok <==> k.woken && k.got.Some? && Accepts(k.id, k.got.value.response)))
    && (k.pc == Created || k.pc == Waiting || k.pc == TimedOutToRemove || k.pc == UnsentToRemove ==> !k.woken)
    && (k.got.Some? ==> k.got.value.n < s.arrivals)
  }

  // No response was delivered twice.
  predicate Apart(s: State, c: CallerId, d: CallerId)
    requires c in s.callers && d in s.callers
  {
    c != d && s.callers[c].got.Some? && s.callers[d].got.Some? ==> s.callers[c].got.value.n != s.callers[d].got.value.n
  }

  predicate Invariant(s: State) {
    && (forall id :: id in s.promises ==> Registered(s, id))
    && (forall c :: c in s.callers ==> CallerOk(s, c))
    && (forall c, d :: c in s.callers && d in s.callers ==> Apart(s, c, d))
  }

  // What a step can do to the callers and to the map.
  predicate Touches(step: Step, s: State, c: CallerId)
    requires c in s.callers
  {
    if step.Arrive? then s.callers[c].id == step.routeId && step.routeId in s.promises && s.promises[step.routeId] == c
    else step.c == c
  }

  lemma OthersSame(s: State, step: Step, c: CallerId)
    requires Can(s, step) && c in s.callers && !Touches(step, s, c) && Invariant(s)
    ensures c in Do(s, step).callers && Do(s, step).callers[c] == s.callers[c]
  {
    if step.Arrive? && step.routeId in s.promises {
      assert Registered(s, step.routeId);
    }
  }

  lemma IdStays(s: State, step: Step, c: CallerId)
    requires Can(s, step) && c in s.callers
    ensures c in Do(s, step).callers && Do(s, step).callers[c].id == s.callers[c].id
    ensures s.callers[c].got.Some? ==> Do(s, step).callers[c].got == s.callers[c].got
  {
  }

  lemma RegisteredStays(s: State, step: Step, id: Id)
    requires Invariant(s) && Can(s, step) && id in Do(s, step).promises
    ensures Registered(Do(s, step), id)
  {
    assert id in s.promises ==> Registered(s, id);
    if !step.Arrive? && !step.Call? {
      assert CallerOk(s, step.c);
    }
  }

  lemma CallerStays(s: State, step: Step, c: CallerId)
    requires Invariant(s) && Can(s, step) && c in s.callers
    ensures c in Do(s, step).callers && CallerOk(Do(s, step), c)
  {
    assert CallerOk(s, c);
    if Touches(step, s, c) {
    } else {
      OthersSame(s, step, c);
      if step.Remove? {
        assert CallerOk(s, step.c);
      }
    }
  }

  lemma ApartStays(s: State, step: Step, c: CallerId, d: CallerId)
    requires Invariant(s) && Can(s, step) && c in Do(s, step).callers && d in Do(s, step).callers
    ensures Apart(Do(s, step), c, d)
  {
    if c in s.callers && d in s.callers && c != d {
      assert Apart(s, c, d) && CallerOk(s, c) && CallerOk(s, d);
      IdStays(s, step, c);
      IdStays(s, step, d);
      assert !Touches(step, s, c) || !Touches(step, s, d);
      if !Touches(step, s, c) {
        OthersSame(s, step, c);
      }
      if !Touches(step, s, d) {
        OthersSame(s, step, d);
      }
    }
  }

  lemma StepKeeps(s: State, step: Step)
    requires Invariant(s) && Can(s, step)
    ensures Invariant(Do(s, step))
  {
    var s' := Do(s, step);
    forall id | id in s'.promises ensures Registered(s', id) {
      RegisteredStays(s, step, id);
    }
    forall c | c in s'.callers ensures CallerOk(s', c) {
      if c in s.callers {
        CallerStays(s, step, c);
      }
    }
    forall c, d | c in s'.callers && d in s'.callers ensures Apart(s', c, d) {
      ApartStays(s, step, c, d);
    }
  }

  lemma {:induction false} RunKeeps(steps: seq<Step>)
    requires Runs(steps)
    ensures Invariant(After(steps))
    decreases |steps|
  {
    if |steps| > 0 {
      RunKeeps(steps[..|steps| - 1]);
      StepKeeps(After(steps[..|steps| - 1]), steps[|steps| - 1]);
    }
  }

  /**
   In every run an id in the map belongs to exactly one caller, a caller between its
   insertion and its erasure has its own promise there, and when nobody is, the map is empty.
   */
  lemma OneOwnerEach(steps: seq<Step>)
    requires Runs(steps)
    ensures var s := After(steps);
      && (forall id :: id in s.promises ==> s.promises[id] in s.callers && s.callers[s.promises[id]].id == id)
      && (forall c, id {:trigger s.callers[c], s.promises[id]} ::
            c in s.callers && id in s.promises ==>
              (s.promises[id] == c <==> s.callers[c].id == id && Holding(s.callers[c].pc)))
      && ((forall c :: c in s.callers ==> !Holding(s.callers[c].pc)) ==> s.promises == map[])
  {
    RunKeeps(steps);
    var s := After(steps);
    forall c, id {:trigger s.callers[c], s.promises[id]} | c in s.callers && id in s.promises
      ensures s.promises[id] == c <==> s.callers[c].id == id && Holding(s.callers[c].pc)
    {
      assert CallerOk(s, c) && Registered(s, id);
    }
    assert s.promises == map[] || exists id :: id in s.promises && Registered(s, id);
  }

  /** Every caller erases exactly the promise it registered. */
  lemma RemovesItsOwn(steps: seq<Step>, c: CallerId)
    requires Runs(steps) && Can(After(steps), Remove(c))
    ensures var s, s' := After(steps), Do(After(steps), Remove(c));
      && s.callers[c].id in s.promises && s.promises[s.callers[c].id] == c
      && s'.promises == s.promises - {s.callers[c].id}
      && forall id :: id in s.promises && s.promises[id] != c ==> id in s'.promises && s'.promises[id] == s.promises[id]
  {
    RunKeeps(steps);
    var s := After(steps);
    assert CallerOk(s, c);
    forall id | id in s.promises && s.promises[id] != c ensures id != s.callers[c].id {
      assert Registered(s, id);
    }
  }

  /**
   A response changes something exactly when it finds a caller of its id that holds its promise
   unanswered; else it is dropped.
   */
  lemma LateResponsesDropped(steps: seq<Step>, routeId: Id, r: Response, c: CallerId)
    requires Runs(steps) && c in After(steps).callers
    ensures var s, s' := After(steps), Do(After(steps), Arrive(routeId, r));
      && s'.promises == s.promises && s'.callers.Keys == s.callers.Keys
      && (s'.callers[c] != s.callers[c] <==>
            s.callers[c].id == routeId && Holding(s.callers[c].pc) && s.callers[c].got == None)
      && s'.callers[c] == s.callers[c].(got := s'.callers[c].got)
  {
    RunKeeps(steps);
    var s := After(steps);
    assert CallerOk(s, c);
    if routeId in s.promises {
      assert Registered(s, routeId);
    }
  }

  /** sendRequest returns true exactly for a caller that was woken with a valid, successful response of its own id. */
  lemma TrueOnlyForItsOwn(steps: seq<Step>, c: CallerId)
    requires Runs(steps) && c in After(steps).callers && After(steps).callers[c].pc.Done?
    ensures var k := After(steps).callers[c];
      k.pc.ok <==> k.woken && k.got.Some? && Accepts(k.id, k.got.value.response)
  {
    RunKeeps(steps);
    assert CallerOk(After(steps), c);
  }

  /** No response answers two calls. */
  lemma NoResponseTwice(steps: seq<Step>, c: CallerId, d: CallerId)
    requires Runs(steps) && c in After(steps).callers && d in After(steps).callers && c != d
    requires After(steps).callers[c].pc == Done(true) && After(steps).callers[d].pc == Done(true)
    ensures var g, h := After(steps).callers[c].got, After(steps).callers[d].got;
      g.Some? && h.Some? && g.value.n != h.value.n
  {
    RunKeeps(steps);
    assert CallerOk(After(steps), c) && CallerOk(After(steps), d) && Apart(After(steps), c, d);
  }

  // ---------------------------------------------------------------------------------
  // Where answers come from
  // ---------------------------------------------------------------------------------

  // The i-th step of the run brought c the response r, while c held its promise.
  predicate Brought(steps: seq<Step>, i: nat, c: CallerId, r: Response)
    requires Runs(steps)
  {
    && i < |steps| && Runs(steps[..i])
    && var s := After(steps[..i]);
      c in s.callers && s.callers[c].got == None && Holding(s.callers[c].pc) && steps[i] == Arrive(s.callers[c].id, r)
  }

  lemma BroughtLonger(steps: seq<Step>, i: nat, c: CallerId, r: Response)
    requires Runs(steps) && |steps| > 0 && Brought(steps[..|steps| - 1], i, c, r)
    ensures Brought(steps, i, c, r)
  {
    assert steps[..|steps| - 1][..i] == steps[..i];
  }

  lemma BringsIt(s: State, step: Step, c: CallerId)
    requires Invariant(s) && Can(s, step) && c in Do(s, step).callers && Do(s, step).callers[c].got.Some?
    requires c in s.callers ==> s.callers[c].got == None
    ensures c in s.callers && Holding(s.callers[c].pc)
        && step == Arrive(s.callers[c].id, Do(s, step).callers[c].got.value.response)
  {
    if step.Arrive? && step.routeId in s.promises {
      assert Registered(s, step.routeId);
    }
  }

  /** An answer was brought by one step of the run, under the caller's id and while its promise was in the map. */
  lemma {:induction false} AnswerWasBrought(steps: seq<Step>, c: CallerId) returns (i: nat)
    requires Runs(steps) && c in After(steps).callers && After(steps).callers[c].got.Some?
    ensures Brought(steps, i, c, After(steps).callers[c].got.value.response)
    decreases |steps|
  {
    var front, step := steps[..|steps| - 1], steps[|steps| - 1];
    var s := After(front);
    RunKeeps(front);
    if c in s.callers && s.callers[c].got.Some? {
      i := AnswerWasBrought(front, c);
      assert s.callers[c].got == After(steps).callers[c].got;
      BroughtLonger(steps, i, c, s.callers[c].got.value.response);
    } else {
      i := |front|;
      BringsIt(s, step, c);
      assert steps[..i] == front;
    }
  }

  /**
   A call that returned true was answered by one response, routed to its id while it held the promise
   and accepted.
   */
  lemma TrueWasAnswered(steps: seq<Step>, c: CallerId) returns (i: nat, r: Response)
    requires Runs(steps) && c in After(steps).callers && After(steps).callers[c].pc == Done(true)
    ensures Brought(steps, i, c, r) && Accepts(After(steps).callers[c].id, r)
  {
    TrueOnlyForItsOwn(steps, c);
    i := AnswerWasBrought(steps, c);
    r := After(steps).callers[c].got.value.response;
  }

  // Step i answered the registration that is in the map now.
  predicate AnsweredBefore(steps: seq<Step>, routeId: Id, i: nat)
    requires Runs(steps)
  {
    && i < |steps| && Runs(steps[..i]) && steps[i].Arrive? && steps[i].routeId == routeId
    && routeId in After(steps).promises && routeId in After(steps[..i]).promises
    && After(steps[..i]).promises[routeId] == After(steps).promises[routeId]
  }

  /** set_value throws exactly when an earlier response has reached the same registration. */
  lemma ThrowsExactlyOnTheSecond(steps: seq<Step>, routeId: Id)
    requires Runs(steps)
    ensures Throws(After(steps), routeId) <==> exists i :: AnsweredBefore(steps, routeId, i)
  {
    RunKeeps(steps);
    var s := After(steps);
    if Throws(s, routeId) {
      var c := s.promises[routeId];
      var i := AnswerWasBrought(steps, c);
      assert Registered(s, routeId);
      RunKeeps(steps[..i]);
      assert CallerOk(After(steps[..i]), c);
      CallerKeepsId(steps, i, c);
      assert AnsweredBefore(steps, routeId, i);
    }
    if i :| AnsweredBefore(steps, routeId, i) {
      AnswerStays(steps, routeId, i);
    }
  }

  lemma {:induction false} CallerKeepsId(steps: seq<Step>, i: nat, c: CallerId)
    requires Runs(steps) && i <= |steps| && Runs(steps[..i]) && c in After(steps[..i]).callers
    ensures c in After(steps).callers && After(steps).callers[c].id == After(steps[..i]).callers[c].id
    ensures After(steps[..i]).callers[c].got.Some? ==> After(steps).callers[c].got == After(steps[..i]).callers[c].got
    decreases |steps|
  {
    if i < |steps| {
      var front := steps[..|steps| - 1];
      assert front[..i] == steps[..i];
      CallerKeepsId(front, i, c);
      IdStays(After(front), steps[|steps| - 1], c);
    } else {
      assert steps[..i] == steps;
    }
  }

  lemma AnswerStays(steps: seq<Step>, routeId: Id, i: nat)
    requires Runs(steps) && AnsweredBefore(steps, routeId, i)
    ensures Throws(After(steps), routeId)
  {
    var c := After(steps).promises[routeId];
    PrefixRuns(steps, i + 1);
    RunKeeps(steps[..i]);
    assert Registered(After(steps[..i]), routeId);
    assert steps[..i + 1][..i] == steps[..i] && steps[..i + 1][i] == steps[i];
    assert c in After(steps[..i + 1]).callers && After(steps[..i + 1]).callers[c].got.Some?;
    CallerKeepsId(steps, i + 1, c);
  }

  // ---------------------------------------------------------------------------------
  // Which calls return false
  // ---------------------------------------------------------------------------------

  // The ways to fail: the id is taken, nothing was sent, no answer in time, a wrong answer.
  predicate FailsIn(s: State, step: Step, c: CallerId)
    requires Can(s, step)
  {
    match step
    case Check(d) => d == c && s.callers[c].id in s.promises
    case Create(d) => d == c && s.callers[c].id in s.promises
    case Send(d, sent) => d == c && !sent
    case WaitEnds(d) => d == c && s.callers[c].got == None
    case Process(d) => d == c && !(s.callers[c].got.Some? && Accepts(s.callers[c].id, s.callers[c].got.value.response))
    case _ => false
  }

  predicate FailsAt(steps: seq<Step>, c: CallerId, i: nat)
    requires Runs(steps)
  {
    i < |steps| && Runs(steps[..i]) && Can(After(steps[..i]), steps[i]) && FailsIn(After(steps[..i]), steps[i], c)
  }

  predicate Failing(s: State, c: CallerId) {
    c in s.callers && (s.callers[c].pc in {TimedOutToRemove, UnsentToRemove, Done(false)})
  }

  lemma FailingStep(s: State, step: Step, c: CallerId)
    requires Invariant(s) && Can(s, step)
    ensures Failing(Do(s, step), c) <==> Failing(s, c) || FailsIn(s, step, c)
  {
    if c in s.callers && !Touches(step, s, c) {
      OthersSame(s, step, c);
    }
  }

  lemma FailsAtOneMore(steps: seq<Step>, c: CallerId, i: nat)
    requires Runs(steps) && |steps| > 0
    ensures var n := |steps| - 1;
      FailsAt(steps, c, i) <==>
        (i == n && FailsIn(After(steps[..n]), steps[n], c)) || FailsAt(steps[..n], c, i)
  {
    var n := |steps| - 1;
    if i < n {
      assert steps[..n][..i] == steps[..i];
    }
  }

  /** A finished call has returned false if and only if one of the ways to fail was met; otherwise true. */
  lemma FalseExactly(steps: seq<Step>, c: CallerId)
    requires Runs(steps) && c in After(steps).callers && After(steps).callers[c].pc.Done?
    ensures After(steps).callers[c].pc == Done(false) <==> exists i: nat :: FailsAt(steps, c, i)
  {
    FailingExactly(steps, c);
  }

  lemma {:induction false} FailingExactly(steps: seq<Step>, c: CallerId)
    requires Runs(steps)
    ensures Failing(After(steps), c) <==> exists i: nat :: FailsAt(steps, c, i)
    decreases |steps|
  {
    if |steps| > 0 {
      var n, front := |steps| - 1, steps[..|steps| - 1];
      RunKeeps(front);
      FailingExactly(front, c);
      FailingStep(After(front), steps[n], c);
      FailsAtOneMore(steps, c, n);
      if i: nat :| FailsAt(front, c, i) {
        FailsAtOneMore(steps, c, i);
      }
      if i: nat :| FailsAt(steps, c, i) {
        FailsAtOneMore(steps, c, i);
      }
    }
  }
}
