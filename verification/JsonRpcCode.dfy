/**
 The methods of JsonRpcInterface over its map of promises. Each stretch under the mutex is
 one step of the machine of JsonRpc; sendRequest is the chain of them that one caller runs
 while the connection delivers messages.
 */
module JsonRpcCode {

  import opened Wrappers
  import opened JsonRpc

  datatype Message = Message(routeId: Id, response: Response)

  // The first of the messages that is routed to id.
  function FirstFor(id: Id, messages: seq<Message>): Option<Response> {
    if messages == [] then None
    else if messages[0].routeId == id then Some(messages[0].response)
    else FirstFor(id, messages[1..])
  }

  lemma {:induction false} FirstOfBoth(id: Id, early: seq<Message>, messages: seq<Message>)
    ensures FirstFor(id, early + messages)
         == if FirstFor(id, early).Some? then FirstFor(id, early) else FirstFor(id, messages)
  {
    if early == [] {
      assert early + messages == messages;
    } else {
      assert (early + messages)[1..] == early[1..] + messages;
      FirstOfBoth(id, early[1..], messages);
    }
  }

  function Value(got: Option<Delivery>): Option<Response> {
    if got.Some? then Some(got.value.response) else None
  }

  // States and steps of a run.
  ghost predicate Path(states: seq<State>, steps: seq<Step>) {
    && |states| == |steps| + 1 && states[0] == START
    && forall i {:trigger steps[i]} | 0 <= i < |steps| :: Can(states[i], steps[i])
        && states[i + 1] == Do(states[i], steps[i])
  }

  lemma {:induction false} PathIsRun(states: seq<State>, steps: seq<Step>, n: nat)
    requires Path(states, steps) && n <= |steps|
    ensures Runs(steps[..n]) && After(steps[..n]) == states[n]
  {
    if n > 0 {
      PathIsRun(states, steps, n - 1);
      assert steps[..n][..n - 1] == steps[..n - 1] && steps[..n][n - 1] == steps[n - 1];
    }
  }

  class JsonRpcInterface {
    // The promise of an id is named by the call that made it.
    var responseToPromise: map<Id, CallerId>
    // What the futures share with their promises.
    var values: map<CallerId, Option<Response>>
    ghost var machine: State
    // The run that led to `machine`.
    ghost var path: seq<State>
    ghost var trail: seq<Step>

    ghost predicate OnTrail()
      reads this
    {
      Path(path, trail) && path[|trail|] == machine
    }

    ghost predicate Valid()
      reads this
    {
      && responseToPromise == machine.promises && OnTrail()
      && (forall c :: c in values <==> c in machine.callers)
      && (forall c :: c in values ==> values[c] == Value(machine.callers[c].got))
    }

    /** The object is always where a run of the machine leads. */
    lemma Reached()
      requires OnTrail()
      ensures Runs(trail) && After(trail) == machine && Invariant(machine)
    {
      PathIsRun(path, trail, |trail|);
      assert trail[..|trail|] == trail;
      RunKeeps(trail);
    }

    constructor ()
      ensures Valid() && trail == []
    {
      responseToPromise, values, machine, path, trail := map[], map[], START, [START], [];
    }

    ghost method Move(step: Step)
      requires OnTrail() && Can(machine, step)
      modifies `machine, `path, `trail
      ensures machine == Do(old(machine), step) && OnTrail() && trail == old(trail) + [step]
    {
      machine := Do(machine, step);
      path, trail := path + [machine], trail + [step];
    }

    // Caller c is at pc with request id; nobody else has moved.
    twostate predicate Moved(c: CallerId, id: Id, pc: Pc)
      reads this
    {
      && At(machine, c, pc) && machine.callers[c].id == id && machine.callers.Keys == old(machine.callers.Keys)
    }

    method IsRequestProcessingOngoing(id: Id, ghost c: CallerId) returns (ongoing: bool)
      requires Valid() && At(machine, c, Begin) && machine.callers[c].id == id
      modifies `machine, `path, `trail
      ensures Valid() && trail == old(trail) + [Check(c)]
      ensures ongoing == (id in responseToPromise) && Moved(c, id, if ongoing then Done(false) else Checked)
    {
      ongoing := id in responseToPromise;
      Move(Check(c));
    }

    // Whether the promise could be inserted.
    method CreateFutureResponse(id: Id, c: CallerId) returns (inserted: bool)
      requires Valid() && At(machine, c, Checked) && machine.callers[c].id == id
      modifies `responseToPromise, `machine, `path, `trail
      ensures Valid() && trail == old(trail) + [Create(c)]
      ensures inserted == (id !in old(responseToPromise)) && Moved(c, id, if inserted then Created else Done(false))
      ensures responseToPromise == if inserted then old(responseToPromise)[id := c] else old(responseToPromise)
    {
      inserted := id !in responseToPromise;
      if inserted {
        responseToPromise := responseToPromise[id := c];
      }
      Move(Create(c));
    }

    method RemovePromise(id: Id, ghost c: CallerId)
      requires Valid() && Can(machine, Remove(c)) && machine.callers[c].id == id
      modifies `responseToPromise, `machine, `path, `trail
      ensures Valid() && trail == old(trail) + [Remove(c)]
      ensures Moved(c, id, if old(machine.callers[c].pc) == AnsweredToRemove then ToProcess else Done(false))
      ensures responseToPromise == old(responseToPromise) - {id}
    {
      responseToPromise := responseToPromise - {id};
      Move(Remove(c));
    }

    // Whether set_value threw.
    method HandleResponse(id: Id, response: Response) returns (threw: bool)
      requires Valid()
      modifies `values, `machine, `path, `trail
      ensures Valid() && trail == old(trail) + [Arrive(id, response)]
          && machine == Do(old(machine), Arrive(id, response))
      ensures threw == Throws(old(machine), id)
    {
      threw := false;
      if id in responseToPromise {
        var c := responseToPromise[id];
        Reached();
        assert Registered(machine, id);
        if values[c].Some? {
          threw := true;
        } else {
          values := values[c := Some(response)];
        }
      }
      Move(Arrive(id, response));
    }

    method ProcessResponse(id: Id, response: Response) returns (success: bool)
      ensures success == Accepts(id, response)
    {
      success := false;
      if response.IsValid() && response.id == Some(id) {
        if response.result.Some? {
          if response.result.value.success.Some? {
            success := response.result.value.success.value;
          }
        }
      }
    }

    // Whether the future became ready in time.
    method WaitFor(id: Id, c: CallerId) returns (ready: bool)
      requires Valid() && At(machine, c, Waiting) && machine.callers[c].id == id
      modifies `machine, `path, `trail
      ensures Valid() && trail == old(trail) + [WaitEnds(c)]
      ensures ready == values[c].Some? && Moved(c, id, if ready then AnsweredToRemove else TimedOutToRemove)
    {
      ready := values[c].Some?;
      Move(WaitEnds(c));
    }

    // The end of the call, when there is a response to look at.
    method Conclude(id: Id, c: CallerId, response: Response) returns (ok: bool)
      requires Valid() && At(machine, c, ToProcess) && machine.callers[c].id == id && values[c] == Some(response)
      modifies `machine, `path, `trail
      ensures Valid() && trail == old(trail) + [Process(c)]
      ensures ok == Accepts(id, response) && Moved(c, id, Done(ok))
    {
      ok := ProcessResponse(id, response);
      Move(Process(c));
    }

    method GetAsyncResponse(id: Id, c: CallerId) returns (ok: bool)
      requires Valid() && At(machine, c, Waiting) && machine.callers[c].id == id
      modifies `responseToPromise, `machine, `path, `trail
      ensures Valid() && Moved(c, id, Done(ok))
      ensures responseToPromise == old(responseToPromise) - {id}
      ensures ok <==> values[c].Some? && Accepts(id, values[c].value)
    {
      var ready := WaitFor(id, c);
      RemovePromise(id, c);
      if ready {
        ok := Conclude(id, c, values[c].value);
      } else {
        ok := false;
      }
    }

    method StartCall(id: Id, c: CallerId)
      requires Valid() && c !in values
      modifies `values, `machine, `path, `trail
      ensures Valid() && At(machine, c, Begin) && machine.callers[c].id == id && values == old(values)[c := None]
    {
      Move(Call(c, id));
      values := values[c := None];
    }

    method Transmit(id: Id, ghost c: CallerId, sent: bool)
      requires Valid() && At(machine, c, Created) && machine.callers[c].id == id
      modifies `machine, `path, `trail
      ensures Valid() && Moved(c, id, if sent then Waiting else UnsentToRemove)
    {
      Move(Send(c, sent));
    }

    /**
     One call, with the messages that come in before its sending and between that and the end
     of its wait: true exactly when the id was free, the request was sent, and the first
     response routed to the id is a success with that id. The map is as it was before the call.
     */
    method SendRequest(id: Id, c: CallerId, early: seq<Message>, sent: bool, messages: seq<Message>) returns (ok: bool)
      requires Valid() && c !in values
      modifies this
      ensures Valid() && At(machine, c, Done(ok))
      ensures responseToPromise == old(responseToPromise)
      ensures ok <==>
        && id !in old(responseToPromise) && sent
        && FirstFor(id, early + messages).Some? && Accepts(id, FirstFor(id, early + messages).value)
    {
      StartCall(id, c);
      var registered := Register(id, c);
      if !registered {
        return false;
      }
      assert values[c] == None && old(responseToPromise)[id := c] - {id} == old(responseToPromise);
      ok := Exchange(id, c, early, sent, messages);
    }

    method Register(id: Id, c: CallerId) returns (registered: bool)
      requires Valid() && At(machine, c, Begin) && machine.callers[c].id == id
      modifies `responseToPromise, `machine, `path, `trail
      ensures Valid() && Moved(c, id, if registered then Created else Done(false))
      ensures registered == (id !in old(responseToPromise))
      ensures responseToPromise == if registered then old(responseToPromise)[id := c] else old(responseToPromise)
    {
      var ongoing := IsRequestProcessingOngoing(id, c);
      if ongoing {
        return false;
      }
      registered := CreateFutureResponse(id, c);
    }

    method Exchange(id: Id, c: CallerId, early: seq<Message>, sent: bool, messages: seq<Message>) returns (ok: bool)
      requires Valid() && At(machine, c, Created) && machine.callers[c].id == id && values[c] == None
      modifies this
      ensures Valid() && At(machine, c, Done(ok))
      ensures responseToPromise == old(responseToPromise) - {id}
      ensures ok <==>
        sent && FirstFor(id, early + messages).Some? && Accepts(id, FirstFor(id, early + messages).value)
    {
      FirstOfBoth(id, early, messages);
      Receive(id, c, Created, early);
      Transmit(id, c, sent);
      if sent {
        Receive(id, c, Waiting, messages);
        ok := GetAsyncResponse(id, c);
      } else {
        RemovePromise(id, c);
        ok := false;
      }
    }

    // One message while c has its promise in the map.
    method ReceiveOne(id: Id, ghost c: CallerId, ghost pc: Pc, m: Message)
      requires Valid() && At(machine, c, pc) && Holding(pc) && machine.callers[c].id == id
      modifies `values, `machine, `path, `trail
      ensures Valid() && At(machine, c, pc) && machine.callers[c].id == id
      ensures values[c] == if old(values[c]).None? && m.routeId == id then Some(m.response) else old(values[c])
    {
      Reached();
      assert CallerOk(machine, c);
      var threw := HandleResponse(m.routeId, m.response);
    }

    // What the connection's thread delivers meanwhile.
    method Receive(id: Id, ghost c: CallerId, ghost pc: Pc, messages: seq<Message>)
      requires Valid() && At(machine, c, pc) && Holding(pc) && machine.callers[c].id == id
      modifies `values, `machine, `path, `trail
      ensures Valid() && At(machine, c, pc) && machine.callers[c].id == id
      ensures values[c] == if old(values[c]).Some? then old(values[c]) else FirstFor(id, messages)
    {
      var i := 0;
      assert messages[0..] == messages;
      while i < |messages|
        invariant 0 <= i <= |messages|
        invariant Valid() && At(machine, c, pc) && machine.callers[c].id == id
        invariant (if values[c].Some? then values[c] else FirstFor(id, messages[i..]))
               == if old(values[c]).Some? then old(values[c]) else FirstFor(id, messages)
      {
        assert messages[i..][1..] == messages[i + 1..];
        ReceiveOne(id, c, pc, messages[i]);
        i := i + 1;
      }
    }
  }
}
