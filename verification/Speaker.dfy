/**
 The speaker of TextToSpeech/impl/TTSSpeaker.cpp: one worker thread, any number of threads
 that call its methods, and the bus thread, over shared variables. Each API call, each bus
 message and each stretch of the worker between two waits is one step, except that the
 test and the write of cancelSpeech, which takes no lock, may also be two steps.
 */
module Speaker {

  import opened Wrappers
  import opened Pipeline

  type Id = nat
  type Tid = nat

  datatype Event =
    | WillSpeak(id: Id) | Started(id: Id) | Paused(id: Id) | Resumed(id: Id)
    | Spoke(id: Id) | Interrupted(id: Id) | NetworkError(id: Id) | PlaybackError(id: Id)

  // Where the worker is. `again` marks the second try of an utterance, with the local endpoint.
  datatype Pc =
    | Top
    | Created
    | Waiting
    | Announcing(id: Id)
    | Starting(id: Id, again: bool)
    | Playing(id: Id, again: bool)
    | Between(id: Id)
    | Reporting(id: Id)
    | Resetting

  /**
   A pass of the worker's loop: was the queue non-empty at its start, how many utterances it
   took, and whether the queue was left alone by flushes and the pipeline flag by callers.
   */
  datatype Pass = Pass(hadWork: bool, taken: nat, steady: bool)

  /**
   History: every id queued, in order; those a flush dropped; every event; the ids that were
   current when a cancelSpeech decided to cancel; the ids in the worker's hands when a
   cancelSpeech wrote the flag, and of these the ones it had yet to announce; the pass under
   way, and the number of passes begun.
   */
  datatype Log = Log(arrived: seq<Id>, dropped: set<Id>, trace: seq<Event>,
                     named: set<Id>, landed: set<Id>, early: set<Id>, pass: Pass, passes: nat)

  datatype State = State(
    queue: seq<Id>, pc: Pc, flushed: bool, speaking: bool, current: Option<Id>,
    pipe: Pipe, armed: set<Tid>, log: Log)

  datatype Config = Config(world: World, maxFailures: Byte)

  // The failure limit: the environment's number if it is positive, else one, cut to eight bits.
  function LimitOf(env: Option<int>): Byte {
    (if env.Some? && env.value > 0 then env.value else 1) % 256
  }


  datatype Step =
    | Work(switch: bool)
    | Enqueue(id: Id)
    | Flush
    | Cancel(target: Id)
    | CancelTest(t: Tid, target: Id)
    | CancelSet(t: Tid)
    | Want(flag: bool)
    | Pause(target: Id)
    | Fault(http: bool, localEndpoint: bool)
    | EndOfStream
    | Up
    | Down

  predicate Init(s: State) {
    && s.queue == [] && s.pc == Top && !s.flushed && !s.speaking && s.current == None && s.armed == {}
    && s.pipe == Pipe(false, false, false, false, false, false, false, 0, 0, 0, 0)
    && s.log == Log([], {}, [], {}, {}, {}, Pass(false, 0, true), 0)
  }

  predicate NeedsUpdate(c: Config, s: State) {
    && (s.pipe.failures < c.maxFailures || s.queue != [])
    && ((s.pipe.wanted && !s.pipe.present) || (s.pipe.present && !s.pipe.wanted))
  }

  predicate Cancels(s: State, target: Id) {
    s.speaking && s.current.Some? && (s.current.value == target || target == 0)
  }

  /**
   Ids are fresh and not zero; state changes are delivered only while something is current,
   and no message is handled without a pipeline.
   */
  predicate Can(c: Config, s: State, step: Step) {
    match step
    case Work(_) => s.pc == Waiting ==> s.queue != [] || NeedsUpdate(c, s)
    case Enqueue(id) => id != 0 && id !in s.log.arrived
    case CancelTest(t, _) => t !in s.armed
    case CancelSet(t) => t in s.armed
    case Fault(_, _) => s.pipe.present
    case EndOfStream => s.pipe.present
    case Up => s.pipe.present && s.current.Some?
    case Down => s.pipe.present && s.current.Some?
    case _ => true
  }

  function Emit(s: State, e: Event): State {
    s.(log := s.log.(trace := s.log.trace + [e]))
  }

  function InHand(pc: Pc): Option<Id> {
    match pc
    case Announcing(id) => Some(id)
    case Starting(id, _) => Some(id)
    case Playing(id, _) => Some(id)
    case Between(id) => Some(id)
    case Reporting(id) => Some(id)
    case _ => None
  }

  function HandSet(pc: Pc): set<Id> {
    if InHand(pc).Some? then {InHand(pc).value} else {}
  }

  function EarlySet(pc: Pc): set<Id> {
    if pc.Announcing? then {pc.id} else {}
  }

  // What a cancel does once it has decided: the flag lands on whatever the worker holds.
  function Land(s: State): State {
    s.(flushed := true, pipe := s.pipe.(paused := false),
       log := s.log.(landed := s.log.landed + HandSet(s.pc), early := s.log.early + EarlySet(s.pc)))
  }

  function Name(s: State): State {
    s.(log := s.log.(named := s.log.named + if s.current.Some? then {s.current.value} else {}))
  }

  function Do(c: Config, s: State, step: Step): State
    requires Can(c, s, step)
  {
    match step
    case Work(switch) => DoWork(c, s, switch)
    case Enqueue(id) => s.(queue := s.queue + [id], log := s.log.(arrived := s.log.arrived + [id]))
    case Flush =>
      s.(queue := [], log := s.log.(dropped := s.log.dropped + (set id | id in s.queue),
                                    pass := s.log.pass.(steady := s.log.pass.steady && s.pc == Top)))
    case Cancel(target) => if Cancels(s, target) then Land(Name(s)) else s
    case CancelTest(t, target) => if Cancels(s, target) then Name(s).(armed := s.armed + {t}) else s
    case CancelSet(t) => Land(s).(armed := s.armed - {t})
    case Want(flag) =>
      s.(pipe := s.pipe.(wanted := flag),
         log := s.log.(pass := s.log.pass.(steady := s.log.pass.steady && (s.pc == Top || flag == s.pipe.wanted))))
    case Pause(target) =>
      if s.speaking && s.current == Some(target) && s.pipe.present then s.(pipe := s.pipe.(paused := true)) else s
    case Fault(http, localEndpoint) =>
      s.(pipe := s.pipe.(error := true, remote := s.pipe.remote || (http && localEndpoint),
                         network := s.pipe.network || (http && !localEndpoint)))
    case EndOfStream => s.(pipe := s.pipe.(eos := true))
    case Up =>
      if !s.speaking then s
      else if s.pipe.paused then Emit(s.(pipe := s.pipe.(paused := false)), Resumed(s.current.value))
      else Emit(s, Started(s.current.value))
    case Down => if s.speaking && s.pipe.paused then Emit(s, Paused(s.current.value)) else s
  }

  // dequeueData(), and one more utterance taken in this pass.
  function Dequeue(s: State): State
    requires s.queue != []
  {
    s.(queue := s.queue[1..], flushed := false,
       log := s.log.(pass := s.log.pass.(taken := s.log.pass.taken + 1)))
  }

  function Verdict(s: State, id: Id): Event {
    if s.flushed then Interrupted(id)
    else if s.pipe.network then NetworkError(id)
    else if !s.pipe.present || s.pipe.error then PlaybackError(id)
    else Spoke(id)
  }

  function DoWork(c: Config, s: State, switch: bool): State
    requires Can(c, s, Work(switch))
  {
    match s.pc
    case Top =>
      var s := s.(log := s.log.(pass := Pass(s.queue != [], 0, true), passes := s.log.passes + 1));
      if !NeedsUpdate(c, s) then s.(pc := Waiting)
      else if s.pipe.wanted then s.(pc := Created, pipe := Create(s.pipe, c.world))
      else s.(pc := Waiting, pipe := Destroy(s.pipe))
    case Created =>
      if !s.pipe.present && s.queue != [] then
        Emit(Dequeue(s).(pc := Waiting, pipe := s.pipe.(failures := 0)), PlaybackError(s.queue[0]))
      else s.(pc := Waiting)
    case Waiting =>
      if NeedsUpdate(c, s) then s.(pc := Top)
      else Dequeue(s).(pc := Announcing(s.queue[0]), speaking := true)
    case Announcing(id) =>
      (if s.flushed then s else Emit(s, WillSpeak(id))).(pc := Starting(id, false))
    case Starting(id, again) =>
      // speakText is skipped once flushed; without a pipeline it does nothing
      if s.flushed || !s.pipe.present then
        s.(pc := if again then Reporting(id) else Between(id),
           pipe := if s.flushed then s.pipe else s.pipe.(eos := false))
      else
        var p := s.pipe.(eos := false);
        s.(pc := Playing(id, again), current := Some(id),
           pipe := if switch then Create(Destroy(p), c.world) else p)
    case Playing(id, again) =>
      s.(pc := if again then Reporting(id) else Between(id), current := None, pipe := s.pipe.(eos := false))
    case Between(id) =>
      s.(pc := if !s.flushed && s.pipe.remote then Starting(id, true) else Reporting(id))
    case Reporting(id) =>
      Emit(s, Verdict(s, id)).(pc := Resetting, speaking := false, flushed := false)
    case Resetting =>
      s.(pc := Top, pipe := Reset(s.pipe, c.world))
  }

  predicate Runs(c: Config, s: State, steps: seq<Step>)
    decreases |steps|
  {
    steps == [] || (Can(c, s, steps[0]) && Runs(c, Do(c, s, steps[0]), steps[1..]))
  }

  function Final(c: Config, s: State, steps: seq<Step>): State
    requires Runs(c, s, steps)
    decreases |steps|
  {
    if steps == [] then s else Final(c, Do(c, s, steps[0]), steps[1..])
  }

  lemma {:induction false} RunsSnoc(c: Config, s: State, steps: seq<Step>, step: Step)
    requires Runs(c, s, steps) && Can(c, Final(c, s, steps), step)
    ensures Runs(c, s, steps + [step]) && Final(c, s, steps + [step]) == Do(c, Final(c, s, steps), step)
    decreases |steps|
  {
    if steps == [] {
      assert (steps + [step])[1..] == [];
    } else {
      assert (steps + [step])[1..] == steps[1..] + [step];
      RunsSnoc(c, Do(c, s, steps[0]), steps[1..], step);
    }
  }

  // No cancelSpeech is split between its test and its write.
  predicate AtomicCancels(steps: seq<Step>) {
    forall i | 0 <= i < |steps| :: !steps[i].CancelTest? && !steps[i].CancelSet?
  }
}
