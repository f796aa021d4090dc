/**
 The methods of TTSSpeaker as code over its fields, in the order of the source. Each is one
 step of the machine in Speaker, and says so; the object keeps the run that it has made. The
 worker's function is cut at its waits: `pc` remembers where it stands. RunPass puts the
 pieces together again.
 */
module SpeakerCode {

  import opened Wrappers
  import opened Pipeline
  import opened Speaker
  import opened SpeakerOutcome

  // States and steps of a run.
  ghost predicate Path(c: Config, states: seq<State>, steps: seq<Step>) {
    && |states| == |steps| + 1 && Init(states[0])
    && forall i {:trigger steps[i]} | 0 <= i < |steps| ::
         Can(c, states[i], steps[i]) && states[i + 1] == Do(c, states[i], steps[i])
  }

  lemma {:induction false} PathIsRun(c: Config, states: seq<State>, steps: seq<Step>, n: nat)
    requires Path(c, states, steps) && n <= |steps|
    ensures Runs(c, states[0], steps[..n]) && Final(c, states[0], steps[..n]) == states[n]
  {
    if n > 0 {
      PathIsRun(c, states, steps, n - 1);
      RunsSnoc(c, states[0], steps[..n - 1], steps[n - 1]);
      assert steps[..n - 1] + [steps[n - 1]] == steps[..n];
    }
  }

  // What may come in while an utterance plays.
  predicate Heeded(step: Step) {
    step.Fault? || step.EndOfStream? || step.Cancel?
  }

  // A message leaves its mark on the pipeline, unless there is none.
  function Heard(p: Pipe, id: Id, m: Step): Pipe {
    if m.Fault? && p.present then
      p.(error := true, remote := p.remote || (m.http && m.localEndpoint),
         network := p.network || (m.http && !m.localEndpoint))
    else if m.EndOfStream? && p.present then p.(eos := true)
    else if m.Cancel? && Names(m, id) then p.(paused := false)
    else p
  }

  function HeardAll(p: Pipe, id: Id, ms: seq<Step>): Pipe
    decreases |ms|
  {
    if ms == [] then p else HeardAll(Heard(p, id, ms[0]), id, ms[1..])
  }

  predicate Names(m: Step, id: Id) {
    m.Cancel? && (m.target == id || m.target == 0)
  }

  // One of the messages cancels utterance id.
  predicate Cut(id: Id, ms: seq<Step>) {
    exists i :: 0 <= i < |ms| && Names(ms[i], id)
  }

  // The pipeline at the beginning of one try at an utterance, and after it.
  function TryBegun(p: Pipe, w: World, switch: bool): Pipe {
    var q := p.(eos := false);
    if p.present && switch then Create(Destroy(q), w) else q
  }

  function Tried(p: Pipe, w: World, switch: bool, id: Id, ms: seq<Step>): Pipe {
    var q := TryBegun(p, w, switch);
    if !p.present then q else HeardAll(q, id, ms).(eos := false)
  }

  // The pipeline at the end of the first stretch of a pass.
  function Updated(c: Config, s: State): Pipe {
    if !NeedsUpdate(c, s) then s.pipe else if s.pipe.wanted then Create(s.pipe, c.world) else Destroy(s.pipe)
  }

  // With work queued, what is left to do about the pipeline is to make it.
  lemma UpdatedSettles(c: Config, s: State)
    ensures var p := Updated(c, s);
      p.wanted == s.pipe.wanted && (s.queue != [] && p.present ==> p.wanted)
  {
    CreateOutcome(s.pipe, c.world);
  }

  // What an utterance is reported with after one try, or two, from pipeline p on.
  function PassOutcome(p: Pipe, w: World, id: Id, switch: bool, ms: seq<Step>, switchAgain: bool,
      msAgain: seq<Step>): Event {
    var q := Tried(p, w, switch, id, ms);
    var cut := p.present && Cut(id, ms);
    if !cut && q.remote then
      var r := Tried(q, w, switchAgain, id, msAgain);
      Outcome(id, q.present && Cut(id, msAgain), !r.present || r.error, r.network)
    else Outcome(id, cut, !q.present || q.error, q.network)
  }

  lemma {:induction false} HeardFlags(p: Pipe, id: Id, ms: seq<Step>)
    requires p.present
    ensures var q := HeardAll(p, id, ms);
      && q.present
      && (q.error <==> p.error || exists i :: 0 <= i < |ms| && Fails(ms[i]))
      && (q.network <==> p.network || exists i :: 0 <= i < |ms| && FailsNetwork(ms[i]))
      && (q.remote <==> p.remote || exists i :: 0 <= i < |ms| && FailsRemote(ms[i]))
    decreases |ms|
  {
    if ms != [] {
      var p', rest := Heard(p, id, ms[0]), ms[1..];
      HeardFlags(p', id, rest);
      assert forall i :: 0 < i < |ms| ==> ms[i] == rest[i - 1];
      assert forall i :: 0 <= i < |rest| ==> rest[i] == ms[i + 1];
    }
  }

  // The remote endpoint failed while a local one was there.
  predicate FailsRemote(m: Step) { m.Fault? && m.http && m.localEndpoint }

  /**
   An utterance that meets a sound pipeline and is tried once, without a switch: interrupted if
   a message cancels it, else a network error if one of them is a fault of the network, a
   playback error if there are only other faults, and spoke if there is none.
   */
  lemma OneTryOutcome(p: Pipe, w: World, id: Id, ms: seq<Step>, again: bool, msAgain: seq<Step>)
    requires p.present && Quiet(p) && forall i :: 0 <= i < |ms| ==> !FailsRemote(ms[i])
    ensures PassOutcome(p, w, id, false, ms, again, msAgain)
         == Outcome(id, Cut(id, ms), exists i :: 0 <= i < |ms| && Fails(ms[i]),
                    exists i :: 0 <= i < |ms| && FailsNetwork(ms[i]))
  {
    HeardFlags(p.(eos := false), id, ms);
  }

  class TTSSpeaker {
    var queue: seq<Id>
    var flushed: bool
    var isSpeaking: bool
    var currentSpeech: Option<Id>
    var pc: Pc
    const pipeline: SpeakerPipeline
    const maxFailures: Byte
    // cancelSpeech calls between their test and their write
    ghost var armed: set<Tid>
    ghost var log: Log
    // The run so far.
    ghost var path: seq<State>
    ghost var trail: seq<Step>

    constructor (world: World, env: Option<int>)
      ensures Valid() && trail == [] && fresh(pipeline) && pipeline.world == world && maxFailures == LimitOf(env)
    {
      queue, flushed, isSpeaking, currentSpeech, pc := [], false, false, None, Top;
      pipeline := new SpeakerPipeline(world);
      maxFailures := LimitOf(env);
      armed, log := {}, Log([], {}, [], {}, {}, {}, Pass(false, 0, true), 0);
      new;
      path, trail := [Now()], [];
    }

    ghost function Now(): State
      reads this, pipeline
    {
      State(queue, pc, flushed, isSpeaking, currentSpeech, pipeline.Now(), armed, log)
    }

    ghost function Cfg(): Config
    {
      Config(pipeline.world, maxFailures)
    }

    ghost predicate Valid()
      reads this, pipeline
    {
      Path(Cfg(), path, trail) && path[|trail|] == Now()
    }

    /** The object is always where a run of the machine from its initial state leads. */
    lemma Reached()
      requires Valid()
      ensures Init(path[0]) && Runs(Cfg(), path[0], trail) && Final(Cfg(), path[0], trail) == Now()
    {
      PathIsRun(Cfg(), path, trail, |trail|);
      assert trail[..|trail|] == trail;
    }

    // The fields have made a step.
    ghost method Record(step: Step)
      requires Path(Cfg(), path, trail) && Can(Cfg(), path[|trail|], step)
      requires Now() == Do(Cfg(), path[|trail|], step)
      modifies `path, `trail
      ensures Valid() && Now() == old(Now()) && trail == old(trail) + [step]
    {
      path, trail := path + [Now()], trail + [step];
    }

    predicate NeedsPipelineUpdate()
      reads this, pipeline
      ensures NeedsPipelineUpdate() == NeedsUpdate(Cfg(), Now())
    {
      (if pipeline.failures < maxFailures then true else queue != [])
      && ((pipeline.wanted && !pipeline.present) || (pipeline.present && !pipeline.wanted))
    }

    method QueueData(id: Id)
      requires Valid() && id != 0 && id !in log.arrived
      modifies `queue, `log, `path, `trail
      ensures Valid() && trail == old(trail) + [Enqueue(id)] && Now() == Do(Cfg(), old(Now()), Enqueue(id))
    {
      queue := queue + [id];
      log := log.(arrived := log.arrived + [id]);
      Record(Enqueue(id));
    }

    method FlushQueue()
      requires Valid()
      modifies `queue, `log, `path, `trail
      ensures Valid() && trail == old(trail) + [Flush] && Now() == Do(Cfg(), old(Now()), Flush)
    {
      log := log.(dropped := log.dropped + (set id | id in queue),
                  pass := log.pass.(steady := log.pass.steady && pc == Top));
      queue := [];
      Record(Flush);
    }

    method CancelSpeech(target: Id) returns (status: bool)
      requires Valid()
      modifies `flushed, `log, `path, `trail, pipeline`paused
      ensures Valid() && trail == old(trail) + [Cancel(target)] && Now() == Do(Cfg(), old(Now()), Cancel(target))
      ensures status <==> isSpeaking && currentSpeech.Some? && (target == currentSpeech.value || target == 0)
      ensures if status then flushed && !pipeline.paused else flushed == old(flushed)
    {
      status := false;
      if isSpeaking && currentSpeech.Some? && (currentSpeech.value == target || target == 0) {
        log := log.(named := log.named + {currentSpeech.value}, landed := log.landed + HandSet(pc),
                    early := log.early + EarlySet(pc));
        pipeline.paused := false;
        flushed := true;
        status := true;
      }
      Record(Cancel(target));
    }

    method EnsurePipeline(flag: bool)
      requires Valid()
      modifies `log, `path, `trail, pipeline`wanted
      ensures Valid() && trail == old(trail) + [Want(flag)] && Now() == Do(Cfg(), old(Now()), Want(flag))
    {
      log := log.(pass := log.pass.(steady := log.pass.steady && (pc == Top || flag == pipeline.wanted)));
      pipeline.wanted := flag;
      Record(Want(flag));
    }

    method PauseSpeech(target: Id) returns (status: bool)
      requires Valid()
      modifies `path, `trail, pipeline`paused
      ensures Valid() && trail == old(trail) + [Step.Pause(target)]
      ensures Now() == Do(Cfg(), old(Now()), Step.Pause(target))
      ensures status <==> isSpeaking && currentSpeech == Some(target) && pipeline.present && !old(pipeline.paused)
    {
      status := false;
      if isSpeaking && currentSpeech.Some? && target == currentSpeech.value {
        if pipeline.present && !pipeline.paused {
          pipeline.paused := true;
          status := true;
        }
      }
      Record(Step.Pause(target));
    }

    // The pipeline is asked to play; the flag comes down when it says that it does.
    method ResumeSpeech(target: Id) returns (status: bool)
      ensures status <==> isSpeaking && currentSpeech == Some(target) && pipeline.present && pipeline.paused
    {
      if !isSpeaking || currentSpeech != Some(target) {
        return false;
      }
      return pipeline.present && pipeline.paused;
    }

    // A bus message; `step` is which one.
    method HandleMessage(step: Step)
      requires Valid() && (step.Fault? || step.EndOfStream? || step.Up? || step.Down?)
      requires Can(Cfg(), Now(), step)
      modifies `log, `path, `trail, pipeline
      ensures Valid() && trail == old(trail) + [step] && Now() == Do(Cfg(), old(Now()), step)
      // A start is a resumption exactly when the speech was paused; a stop is a pause exactly then.
      ensures step.Up? && isSpeaking ==> currentSpeech.Some? && !pipeline.paused
      ensures step.Up? && isSpeaking && old(pipeline.paused) ==>
        log.trace == old(log.trace) + [Resumed(currentSpeech.value)]
      ensures step.Up? && isSpeaking && !old(pipeline.paused) ==>
        log.trace == old(log.trace) + [Event.Started(currentSpeech.value)]
      ensures step.Down? && isSpeaking && old(pipeline.paused) ==> currentSpeech.Some? && pipeline.paused
      ensures step.Down? && isSpeaking && old(pipeline.paused) ==>
        log.trace == old(log.trace) + [Event.Paused(currentSpeech.value)]
      ensures step.Down? && !old(pipeline.paused) ==> log.trace == old(log.trace) && !pipeline.paused
    {
      if step.Fault? {
        HandleError(step);
      } else if step.EndOfStream? {
        pipeline.eos := true;
        Record(step);
      } else {
        HandleStateChanged(step);
      }
    }

    method HandleError(step: Step)
      requires Valid() && step.Fault? && Can(Cfg(), Now(), step)
      modifies `path, `trail, pipeline
      ensures Valid() && trail == old(trail) + [step] && Now() == Do(Cfg(), old(Now()), step)
      ensures pipeline.error && pipeline.network == (old(pipeline.network) || (step.http && !step.localEndpoint))
      ensures pipeline.remote == (old(pipeline.remote) || (step.http && step.localEndpoint))
    {
      if step.http {
        if step.localEndpoint {
          pipeline.remote := true;
        } else {
          pipeline.network := true;
        }
      }
      pipeline.error := true;
      Record(step);
    }

    method HandleStateChanged(step: Step)
      requires Valid() && (step.Up? || step.Down?) && Can(Cfg(), Now(), step)
      modifies `log, `path, `trail, pipeline
      ensures Valid() && trail == old(trail) + [step] && Now() == Do(Cfg(), old(Now()), step)
      // A start is a resumption exactly when the speech was paused; a stop is a pause exactly then.
      ensures step.Up? && isSpeaking ==> currentSpeech.Some? && !pipeline.paused
      ensures step.Up? && isSpeaking && old(pipeline.paused) ==>
        log.trace == old(log.trace) + [Resumed(currentSpeech.value)]
      ensures step.Up? && isSpeaking && !old(pipeline.paused) ==>
        log.trace == old(log.trace) + [Event.Started(currentSpeech.value)]
      ensures step.Down? && isSpeaking && old(pipeline.paused) ==> currentSpeech.Some? && pipeline.paused
      ensures step.Down? && isSpeaking && old(pipeline.paused) ==>
        log.trace == old(log.trace) + [Event.Paused(currentSpeech.value)]
      ensures step.Down? && !old(pipeline.paused) ==> log.trace == old(log.trace) && !pipeline.paused
    {
      if step.Up? && isSpeaking {
        if pipeline.paused {
          pipeline.paused := false;
          log := log.(trace := log.trace + [Event.Resumed(currentSpeech.value)]);
        } else {
          log := log.(trace := log.trace + [Event.Started(currentSpeech.value)]);
        }
      } else if step.Down? && isSpeaking && pipeline.paused {
        log := log.(trace := log.trace + [Event.Paused(currentSpeech.value)]);
      }
      Record(step);
    }

    // Its caller records the step that it is part of.
    method DequeueData() returns (id: Id)
      requires queue != []
      modifies `queue, `flushed, `log
      ensures Now() == Dequeue(old(Now())) && id == old(queue)[0]
    {
      id := queue[0];
      queue := queue[1..];
      flushed := false;
      log := log.(pass := log.pass.(taken := log.pass.taken + 1));
    }

    // Top of the loop: make, or unmake, the pipeline if it is due.
    method UpdatePipeline()
      requires Valid() && pc == Top
      modifies `pc, `log, `path, `trail, pipeline
      ensures Valid() && trail == old(trail) + [Work(false)] && Now() == Do(Cfg(), old(Now()), Work(false))
    {
      log := log.(pass := Pass(queue != [], 0, true), passes := log.passes + 1);
      pc := Waiting;
      if NeedsPipelineUpdate() {
        if pipeline.wanted {
          pipeline.CreatePipeline();
          pc := Created;
        } else {
          pipeline.DestroyPipeline();
        }
      }
      Record(Work(false));
    }

    // Creation failed with work queued: that utterance ends with a playback error.
    method AfterCreation() returns (failed: Option<Event>)
      requires Valid() && pc == Created
      modifies this, pipeline
      ensures Valid() && trail == old(trail) + [Work(false)] && Now() == Do(Cfg(), old(Now()), Work(false))
      ensures failed == if !old(pipeline.present) && old(queue) != [] then Some(PlaybackError(old(queue)[0])) else None
    {
      failed := None;
      if !pipeline.present && queue != [] {
        var id := DequeueData();
        log := log.(trace := log.trace + [Event.PlaybackError(id)]);
        pipeline.failures := 0;
        failed := Some(Event.PlaybackError(id));
      }
      pc := Waiting;
      Record(Work(false));
    }

    // The wait is over: start again, or take the next utterance.
    method TakeNext()
      requires Valid() && pc == Waiting && Can(Cfg(), Now(), Work(false))
      modifies this
      ensures Valid() && trail == old(trail) + [Work(false)] && Now() == Do(Cfg(), old(Now()), Work(false))
    {
      if NeedsPipelineUpdate() {
        pc := Top;
      } else {
        var id := DequeueData();
        isSpeaking := true;
        pc := Announcing(id);
      }
      Record(Work(false));
    }

    // willSpeak, unless the utterance was flushed meanwhile.
    method Announce()
      requires Valid() && pc.Announcing?
      modifies `pc, `log, `path, `trail
      ensures Valid() && trail == old(trail) + [Work(false)] && Now() == Do(Cfg(), old(Now()), Work(false))
    {
      var id := pc.id;
      if !flushed {
        log := log.(trace := log.trace + [Event.WillSpeak(id)]);
      }
      pc := Starting(id, false);
      Record(Work(false));
    }

    method SwitchPipeline()
      modifies pipeline
      ensures pipeline.Now() == Create(Destroy(old(pipeline.Now())), pipeline.world)
    {
      pipeline.DestroyPipeline();
      pipeline.CreatePipeline();
    }

    // speakText up to the wait in play; `switch` is constructURL asking for another pipeline.
    method SpeakText(switch: bool)
      requires Valid() && pc.Starting?
      modifies `pc, `currentSpeech, `path, `trail, pipeline
      ensures Valid() && trail == old(trail) + [Work(switch)] && Now() == Do(Cfg(), old(Now()), Work(switch))
    {
      var id, again := pc.id, pc.again;
      pc := if again then Reporting(id) else Between(id);
      if !flushed {
        pipeline.eos := false;
        if pipeline.present {
          if switch {
            SwitchPipeline();
          }
          currentSpeech := Some(id);
          pc := Playing(id, again);
        }
      }
      Record(Work(switch));
    }

    // The watchdog returned.
    method StopWaiting()
      requires Valid() && pc.Playing?
      modifies `pc, `currentSpeech, `path, `trail, pipeline`eos
      ensures Valid() && trail == old(trail) + [Work(false)] && Now() == Do(Cfg(), old(Now()), Work(false))
    {
      pipeline.eos := false;
      currentSpeech := None;
      pc := if pc.again then Reporting(pc.id) else Between(pc.id);
      Record(Work(false));
    }

    method TryLocalEndpoint()
      requires Valid() && pc.Between?
      modifies `pc, `path, `trail
      ensures Valid() && trail == old(trail) + [Work(false)] && Now() == Do(Cfg(), old(Now()), Work(false))
    {
      if !flushed && pipeline.remote {
        pc := Starting(pc.id, true);
      } else {
        pc := Reporting(pc.id);
      }
      Record(Work(false));
    }

    method Report() returns (e: Event)
      requires Valid() && pc.Reporting?
      modifies this
      ensures Valid() && trail == old(trail) + [Work(false)] && Now() == Do(Cfg(), old(Now()), Work(false))
      ensures e == Verdict(old(Now()), old(pc.id))
    {
      var id := pc.id;
      if flushed {
        e := Event.Interrupted(id);
      } else if pipeline.network {
        e := Event.NetworkError(id);
      } else if !pipeline.present || pipeline.error {
        e := Event.PlaybackError(id);
      } else {
        e := Event.Spoke(id);
      }
      log := log.(trace := log.trace + [e]);
      isSpeaking := false;
      flushed := false;
      pc := Resetting;
      Record(Work(false));
    }

    method FinishPass()
      requires Valid() && pc == Resetting
      modifies `pc, `path, `trail, pipeline
      ensures Valid() && trail == old(trail) + [Work(false)] && Now() == Do(Cfg(), old(Now()), Work(false))
    {
      pipeline.ResetPipeline();
      pc := Top;
      Record(Work(false));
    }

    // ---------------------------------------------------------------------------------
    // A whole pass
    // ---------------------------------------------------------------------------------

    // Utterance id plays, by its first or second try.
    ghost predicate PlayingNow(id: Id, again: bool)
      reads this
    {
      pc == Playing(id, again) && isSpeaking && currentSpeech == Some(id)
    }

    method DeliverOne(id: Id, ghost again: bool, m: Step)
      requires Valid() && PlayingNow(id, again) && Heeded(m)
      modifies this, pipeline
      ensures Valid() && PlayingNow(id, again) && queue == old(queue) && log.trace == old(log.trace)
      ensures pipeline.Now() == Heard(old(pipeline.Now()), id, m)
      ensures flushed == (old(flushed) || Names(m, id))
    {
      if m.Cancel? {
        var status := CancelSpeech(m.target);
      } else if pipeline.present {
        HandleMessage(m);
      }
    }

    method Deliver(id: Id, ghost again: bool, ms: seq<Step>)
      requires Valid() && PlayingNow(id, again) && !flushed && forall i :: 0 <= i < |ms| ==> Heeded(ms[i])
      modifies this, pipeline
      ensures Valid() && PlayingNow(id, again) && queue == old(queue) && log.trace == old(log.trace)
      ensures pipeline.Now() == HeardAll(old(pipeline.Now()), id, ms)
      ensures flushed == Cut(id, ms)
    {
      var n := 0;
      assert ms[0..] == ms;
      while n < |ms|
        invariant 0 <= n <= |ms| && Valid() && PlayingNow(id, again)
        invariant queue == old(queue) && log.trace == old(log.trace)
        invariant HeardAll(pipeline.Now(), id, ms[n..]) == HeardAll(old(pipeline.Now()), id, ms)
        invariant flushed == exists i :: 0 <= i < n && Names(ms[i], id)
      {
        assert ms[n..][1..] == ms[n + 1..];
        DeliverOne(id, again, ms[n]);
        n := n + 1;
      }
    }

    // The pipeline that a try starts with.
    method StartTry(id: Id, again: bool, switch: bool)
      requires Valid() && pc == Starting(id, again) && isSpeaking && !flushed
      modifies `pc, `currentSpeech, `path, `trail, pipeline
      ensures Valid() && pipeline.Now() == TryBegun(old(pipeline.Now()), pipeline.world, switch)
      ensures old(pipeline.present) ==> PlayingNow(id, again)
      ensures !old(pipeline.present) ==> pc == if again then Reporting(id) else Between(id)
    {
      SpeakText(switch);
    }

    method EndTry(id: Id, again: bool)
      requires Valid() && PlayingNow(id, again)
      modifies `pc, `currentSpeech, `path, `trail, pipeline`eos
      ensures Valid() && pc == if again then Reporting(id) else Between(id)
      ensures pipeline.Now() == old(pipeline.Now()).(eos := false)
    {
      StopWaiting();
    }

    // One try: what plays, and what comes in meanwhile.
    method TryOnce(id: Id, again: bool, switch: bool, ms: seq<Step>)
      requires Valid() && pc == Starting(id, again) && isSpeaking && !flushed
      requires forall i :: 0 <= i < |ms| ==> Heeded(ms[i])
      modifies this, pipeline
      ensures Valid() && pc == (if again then Reporting(id) else Between(id)) && isSpeaking
      ensures queue == old(queue) && log.trace == old(log.trace)
      ensures pipeline.Now() == Tried(old(pipeline.Now()), pipeline.world, switch, id, ms)
      ensures flushed == (old(pipeline.present) && Cut(id, ms))
    {
      StartTry(id, again, switch);
      if pc.Playing? {
        Deliver(id, again, ms);
        EndTry(id, again);
      }
    }

    // Both tries, if there are two: what the report will say.
    method Try(id: Id, switch: bool, ms: seq<Step>, switchAgain: bool, msAgain: seq<Step>)
      requires Valid() && pc == Starting(id, false) && isSpeaking && !flushed
      requires forall i :: 0 <= i < |ms| ==> Heeded(ms[i])
      requires forall i :: 0 <= i < |msAgain| ==> Heeded(msAgain[i])
      modifies this, pipeline
      ensures Valid() && pc == Reporting(id) && queue == old(queue) && log.trace == old(log.trace)
      ensures Verdict(Now(), id)
           == PassOutcome(old(pipeline.Now()), pipeline.world, id, switch, ms, switchAgain, msAgain)
    {
      TryOnce(id, false, switch, ms);
      TryLocalEndpoint();
      if pc.Starting? {
        TryOnce(id, true, switchAgain, msAgain);
      }
    }

    method EndPass(id: Id) returns (ended: Event)
      requires Valid() && pc == Reporting(id)
      modifies this, pipeline
      ensures Valid() && pc == Top && queue == old(queue) && Quiet(pipeline.Now())
      ensures ended == Verdict(old(Now()), id) && log.trace == old(log.trace) + [ended]
    {
      ended := Report();
      ResetOutcome(pipeline.Now(), pipeline.world);
      FinishPass();
    }

    // From the announcement to the end of the pass.
    method SpeakNext(id: Id, switch: bool, ms: seq<Step>, switchAgain: bool, msAgain: seq<Step>) returns (ended: Event)
      requires Valid() && pc == Announcing(id) && isSpeaking && !flushed
      requires forall i :: 0 <= i < |ms| ==> Heeded(ms[i])
      requires forall i :: 0 <= i < |msAgain| ==> Heeded(msAgain[i])
      modifies this, pipeline
      ensures Valid() && pc == Top && queue == old(queue) && Quiet(pipeline.Now())
      ensures ended == PassOutcome(old(pipeline.Now()), pipeline.world, id, switch, ms, switchAgain, msAgain)
      ensures log.trace == old(log.trace) + [WillSpeak(id), ended]
    {
      Announce();
      Try(id, switch, ms, switchAgain, msAgain);
      ended := EndPass(id);
      assert old(log.trace) + [WillSpeak(id)] + [ended] == old(log.trace) + [WillSpeak(id), ended];
    }

    // The first stretch: the pipeline is made or unmade, and an utterance fails if it could not be made.
    method BeginPass() returns (failed: Option<Event>)
      requires Valid() && pc == Top
      modifies this, pipeline
      ensures Valid() && pc == Waiting
      ensures var p := Updated(Cfg(), old(Now()));
        if p.wanted && !p.present && old(queue) != [] then
          && failed == Some(PlaybackError(old(queue)[0])) && queue == old(queue)[1..]
          && log.trace == old(log.trace) + [failed.value] && pipeline.Now() == p.(failures := 0)
        else
          failed == None && queue == old(queue) && log.trace == old(log.trace) && pipeline.Now() == p
    {
      UpdatedSettles(Cfg(), Now());
      UpdatePipeline();
      failed := None;
      if pc == Created {
        failed := AfterCreation();
      }
    }

    // The next utterance is in hand, unless the pipeline has to be looked at again.
    method TakeUp() returns (id: Option<Id>)
      requires Valid() && pc == Waiting && (queue != [] || NeedsUpdate(Cfg(), Now()))
      modifies this
      ensures Valid() && log.trace == old(log.trace)
      ensures NeedsUpdate(Cfg(), old(Now())) ==> id == None && pc == Top && queue == old(queue)
      ensures !NeedsUpdate(Cfg(), old(Now())) ==>
        id == Some(old(queue)[0]) && pc == Announcing(id.value) && isSpeaking && !flushed && queue == old(queue)[1..]
    {
      TakeNext();
      id := if pc.Announcing? then Some(pc.id) else None;
    }

    /**
     A pass of the worker's loop that nobody disturbs but for what comes in while the utterance
     plays: with nothing queued nothing ends. Else exactly the first queued utterance does: with
     a playback error, unannounced, if a pipeline is wanted and cannot be made; else announced
     and with the outcome that follows from its tries, and the pipeline's flags are clear after.
     */
    method RunPass(switch: bool, ms: seq<Step>, switchAgain: bool, msAgain: seq<Step>) returns (ended: Option<Event>)
      requires Valid() && pc == Top
      requires forall i :: 0 <= i < |ms| ==> Heeded(ms[i])
      requires forall i :: 0 <= i < |msAgain| ==> Heeded(msAgain[i])
      modifies this, pipeline
      ensures Valid() && (pc == Top || (pc == Waiting && !Can(Cfg(), Now(), Work(false))))
      ensures old(queue) == [] ==> ended == None && queue == [] && log.trace == old(log.trace)
      ensures old(queue) != [] ==> queue == old(queue)[1..]
      ensures var p := Updated(Cfg(), old(Now()));
        old(queue) != [] ==>
          if p.wanted && !p.present then
            && ended == Some(PlaybackError(old(queue)[0]))
            && log.trace == old(log.trace) + [ended.value]
          else
            && ended == Some(PassOutcome(p, pipeline.world, old(queue)[0], switch, ms, switchAgain, msAgain))
            && log.trace == old(log.trace) + [WillSpeak(old(queue)[0]), ended.value]
            && pc == Top && Quiet(pipeline.Now())
    {
      UpdatedSettles(Cfg(), Now());
      ended := BeginPass();
      if queue == [] && !NeedsPipelineUpdate() {
        return;
      }
      var id := TakeUp();
      if id.Some? {
        var e := SpeakNext(id.value, switch, ms, switchAgain, msAgain);
        ended := Some(e);
      }
    }
  }
}
