/**
 Which pause is in force, and which of started, paused and resumed is reported
 (TTSSpeaker.cpp:557-584 and 1150-1175), told from the steps of a run.
 */
module SpeakerPauses {

  import opened Wrappers
  import opened Pipeline
  import opened Speaker
  import opened SpeakerOutcome

  // The state before step n.
  function At(c: Config, s: State, steps: seq<Step>, n: nat): State
    requires Runs(c, s, steps) && n <= |steps|
    decreases n
  {
    if n == 0 then s else At(c, Do(c, s, steps[0]), steps[1..], n - 1)
  }

  lemma {:induction false} AtStep(c: Config, s: State, steps: seq<Step>, n: nat)
    requires Runs(c, s, steps) && n < |steps|
    ensures var b := At(c, s, steps, n);
      Can(c, b, steps[n]) && At(c, s, steps, n + 1) == Do(c, b, steps[n])
    decreases n
  {
    if n == 0 {
      assert At(c, s, steps, 1) == At(c, Do(c, s, steps[0]), steps[1..], 0);
    } else {
      AtStep(c, Do(c, s, steps[0]), steps[1..], n - 1);
    }
  }

  lemma {:induction false} AtTheEnd(c: Config, s: State, steps: seq<Step>)
    requires Runs(c, s, steps)
    ensures At(c, s, steps, |steps|) == Final(c, s, steps)
    decreases |steps|
  {
    if steps != [] {
      AtTheEnd(c, Do(c, s, steps[0]), steps[1..]);
    }
  }

  // ---------------------------------------------------------------------------------
  // Pauses
  // ---------------------------------------------------------------------------------

  // A caller pauses utterance id, which is playing.
  predicate Asks(s: State, step: Step, id: Id) {
    step == Step.Pause(id) && s.speaking && s.current == Some(id) && s.pipe.present
  }

  // A pipeline that was just built, or that is stopped at the end of a pass, is reset.
  predicate ResetsPipeline(c: Config, s: State, step: Step) {
    step.Work? &&
      (|| s.pc == Resetting
       || Renews(c, s, step)
       || (s.pc == Top && NeedsUpdate(c, s) && s.pipe.wanted && c.world(s.pipe.attempts) == Built))
  }

  // A cancel, a resumption or a reset.
  predicate Lifts(c: Config, s: State, step: Step) {
    (step.Cancel? && Cancels(s, step.target)) || step.CancelSet? || step.Up? || ResetsPipeline(c, s, step)
  }

  // Asked for in step i, and not lifted before step n.
  predicate Stands(c: Config, s: State, steps: seq<Step>, id: Id, i: nat, n: nat)
    requires Runs(c, s, steps) && n <= |steps|
  {
    i < n && Asks(At(c, s, steps, i), steps[i], id) && !LiftedBetween(c, s, steps, i, n)
  }

  predicate LiftedBetween(c: Config, s: State, steps: seq<Step>, i: nat, n: nat)
    requires Runs(c, s, steps) && n <= |steps|
  {
    exists j: nat :: i < j < n && LiftedAt(c, s, steps, j)
  }

  predicate LiftedAt(c: Config, s: State, steps: seq<Step>, j: nat)
    requires Runs(c, s, steps) && j < |steps|
  {
    Lifts(c, At(c, s, steps, j), steps[j])
  }

  // A pause that a caller asked for on id stands before step n.
  ghost predicate PauseStands(c: Config, s: State, steps: seq<Step>, id: Id, n: nat)
    requires Runs(c, s, steps) && n <= |steps|
  {
    exists i: nat :: Stands(c, s, steps, id, i, n)
  }

  lemma StandsOneMore(c: Config, s: State, steps: seq<Step>, id: Id, i: nat, n: nat)
    requires Runs(c, s, steps) && n < |steps|
    ensures Stands(c, s, steps, id, i, n + 1) <==>
      (i == n && Asks(At(c, s, steps, n), steps[n], id))
          || (Stands(c, s, steps, id, i, n) && !LiftedAt(c, s, steps, n))
  {
    if LiftedBetween(c, s, steps, i, n) {
      var j: nat :| i < j < n && LiftedAt(c, s, steps, j);
      assert LiftedBetween(c, s, steps, i, n + 1);
    }
  }

  lemma PauseStandsOneMore(c: Config, s: State, steps: seq<Step>, id: Id, n: nat)
    requires Runs(c, s, steps) && n < |steps|
    ensures PauseStands(c, s, steps, id, n + 1) <==>
      Asks(At(c, s, steps, n), steps[n], id)
          || (PauseStands(c, s, steps, id, n) && !LiftedAt(c, s, steps, n))
  {
    var m := n + 1;
    if Asks(At(c, s, steps, n), steps[n], id) {
      StandsOneMore(c, s, steps, id, n, n);
    } else if PauseStands(c, s, steps, id, n) && !LiftedAt(c, s, steps, n) {
      var i: nat :| Stands(c, s, steps, id, i, n);
      StandsOneMore(c, s, steps, id, i, n);
    } else {
      if i: nat :| Stands(c, s, steps, id, i, m) {
        StandsOneMore(c, s, steps, id, i, n);
      }
    }
  }

  // ---------------------------------------------------------------------------------
  // One step
  // ---------------------------------------------------------------------------------

  // What plays is current, and is being spoken.
  predicate PlaysCurrent(s: State) {
    && s.current == (if s.pc.Playing? then Some(s.pc.id) else None)
    && (InHand(s.pc).Some? ==> s.speaking)
  }

  lemma PlayingStep(c: Config, s: State, step: Step)
    requires PlaysCurrent(s) && Can(c, s, step)
    ensures PlaysCurrent(Do(c, s, step))
  {
  }

  lemma CreatePaused(p: Pipe, w: World)
    ensures Create(p, w).paused == (p.paused && !(p.wanted && !p.present && w(p.attempts) == Built))
  {
    CreateOutcome(p, w);
  }

  lemma PausedStep(c: Config, s: State, step: Step)
    requires PlaysCurrent(s) && Can(c, s, step)
    ensures Do(c, s, step).pipe.paused <==>
      (s.current.Some? && Asks(s, step, s.current.value)) || (s.pipe.paused && !Lifts(c, s, step))
  {
    if step.Work? {
      WorkPaused(c, s, step.switch);
    }
  }

  lemma WorkPaused(c: Config, s: State, switch: bool)
    requires Can(c, s, Work(switch))
    ensures Do(c, s, Work(switch)).pipe.paused <==> s.pipe.paused && !ResetsPipeline(c, s, Work(switch))
  {
    if s.pc == Top {
      CreatePaused(s.pipe, c.world);
    } else if s.pc.Starting? {
      CreatePaused(Destroy(s.pipe.(eos := false)), c.world);
    } else if s.pc == Resetting {
      ResetOutcome(s.pipe, c.world);
    }
  }

  // A pause that is not lifted leaves its utterance with the worker.
  lemma HandStep(c: Config, s: State, step: Step, id: Id)
    requires Can(c, s, step) && !Lifts(c, s, step) && (InHand(s.pc) == Some(id) || s.pc == Resetting)
    ensures InHand(Do(c, s, step).pc) == Some(id) || Do(c, s, step).pc == Resetting
  {
  }

  // ---------------------------------------------------------------------------------
  // Runs
  // ---------------------------------------------------------------------------------

  ghost predicate Agrees(c: Config, s: State, steps: seq<Step>, n: nat)
    requires Runs(c, s, steps) && n <= |steps|
  {
    var b := At(c, s, steps, n);
    && PlaysCurrent(b)
    && (b.pipe.paused <==> exists id: Id :: PauseStands(c, s, steps, id, n))
    && (forall id: Id :: PauseStands(c, s, steps, id, n) ==> InHand(b.pc) == Some(id) || b.pc == Resetting)
  }

  lemma {:induction false} RunAgrees(c: Config, s: State, steps: seq<Step>, n: nat)
    requires Init(s) && Runs(c, s, steps) && n <= |steps|
    ensures Agrees(c, s, steps, n)
  {
    if n == 0 {
      assert forall id: Id, i: nat :: !Stands(c, s, steps, id, i, 0);
    } else {
      RunAgrees(c, s, steps, n - 1);
      AgreesStep(c, s, steps, n - 1);
    }
  }

  // A pause that stands after step n: it was just asked for, or it stood and was not lifted.
  lemma StandingStep(c: Config, s: State, steps: seq<Step>, id: Id, n: nat)
    requires Runs(c, s, steps) && n < |steps| && Agrees(c, s, steps, n) && PauseStands(c, s, steps, id, n + 1)
    ensures var a := At(c, s, steps, n + 1);
      (InHand(a.pc) == Some(id) || a.pc == Resetting) && a.pipe.paused
  {
    var b := At(c, s, steps, n);
    AtStep(c, s, steps, n);
    PausedStep(c, b, steps[n]);
    PauseStandsOneMore(c, s, steps, id, n);
    if !Asks(b, steps[n], id) {
      HandStep(c, b, steps[n], id);
    }
  }

  lemma RaisedStep(c: Config, s: State, steps: seq<Step>, n: nat) returns (id: Id)
    requires Runs(c, s, steps) && n < |steps| && Agrees(c, s, steps, n) && At(c, s, steps, n + 1).pipe.paused
    ensures PauseStands(c, s, steps, id, n + 1)
  {
    var b := At(c, s, steps, n);
    AtStep(c, s, steps, n);
    PausedStep(c, b, steps[n]);
    if b.current.Some? && Asks(b, steps[n], b.current.value) {
      id := b.current.value;
    } else {
      id :| PauseStands(c, s, steps, id, n);
    }
    PauseStandsOneMore(c, s, steps, id, n);
  }

  lemma AgreesStep(c: Config, s: State, steps: seq<Step>, n: nat)
    requires Runs(c, s, steps) && n < |steps| && Agrees(c, s, steps, n)
    ensures Agrees(c, s, steps, n + 1)
  {
    var m := n + 1;
    AtStep(c, s, steps, n);
    PlayingStep(c, At(c, s, steps, n), steps[n]);
    forall id: Id | PauseStands(c, s, steps, id, m)
      ensures InHand(At(c, s, steps, m).pc) == Some(id) || At(c, s, steps, m).pc == Resetting
      ensures At(c, s, steps, m).pipe.paused
    {
      StandingStep(c, s, steps, id, n);
    }
    if At(c, s, steps, m).pipe.paused {
      var id := RaisedStep(c, s, steps, n);
    }
  }

  /**
   In every run the pause flag is up if and only if a pause that a caller asked for stands: no
   cancel, resumption or reset of the pipeline has come since. It is on the utterance in hand.
   */
  lemma PausedExactly(c: Config, s: State, steps: seq<Step>)
    requires Init(s) && Runs(c, s, steps)
    ensures var e := Final(c, s, steps);
      && (e.pipe.paused <==> exists id: Id :: PauseStands(c, s, steps, id, |steps|))
      && (forall id: Id :: PauseStands(c, s, steps, id, |steps|) ==> InHand(e.pc) == Some(id) || e.pc == Resetting)
  {
    RunAgrees(c, s, steps, |steps|);
    AtTheEnd(c, s, steps);
  }

  predicate OfAPause(e: Event) { e.Started? || e.Paused? || e.Resumed? }

  // What step n of the run reports of the kind.
  function Reported(c: Config, s: State, steps: seq<Step>, n: nat): seq<Event>
    requires Runs(c, s, steps) && n < |steps|
  {
    var b, a := At(c, s, steps, n), At(c, s, steps, n + 1);
    if b.log.trace < a.log.trace then a.log.trace[|b.log.trace|..] else []
  }

  /**
   In every run a start of the pipeline is reported as resumed if a pause that a caller asked for
   stands, and as started otherwise; a stop is reported as paused if and only if one stands; each
   with the utterance that plays. Nothing else is reported as any of the three.
   */
  lemma PauseEvents(c: Config, s: State, steps: seq<Step>, n: nat)
    requires Init(s) && Runs(c, s, steps) && n < |steps|
    ensures var b, events := At(c, s, steps, n), Reported(c, s, steps, n);
      && (steps[n].Up? || steps[n].Down? ==> b.pc.Playing?)
      && At(c, s, steps, n + 1).log.trace == b.log.trace + events
      && (steps[n].Up? ==>
          events == [if PauseStands(c, s, steps, b.pc.id, n) then Resumed(b.pc.id) else Event.Started(b.pc.id)])
      && (steps[n].Down? ==>
          events == if PauseStands(c, s, steps, b.pc.id, n) then [Event.Paused(b.pc.id)] else [])
      && (!steps[n].Up? && !steps[n].Down? ==> forall e :: e in events ==> !OfAPause(e))
  {
    var b := At(c, s, steps, n);
    RunAgrees(c, s, steps, n);
    AtStep(c, s, steps, n);
    if steps[n].Up? || steps[n].Down? {
      StateReports(c, b, steps[n]);
      if b.pipe.paused {
        var id: Id :| PauseStands(c, s, steps, id, n);
        assert id == b.pc.id;
      }
    } else {
      OtherReports(c, b, steps[n]);
    }
  }

  lemma StateReports(c: Config, s: State, step: Step)
    requires PlaysCurrent(s) && Can(c, s, step) && (step.Up? || step.Down?)
    ensures s.pc.Playing?
    ensures Do(c, s, step).log.trace == s.log.trace
      + (if step.Up? then [if s.pipe.paused then Resumed(s.pc.id) else Event.Started(s.pc.id)]
         else if s.pipe.paused then [Event.Paused(s.pc.id)] else [])
  {
    assert s.log.trace + [] == s.log.trace;
  }

  lemma OtherReports(c: Config, s: State, step: Step)
    requires Can(c, s, step) && !step.Up? && !step.Down?
    ensures var s' := Do(c, s, step);
      s'.log.trace == s.log.trace || exists e :: s'.log.trace == s.log.trace + [e] && !OfAPause(e)
  {
  }

  // ---------------------------------------------------------------------------------
  // The wish for a pipeline
  // ---------------------------------------------------------------------------------

  /** A pipeline is wanted if and only if the last call of ensurePipeline said so. */
  lemma {:induction false} WantedAsLastAsked(c: Config, s: State, steps: seq<Step>, i: nat)
    requires Runs(c, s, steps) && i < |steps| && steps[i].Want?
    requires forall j :: i < j < |steps| ==> !steps[j].Want?
    ensures Final(c, s, steps).pipe.wanted == steps[i].flag
    decreases |steps|
  {
    var s' := Do(c, s, steps[0]);
    if i > 0 {
      WantedAsLastAsked(c, s', steps[1..], i - 1);
    } else {
      NobodyAsks(c, s', steps[1..]);
    }
  }

  lemma WorkWants(c: Config, s: State, switch: bool)
    requires Can(c, s, Work(switch))
    ensures Do(c, s, Work(switch)).pipe.wanted == s.pipe.wanted
  {
    if s.pc == Top {
      CreateOutcome(s.pipe, c.world);
    } else if s.pc.Starting? {
      CreateOutcome(Destroy(s.pipe.(eos := false)), c.world);
    } else if s.pc == Resetting {
      ResetOutcome(s.pipe, c.world);
    }
  }

  lemma {:induction false} NobodyAsks(c: Config, s: State, steps: seq<Step>)
    requires Runs(c, s, steps) && forall j :: 0 <= j < |steps| ==> !steps[j].Want?
    ensures Final(c, s, steps).pipe.wanted == s.pipe.wanted
    decreases |steps|
  {
    if steps != [] {
      assert !steps[0].Want?;
      if steps[0].Work? {
        WorkWants(c, s, steps[0].switch);
      }
      NobodyAsks(c, Do(c, s, steps[0]), steps[1..]);
    }
  }
}
