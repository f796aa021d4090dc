/**
 What one pass of the worker's loop does (TTSSpeaker.cpp:995-1073), and how the queue drains.
 */
module SpeakerPasses {

  import opened Wrappers
  import opened Pipeline
  import opened Speaker
  import opened SpeakerLife

  ghost predicate PassInv(s: State) {
    var p := s.log.pass;
    p.steady ==>
      match s.pc
      case Top => p.taken <= 1 && (p.hadWork ==> p.taken == 1)
      case Created => p.taken == 0 && s.pipe.wanted && (p.hadWork ==> s.queue != [])
      case Waiting =>
        || (p.taken == 0 && (p.hadWork ==> s.queue != [] && s.pipe.wanted == s.pipe.present))
        || (p.taken == 1 && s.pipe.wanted && !s.pipe.present)
      case _ => p.taken == 1
  }

  lemma PassStep(c: Config, s: State, step: Step)
    requires PassInv(s) && Can(c, s, step)
    ensures PassInv(Do(c, s, step))
  {
    match step
    case Work(switch) =>
      if s.pc == Top {
        TopPass(c, s, switch);
      } else {
        LaterPass(c, s, switch);
      }
    case _ =>
  }

  lemma TopPass(c: Config, s: State, switch: bool)
    requires s.pc == Top
    ensures PassInv(DoWork(c, s, switch))
  {
    CreateOutcome(s.pipe, c.world);
  }

  lemma LaterPass(c: Config, s: State, switch: bool)
    requires PassInv(s) && Can(c, s, Work(switch)) && s.pc != Top
    ensures PassInv(DoWork(c, s, switch))
  {
    if s.pc != Created && s.pc != Waiting {
      assert DoWork(c, s, switch).log.pass == s.log.pass;
    }
  }

  lemma {:induction false} PassAlways(c: Config, s: State, steps: seq<Step>)
    requires PassInv(s) && Runs(c, s, steps)
    ensures PassInv(Final(c, s, steps))
    decreases |steps|
  {
    if steps != [] {
      PassStep(c, s, steps[0]);
      PassAlways(c, Do(c, s, steps[0]), steps[1..]);
    }
  }

  /**
   Whatever the pipeline does and whatever else happens meanwhile: a pass during which no
   caller changed the pipeline flag and nothing was flushed takes at most one utterance,
   and exactly one if the queue was not empty when it began.
   */
  lemma OnePerPass(c: Config, s: State, steps: seq<Step>)
    requires Init(s) && Runs(c, s, steps)
    ensures var f := Final(c, s, steps);
            f.log.pass.steady ==>
              f.log.pass.taken <= 1 && (f.pc == Top && f.log.pass.hadWork ==> f.log.pass.taken == 1)
  {
    PassAlways(c, s, steps);
  }

  // ---------------------------------------------------------------------------------
  // n utterances drain in n passes
  // ---------------------------------------------------------------------------------

  predicate Undisturbed(steps: seq<Step>) {
    forall i | 0 <= i < |steps| :: !steps[i].Want? && !steps[i].Flush?
  }

  // Utterances the worker has taken so far.
  function Served(s: State): nat {
    |Ended(s.log.trace)| + |Hand(s.pc)|
  }

  ghost predicate DrainInv(base: State, s: State) {
    var begun := s.log.passes - base.log.passes;
    && PassInv(s)
    && Line(base) <= Line(s)
    && begun >= 0
    && (begun <= |base.queue| ==>
          if s.pc == Top then Served(s) == Served(base) + begun
          else begun > 0 && s.log.pass.steady && s.log.pass.hadWork
               && Served(s) + 1 == Served(base) + begun + s.log.pass.taken)
  }

  // What a worker step does to the count of passes and to the pass under way.
  lemma PassCounts(c: Config, s: State, step: Step)
    requires Can(c, s, step) && !step.Want? && !step.Flush?
    ensures var s', e := Do(c, s, step), EffectOf(c, s, step);
            && s'.log.passes == s.log.passes + (if step.Work? && s.pc == Top then 1 else 0)
            && (step.Work? && s.pc == Top ==>
                  s'.pc != Top && s'.log.pass == Pass(s.queue != [], 0, true) && e == Nothing)
            && (!(step.Work? && s.pc == Top) ==>
                  s'.log.pass == s.log.pass.(taken := s.log.pass.taken + if e.Takes? || e.Fails? then 1 else 0))
            && (!step.Work? ==> s'.pc == s.pc && !e.Takes? && !e.Fails?)
  {
    match step
    case Work(switch) =>
      var s' := DoWork(c, s, switch);
      assert s'.log.passes == s.log.passes + (if s.pc == Top then 1 else 0);
    case _ =>
  }

  lemma DrainStep(c: Config, base: State, s: State, step: Step)
    requires DrainInv(base, s) && base.pc == Top && Can(c, s, step) && !step.Want? && !step.Flush?
    ensures DrainInv(base, Do(c, s, step))
  {
    var s', e := Do(c, s, step), EffectOf(c, s, step);
    PassStep(c, s, step);
    StepHas(c, s, step);
    LineMoves(s, s', e);
    PassCounts(c, s, step);
    if step.Work? && s.pc == Top && s'.log.passes - base.log.passes <= |base.queue| {
      assert |Line(s)| == Served(s) + |s.queue|;
      assert |Line(base)| == Served(base) + |base.queue|;
      assert s.queue != [];
    }
  }

  lemma {:induction false} DrainAlways(c: Config, base: State, s: State, steps: seq<Step>)
    requires DrainInv(base, s) && base.pc == Top && Runs(c, s, steps) && Undisturbed(steps)
    ensures DrainInv(base, Final(c, s, steps))
    decreases |steps|
  {
    if steps != [] {
      DrainStep(c, base, s, steps[0]);
      assert forall i | 0 <= i < |steps[1..]| :: steps[1..][i] == steps[i + 1];
      DrainAlways(c, base, Do(c, s, steps[0]), steps[1..]);
    }
  }

  /**
   From the top of the loop in any reachable state, with no flush and no change of the
   pipeline flag: after k whole passes, k not more than the queue was long, exactly the
   first k queued utterances have ended, in order, whether building the pipeline worked,
   failed or was switched off. So n utterances drain in n passes.
   */
  lemma DrainsInOrder(c: Config, s: State, before: seq<Step>, steps: seq<Step>)
    requires Init(s) && Runs(c, s, before) && Runs(c, Final(c, s, before), steps) && Undisturbed(steps)
    requires Final(c, s, before).pc == Top && Final(c, Final(c, s, before), steps).pc == Top
    ensures var b := Final(c, s, before);
            var f := Final(c, b, steps);
            var k := f.log.passes - b.log.passes;
            k >= 0 && (k <= |b.queue| ==> Ended(f.log.trace) == Ended(b.log.trace) + b.queue[..k])
  {
    PassAlways(c, s, before);
    var b := Final(c, s, before);
    DrainAlways(c, b, b, steps);
    var f := Final(c, b, steps);
    var k := f.log.passes - b.log.passes;
    if k <= |b.queue| {
      assert Line(b) == Ended(b.log.trace) + b.queue && Line(f) == Ended(f.log.trace) + f.queue;
      PrefixEnds(Ended(b.log.trace), b.queue, Ended(f.log.trace), f.queue, k);
    }
  }

  lemma PrefixEnds(x: seq<Id>, q: seq<Id>, y: seq<Id>, r: seq<Id>, k: nat)
    requires x + q <= y + r && |y| == |x| + k && k <= |q|
    ensures y == x + q[..k]
  {
    assert y == (y + r)[..|y|] == (x + q)[..|y|];
  }

  // ---------------------------------------------------------------------------------
  // Giving up
  // ---------------------------------------------------------------------------------

  predicate Asleep(c: Config, s: State) {
    s.pc == Waiting && !Can(c, s, Work(false)) && !Can(c, s, Work(true))
  }

  // No new work, and the pipeline flag left alone. Everything else may happen.
  predicate NothingNew(steps: seq<Step>) {
    forall i | 0 <= i < |steps| :: !steps[i].Enqueue? && !steps[i].Want?
  }

  // Nothing to say, and a pipeline that is wanted and not there.
  predicate Idle(s: State) {
    && s.queue == [] && s.pipe.wanted && !s.pipe.present
    && (s.pc == Top || s.pc == Created || s.pc == Waiting)
  }

  // How many failures the counter is short of the limit.
  function Shortfall(c: Config, s: State): nat {
    if s.pipe.failures < c.maxFailures then c.maxFailures - s.pipe.failures else 0
  }

  // The moves the worker has left before it sleeps: three for each attempt.
  function MovesLeft(c: Config, s: State): nat {
    var n := Shortfall(c, s);
    if s.pc == Waiting then 3 * n else if s.pc == Created then 3 * n + 1 else if n > 0 then 3 * n - 1 else 1
  }

  function WorkMoves(steps: seq<Step>): nat {
    if steps == [] then 0 else (if steps[0].Work? then 1 else 0) + WorkMoves(steps[1..])
  }

  // An attempt that is made fails.
  predicate Hopeless(c: Config, s: State) {
    Shortfall(c, s) > 0 ==> Lost(c.world(s.pipe.attempts))
  }

  lemma IdleStep(c: Config, s: State, step: Step)
    requires Idle(s) && Hopeless(c, s) && Can(c, s, step) && !step.Enqueue? && !step.Want?
    ensures var s' := Do(c, s, step);
            && Idle(s')
            && s'.pipe.attempts + Shortfall(c, s') == s.pipe.attempts + Shortfall(c, s)
            && MovesLeft(c, s') + (if step.Work? then 1 else 0) == MovesLeft(c, s)
  {
    if step.Work? && s.pc == Top && Shortfall(c, s) > 0 {
      FailedAttempt(c, s, step.switch);
    }
  }

  lemma FailedAttempt(c: Config, s: State, switch: bool)
    requires Idle(s) && s.pc == Top && s.pipe.failures < c.maxFailures && Lost(c.world(s.pipe.attempts))
    ensures var s' := Do(c, s, Work(switch));
            && s'.pc == Created && s'.queue == [] && s'.pipe.wanted && !s'.pipe.present
            && s'.pipe.failures == s.pipe.failures + 1 && s'.pipe.attempts == s.pipe.attempts + 1
  {
  }

  /**
   With nothing to say and construction always failing, in every run without new work and
   with the pipeline flag left alone, whatever flushes, cancels, pauses and messages there
   are: the attempts made never exceed what the counter is short of the limit; the worker is
   asleep exactly when it has made its moves, and then all those attempts have been made.
   */
  lemma {:induction false} AttemptsBounded(c: Config, s: State, steps: seq<Step>)
    requires Idle(s) && (forall n: nat :: Lost(c.world(n)) || Shortfall(c, s) == 0)
    requires Runs(c, s, steps) && NothingNew(steps)
    ensures var f := Final(c, s, steps);
            && Idle(f)
            && f.pipe.attempts + Shortfall(c, f) == s.pipe.attempts + Shortfall(c, s)
            && WorkMoves(steps) <= MovesLeft(c, s)
            && (Asleep(c, f) <==> WorkMoves(steps) == MovesLeft(c, s))
            && (Asleep(c, f) ==> f.pipe.attempts == s.pipe.attempts + Shortfall(c, s))
    decreases |steps|
  {
    if steps != [] {
      assert !steps[0].Enqueue? && !steps[0].Want?;
      IdleStep(c, s, steps[0]);
      assert forall i | 0 <= i < |steps[1..]| :: steps[1..][i] == steps[i + 1];
      AttemptsBounded(c, Do(c, s, steps[0]), steps[1..]);
    }
  }

  /** The worker alone gets there: as long as it is not asleep it can move, and it sleeps after its moves. */
  lemma {:induction false} GivesUp(c: Config, s: State) returns (steps: seq<Step>)
    requires Idle(s) && forall n: nat :: Lost(c.world(n)) || Shortfall(c, s) == 0
    ensures Runs(c, s, steps) && NothingNew(steps) && Asleep(c, Final(c, s, steps))
    decreases MovesLeft(c, s)
  {
    steps := [];
    if MovesLeft(c, s) > 0 {
      assert Can(c, s, Work(false));
      IdleStep(c, s, Work(false));
      steps := GivesUp(c, Do(c, s, Work(false)));
      steps := [Work(false)] + steps;
    }
  }

  /**
   The limit is a number from the environment in eight bits. At the top of the loop, with
   nothing queued and a clear counter, no run without new work makes any attempt at all if
   and only if 256 divides that number, whatever an attempt would come to.
   */
  lemma NoAttemptExactly(c: Config, s: State, v: int)
    requires v > 0 && c.maxFailures == LimitOf(Some(v))
    requires Idle(s) && s.pc == Top && s.pipe.failures == 0
    ensures v % 256 == 0 <==>
      forall steps :: Runs(c, s, steps) && NothingNew(steps) ==> Final(c, s, steps).pipe.attempts == s.pipe.attempts
  {
    if v % 256 == 0 {
      forall steps | Runs(c, s, steps) && NothingNew(steps)
        ensures Final(c, s, steps).pipe.attempts == s.pipe.attempts
      {
        AttemptsBounded(c, s, steps);
      }
    } else {
      var one := [Work(false)];
      CreateOutcome(s.pipe, c.world);
      assert one[1..] == [] && Runs(c, s, one) && NothingNew(one);
      assert Final(c, s, one) == Do(c, s, Work(false));
    }
  }

  /** Otherwise the attempts that fail are as many as the number leaves when divided by 256, less the counter. */
  lemma AttemptsFromEnvironment(c: Config, s: State, env: Option<int>, steps: seq<Step>)
    requires c.maxFailures == LimitOf(env) && Idle(s) && forall n: nat :: Lost(c.world(n))
    requires Runs(c, s, steps) && NothingNew(steps) && Asleep(c, Final(c, s, steps))
    ensures var v := if env.Some? && env.value > 0 then env.value else 1;
      Final(c, s, steps).pipe.attempts - s.pipe.attempts
        == if s.pipe.failures < v % 256 then v % 256 - s.pipe.failures else 0
  {
    AttemptsBounded(c, s, steps);
  }
}
