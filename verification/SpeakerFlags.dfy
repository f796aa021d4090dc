/**
 The flags that the bus thread raises for the worker, told from the steps of a run, and what
 the worker does by them: the second try, the report, and the choice of whom a cancel hits.
 */
module SpeakerFlags {

  import opened Wrappers
  import opened Pipeline
  import opened Speaker
  import opened SpeakerOutcome
  import opened SpeakerPauses

  // Any error, one of the network, one of the remote endpoint while there is a local one, the end of the stream;
  // and that the utterance was cancelled.
  datatype Flag = AnyError | Network | Remote | Eos | Cancelled

  predicate Marked(p: Pipe, flag: Flag) {
    match flag
    case AnyError => p.error
    case Network => p.network
    case Remote => p.remote
    case Eos => p.eos
    case Cancelled => false
  }

  predicate IsUp(s: State, flag: Flag) {
    if flag == Cancelled then s.flushed else Marked(s.pipe, flag)
  }

  predicate Raises(s: State, step: Step, flag: Flag) {
    match flag
    case AnyError => step.Fault?
    case Network => step.Fault? && step.http && !step.localEndpoint
    case Remote => step.Fault? && step.http && step.localEndpoint
    case Eos => step.EndOfStream?
    case Cancelled => step.CancelSet? || (step.Cancel? && s.pc.Playing? && (step.target == s.pc.id || step.target == 0))
  }

  // The worker takes an utterance from the queue, or reports on the one in hand.
  predicate TurnsOver(c: Config, s: State, step: Step) {
    step.Work? &&
      (|| (s.pc == Created && !s.pipe.present && s.queue != [])
       || (s.pc == Waiting && !NeedsUpdate(c, s))
       || s.pc.Reporting?)
  }

  // A new try or attempt, or the end of one.
  predicate BeginsOrEnds(c: Config, s: State, step: Step) {
    step.Work? &&
      (|| (s.pc.Starting? && !s.flushed)
       || s.pc.Playing?
       || s.pc == Resetting
       || (s.pc == Top && NeedsUpdate(c, s) && s.pipe.wanted))
  }

  predicate Lowers(c: Config, s: State, step: Step, flag: Flag) {
    if flag == Cancelled then TurnsOver(c, s, step)
    else if flag == Eos then BeginsOrEnds(c, s, step)
    else ResetsPipeline(c, s, step)
  }

  predicate LoweredAt(c: Config, s: State, steps: seq<Step>, flag: Flag, j: nat)
    requires Runs(c, s, steps) && j < |steps|
  {
    Lowers(c, At(c, s, steps, j), steps[j], flag)
  }

  predicate LoweredBetween(c: Config, s: State, steps: seq<Step>, flag: Flag, i: nat, n: nat)
    requires Runs(c, s, steps) && n <= |steps|
  {
    exists j: nat :: i < j < n && LoweredAt(c, s, steps, flag, j)
  }

  predicate RaisedIn(c: Config, s: State, steps: seq<Step>, flag: Flag, i: nat, n: nat)
    requires Runs(c, s, steps) && n <= |steps|
  {
    i < n && Raises(At(c, s, steps, i), steps[i], flag) && !LoweredBetween(c, s, steps, flag, i, n)
  }

  // It was raised before step n and not lowered since.
  ghost predicate Raised(c: Config, s: State, steps: seq<Step>, flag: Flag, n: nat)
    requires Runs(c, s, steps) && n <= |steps|
  {
    exists i: nat :: RaisedIn(c, s, steps, flag, i, n)
  }

  lemma RaisedInOneMore(c: Config, s: State, steps: seq<Step>, flag: Flag, i: nat, n: nat)
    requires Runs(c, s, steps) && n < |steps|
    ensures RaisedIn(c, s, steps, flag, i, n + 1) <==>
      (i == n && Raises(At(c, s, steps, n), steps[n], flag))
          || (RaisedIn(c, s, steps, flag, i, n) && !LoweredAt(c, s, steps, flag, n))
  {
    if LoweredBetween(c, s, steps, flag, i, n) {
      var j: nat :| i < j < n && LoweredAt(c, s, steps, flag, j);
      assert LoweredBetween(c, s, steps, flag, i, n + 1);
    }
  }

  lemma RaisedOneMore(c: Config, s: State, steps: seq<Step>, flag: Flag, n: nat)
    requires Runs(c, s, steps) && n < |steps|
    ensures Raised(c, s, steps, flag, n + 1) <==>
      Raises(At(c, s, steps, n), steps[n], flag)
          || (Raised(c, s, steps, flag, n) && !LoweredAt(c, s, steps, flag, n))
  {
    var m := n + 1;
    if Raises(At(c, s, steps, n), steps[n], flag) {
      RaisedInOneMore(c, s, steps, flag, n, n);
    } else if Raised(c, s, steps, flag, n) && !LoweredAt(c, s, steps, flag, n) {
      var i: nat :| RaisedIn(c, s, steps, flag, i, n);
      RaisedInOneMore(c, s, steps, flag, i, n);
    } else {
      if i: nat :| RaisedIn(c, s, steps, flag, i, m) {
        RaisedInOneMore(c, s, steps, flag, i, n);
      }
    }
  }

  // ---------------------------------------------------------------------------------
  // One step
  // ---------------------------------------------------------------------------------

  lemma CreateFlags(p: Pipe, w: World, flag: Flag)
    ensures Marked(Create(p, w), flag) <==>
      Marked(p, flag) && flag != Eos && !(p.wanted && !p.present && w(p.attempts) == Built)
  {
    CreateOutcome(p, w);
  }

  lemma TopFlags(c: Config, s: State, switch: bool, flag: Flag)
    requires Can(c, s, Work(switch)) && s.pc == Top
    ensures var step := Work(switch);
      IsUp(Do(c, s, step), flag) <==> IsUp(s, flag) && !Lowers(c, s, step, flag)
  {
    CreateFlags(s.pipe, c.world, flag);
  }

  lemma StartingFlags(c: Config, s: State, switch: bool, flag: Flag)
    requires Can(c, s, Work(switch)) && s.pc.Starting?
    ensures var step := Work(switch);
      IsUp(Do(c, s, step), flag) <==> IsUp(s, flag) && !Lowers(c, s, step, flag)
  {
    CreateFlags(Destroy(s.pipe.(eos := false)), c.world, flag);
  }

  lemma CallFlags(c: Config, s: State, step: Step, flag: Flag)
    requires PlaysCurrent(s) && Can(c, s, step) && !step.Work?
    ensures !Lowers(c, s, step, flag)
    ensures IsUp(Do(c, s, step), flag) <==> Raises(s, step, flag) || IsUp(s, flag)
  {
  }

  lemma OtherWorkFlags(c: Config, s: State, switch: bool, flag: Flag)
    requires Can(c, s, Work(switch)) && s.pc != Top && !s.pc.Starting?
    ensures var step := Work(switch);
      IsUp(Do(c, s, step), flag) <==> IsUp(s, flag) && !Lowers(c, s, step, flag)
  {
    if s.pc == Resetting {
      ResetOutcome(s.pipe, c.world);
    }
  }

  lemma FlagStep(c: Config, s: State, step: Step, flag: Flag)
    requires PlaysCurrent(s) && Can(c, s, step)
    ensures IsUp(Do(c, s, step), flag) <==>
      Raises(s, step, flag) || (IsUp(s, flag) && !Lowers(c, s, step, flag))
  {
    if !step.Work? {
      CallFlags(c, s, step, flag);
    } else if s.pc == Top {
      TopFlags(c, s, step.switch, flag);
    } else if s.pc.Starting? {
      StartingFlags(c, s, step.switch, flag);
    } else {
      OtherWorkFlags(c, s, step.switch, flag);
    }
  }

  // ---------------------------------------------------------------------------------
  // Runs
  // ---------------------------------------------------------------------------------

  /**
   In every run a flag is up if and only if it was raised and not lowered since: the errors until the
   pipeline is reset, a cancellation until the worker reports.
   */
  lemma {:induction false} FlagExactly(c: Config, s: State, steps: seq<Step>, flag: Flag, n: nat)
    requires Init(s) && Runs(c, s, steps) && n <= |steps|
    ensures IsUp(At(c, s, steps, n), flag) <==> Raised(c, s, steps, flag, n)
  {
    if n > 0 {
      FlagExactly(c, s, steps, flag, n - 1);
      RunAgrees(c, s, steps, n - 1);
      FlagOneMore(c, s, steps, flag, n - 1);
      RaisedOneMore(c, s, steps, flag, n - 1);
    }
  }

  lemma FlagOneMore(c: Config, s: State, steps: seq<Step>, flag: Flag, n: nat)
    requires Runs(c, s, steps) && n < |steps| && PlaysCurrent(At(c, s, steps, n))
    ensures IsUp(At(c, s, steps, n + 1), flag) <==>
      Raises(At(c, s, steps, n), steps[n], flag)
          || (IsUp(At(c, s, steps, n), flag) && !LoweredAt(c, s, steps, flag, n))
  {
    AtStep(c, s, steps, n);
    FlagStep(c, At(c, s, steps, n), steps[n], flag);
  }

  /**
   In every run a try plays if and only if the utterance is not cancelled and there is a pipeline
   before it; a second try, with the local endpoint, follows the first one if and only if the
   remote one failed since the last reset of the pipeline and the utterance is not cancelled.
   */
  lemma TriesExactly(c: Config, s: State, steps: seq<Step>, n: nat)
    requires Init(s) && Runs(c, s, steps) && n < |steps| && steps[n].Work?
    ensures var b, a := At(c, s, steps, n), At(c, s, steps, n + 1);
      && (b.pc.Starting? ==>
          (a.pc == Playing(b.pc.id, b.pc.again) <==> !Raised(c, s, steps, Cancelled, n) && b.pipe.present))
      && (b.pc.Between? ==>
          a.pc == if !Raised(c, s, steps, Cancelled, n) && Raised(c, s, steps, Remote, n)
            then Starting(b.pc.id, true) else Reporting(b.pc.id))
  {
    FlagExactly(c, s, steps, Cancelled, n);
    FlagExactly(c, s, steps, Remote, n);
    AtStep(c, s, steps, n);
  }

  /** And the report says what happened: cancelled since it was taken, or failed since the last reset. */
  lemma ReportExactly(c: Config, s: State, steps: seq<Step>, n: nat)
    requires Init(s) && Runs(c, s, steps) && n < |steps|
    requires At(c, s, steps, n).pc.Reporting? && steps[n].Work?
    ensures var b := At(c, s, steps, n);
      At(c, s, steps, n + 1).log.trace == b.log.trace
        + [if Raised(c, s, steps, Cancelled, n) then Interrupted(b.pc.id)
           else if Raised(c, s, steps, Network, n) then NetworkError(b.pc.id)
           else if !b.pipe.present || Raised(c, s, steps, AnyError, n) then PlaybackError(b.pc.id)
           else Spoke(b.pc.id)]
  {
    FlagExactly(c, s, steps, Cancelled, n);
    FlagExactly(c, s, steps, Network, n);
    FlagExactly(c, s, steps, AnyError, n);
    AtStep(c, s, steps, n);
  }

  /** In every run a cancel hits if and only if an utterance is playing that it names, or it names all. */
  lemma CancelHits(c: Config, s: State, steps: seq<Step>, n: nat, target: Id)
    requires Init(s) && Runs(c, s, steps) && n <= |steps|
    ensures var b := At(c, s, steps, n);
      Cancels(b, target) <==> b.pc.Playing? && (target == b.pc.id || target == 0)
  {
    RunAgrees(c, s, steps, n);
  }

  /** The worker rests if and only if nothing is queued and the pipeline is as wanted, or has failed too often. */
  lemma RestsExactly(c: Config, s: State, switch: bool)
    ensures !Can(c, s, Work(switch)) <==>
      s.pc == Waiting && s.queue == [] && (s.pipe.wanted == s.pipe.present || s.pipe.failures >= c.maxFailures)
  {
  }
}
