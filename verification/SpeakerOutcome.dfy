/**
 Which outcome an utterance is reported with (TTSSpeaker.cpp:1053-1069): by whether it was
 cancelled, and by the faults on the bus since its pipeline was last built anew.
 */
module SpeakerOutcome {

  import opened Wrappers
  import opened Pipeline
  import opened Speaker

  // In the worker's hands, with these error flags.
  predicate Underway(s: State, id: Id, error: bool, network: bool) {
    InHand(s.pc) == Some(id) && s.pipe.error == error && s.pipe.network == network
  }

  predicate Fails(step: Step) { step.Fault? }

  predicate FailsNetwork(step: Step) { step.Fault? && step.http && !step.localEndpoint }

  // A try that switches to another kind of pipeline, which can be built.
  predicate Renews(c: Config, s: State, step: Step) {
    && step.Work? && step.switch && s.pc.Starting? && !s.flushed
    && s.pipe.present && s.pipe.wanted && c.world(s.pipe.attempts) == Built
  }

  // Is there a fault (or was there one before, `error`) that no renewal has come after?
  predicate FaultSince(c: Config, s: State, steps: seq<Step>, error: bool)
    requires Runs(c, s, steps)
    decreases |steps|
  {
    if steps == [] then error
    else FaultSince(c, Do(c, s, steps[0]), steps[1..], !Renews(c, s, steps[0]) && (error || Fails(steps[0])))
  }

  predicate NetworkFaultSince(c: Config, s: State, steps: seq<Step>, network: bool)
    requires Runs(c, s, steps)
    decreases |steps|
  {
    if steps == [] then network
    else NetworkFaultSince(c, Do(c, s, steps[0]), steps[1..],
                           !Renews(c, s, steps[0]) && (network || FailsNetwork(steps[0])))
  }

  // The outcome, by what happened.
  function Outcome(id: Id, cancelled: bool, error: bool, network: bool): Event {
    if cancelled then Interrupted(id)
    else if network then NetworkError(id)
    else if error then PlaybackError(id)
    else Spoke(id)
  }

  // The flags after a switch of pipelines.
  lemma SwitchedFlags(p: Pipe, w: World)
    requires p.present
    ensures var q := Create(Destroy(p), w);
      if p.wanted && w(p.attempts) == Built
      then !q.error && !q.network
      else q.error == p.error && q.network == p.network
  {
    CreateOutcome(Destroy(p), w);
  }

  lemma UnderwayStep(c: Config, s: State, step: Step, id: Id, error: bool, network: bool)
    requires Underway(s, id, error, network) && Can(c, s, step)
    ensures var s' := Do(c, s, step);
      if s.pc.Reporting? && step.Work? then
        InHand(s'.pc) == None && s'.log.trace == s.log.trace + [Verdict(s, id)]
      else
        Underway(s', id, !Renews(c, s, step) && (error || Fails(step)),
                 !Renews(c, s, step) && (network || FailsNetwork(step)))
  {
    if step.Work? && s.pc.Starting? && !s.flushed && s.pipe.present {
      SwitchedFlags(s.pipe.(eos := false), c.world);
    }
  }

  // A run from the second state on, with the first step in front of it.
  lemma OneLonger(c: Config, s: State, steps: seq<Step>, j: nat, error: bool, network: bool)
    requires |steps| > 0 && Can(c, s, steps[0]) && j < |steps| && Runs(c, Do(c, s, steps[0]), steps[1..][..j])
    ensures Runs(c, s, steps[..j + 1])
    ensures var s', rest, renews := Do(c, s, steps[0]), steps[1..][..j], Renews(c, s, steps[0]);
      && Final(c, s, steps[..j + 1]) == Final(c, s', rest)
      && FaultSince(c, s, steps[..j + 1], error) == FaultSince(c, s', rest, !renews && (error || Fails(steps[0])))
      && NetworkFaultSince(c, s, steps[..j + 1], network)
         == NetworkFaultSince(c, s', rest, !renews && (network || FailsNetwork(steps[0])))
  {
    assert steps[..j + 1][0] == steps[0] && steps[..j + 1][1..] == steps[1..][..j];
  }

  /**
   Whatever else goes on, second try with the local endpoint included: an utterance in the
   worker's hands ends with the report that follows from what happened to it. Not cancelled,
   it is a network error if a fault of the network came after the last renewal of the
   pipeline, a playback error if only other faults did or the pipeline is gone, and spoke
   exactly if neither.
   */
  lemma {:induction false} OutcomeFollowsFaults(c: Config, s: State, steps: seq<Step>, id: Id, error: bool,
      network: bool)
    returns (k: nat)
    requires Underway(s, id, error, network) && Runs(c, s, steps)
    requires InHand(Final(c, s, steps).pc) != Some(id)
    ensures k < |steps| && Runs(c, s, steps[..k]) && Runs(c, s, steps[..k + 1])
    ensures var b, a := Final(c, s, steps[..k]), Final(c, s, steps[..k + 1]);
      && b.pc == Reporting(id) && InHand(a.pc) == None
      && a.log.trace == b.log.trace
           + [Outcome(id, b.flushed, !b.pipe.present || FaultSince(c, s, steps[..k], error),
                      NetworkFaultSince(c, s, steps[..k], network))]
    decreases |steps|
  {
    var step, s' := steps[0], Do(c, s, steps[0]);
    UnderwayStep(c, s, step, id, error, network);
    if s.pc.Reporting? && step.Work? {
      k := 0;
      assert steps[..0] == [] && steps[..1] == [step] && [step][1..] == [];
      assert Verdict(s, id) == Outcome(id, s.flushed, !s.pipe.present || error, network);
    } else {
      var renews := Renews(c, s, step);
      var j := OutcomeFollowsFaults(c, s', steps[1..], id, !renews && (error || Fails(step)),
                                    !renews && (network || FailsNetwork(step)));
      k := j + 1;
      OneLonger(c, s, steps, j, error, network);
      OneLonger(c, s, steps, j + 1, error, network);
    }
  }

  // A renewal is among the steps.
  predicate Renewed(c: Config, s: State, steps: seq<Step>)
    requires Runs(c, s, steps)
    decreases |steps|
  {
    steps != [] && (Renews(c, s, steps[0]) || Renewed(c, Do(c, s, steps[0]), steps[1..]))
  }

  // Step i is a fault, and no renewal comes after it.
  predicate Lasts(c: Config, s: State, steps: seq<Step>, i: nat)
    requires Runs(c, s, steps)
  {
    && i < |steps| && Fails(steps[i])
    && Runs(c, s, steps[..i + 1]) && Runs(c, Final(c, s, steps[..i + 1]), steps[i + 1..])
    && !Renewed(c, Final(c, s, steps[..i + 1]), steps[i + 1..])
  }

  lemma LastsBehind(c: Config, s: State, steps: seq<Step>, i: nat)
    requires steps != [] && Runs(c, s, steps) && 0 < i < |steps|
    ensures Lasts(c, s, steps, i) <==> Lasts(c, Do(c, s, steps[0]), steps[1..], i - 1)
  {
    assert steps[..i + 1][0] == steps[0] && steps[..i + 1][1..] == steps[1..][..i];
    assert steps[1..][i..] == steps[i + 1..] && steps[1..][i - 1] == steps[i];
  }

  lemma LastsAtOnce(c: Config, s: State, steps: seq<Step>)
    requires steps != [] && Runs(c, s, steps)
    ensures Lasts(c, s, steps, 0) <==> Fails(steps[0]) && !Renewed(c, Do(c, s, steps[0]), steps[1..])
  {
    var one, s' := steps[..0 + 1], Do(c, s, steps[0]);
    assert one == [steps[0]] && one[1..] == [];
    assert Runs(c, s', one[1..]) && Final(c, s', one[1..]) == s';
    assert Runs(c, s, one) && Final(c, s, one) == s';
    assert steps[0 + 1..] == steps[1..];
  }

  /**
   The fold over the steps means what it says: one of them is a fault with no renewal after it, or
   the old one lasts.
   */
  lemma {:induction false} FaultSinceMeans(c: Config, s: State, steps: seq<Step>, error: bool)
    requires Runs(c, s, steps)
    ensures FaultSince(c, s, steps, error) <==>
      (error && !Renewed(c, s, steps)) || exists i: nat :: Lasts(c, s, steps, i)
    decreases |steps|
  {
    if steps != [] {
      var s', rest := Do(c, s, steps[0]), steps[1..];
      FaultSinceMeans(c, s', rest, !Renews(c, s, steps[0]) && (error || Fails(steps[0])));
      LastsAtOnce(c, s, steps);
      if i: nat :| Lasts(c, s', rest, i) {
        LastsBehind(c, s, steps, i + 1);
      } else {
        forall i: nat | Lasts(c, s, steps, i) ensures i == 0 {
          if i > 0 {
            LastsBehind(c, s, steps, i);
          }
        }
      }
    }
  }
}
