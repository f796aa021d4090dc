/**
 The playback pipeline of the speaker: createPipeline, resetPipeline and destroyPipeline of
 TextToSpeech/impl/TTSSpeaker.cpp, which call each other. What the media framework answers
 to the n-th attempt to build a pipeline is a parameter.
 */
module Pipeline {

  // The media framework's answer to one attempt.
  datatype Answer =
    | NoElement  // no pipeline object
    | NoCaps     // raw audio only: the caps or their filter could not be made
    | NoLink     // the elements did not link
    | Built

  type World = nat -> Answer

  type Byte = b: nat | b < 256

  /**
   `present` is m_pipeline != NULL and `wanted` is m_ensurePipeline. `failures` is the
   eight-bit failure counter. The last three fields count, for ever, attempts to build,
   pipeline objects made, and pipeline objects unreferenced.
   */
  datatype Pipe = Pipe(
    present: bool, wanted: bool,
    error: bool, network: bool, remote: bool, paused: bool, eos: bool,
    failures: Byte, attempts: nat, created: nat, unreferenced: nat)

  predicate Lost(a: Answer) {
    a == NoElement || a == NoLink
  }

  function OneMore(failures: Byte): Byte {
    (failures + 1) % 256
  }

  function Create(p: Pipe, w: World): Pipe
    decreases if p.error then 1 else 0, if p.present then 0 else 1, 0
  {
    var p := p.(eos := false);
    if !p.wanted || p.present then p
    else
      var q := p.(attempts := p.attempts + 1);
      match w(p.attempts)
      case NoElement => q.(failures := OneMore(p.failures))
      case NoCaps => q.(present := true, created := p.created + 1)
      case NoLink => q.(created := p.created + 1, unreferenced := p.unreferenced + 1, failures := OneMore(p.failures))
      case Built => Reset(Started(p), w)
  }

  function Reset(p: Pipe, w: World): Pipe
    decreases if p.error then 1 else 0, if p.present then 0 else 1, 1
  {
    var q := Cleared(if p.error then Destroy(p) else p);
    if !q.present then Create(q, w) else q
  }

  function Cleared(p: Pipe): Pipe {
    p.(error := false, remote := false, network := false, paused := false, eos := false)
  }

  // The attempt succeeded: the new pipeline is in place.
  function Started(p: Pipe): Pipe {
    p.(eos := false, attempts := p.attempts + 1, present := true, created := p.created + 1, failures := 0)
  }

  function Destroy(p: Pipe): Pipe {
    var q := if p.present then p.(unreferenced := p.unreferenced + 1) else p;
    q.(present := false, failures := 0)
  }

  predicate Quiet(p: Pipe) {
    !p.error && !p.network && !p.remote && !p.paused && !p.eos
  }

  // Pipeline objects alive: one if m_pipeline is set, none otherwise.
  predicate Balanced(p: Pipe) {
    p.created == p.unreferenced + if p.present then 1 else 0
  }

  /**
   Reset: every flag is clear, nothing leaks, at most one attempt is made, and the pipeline
   is missing exactly when it had to be rebuilt and was not wanted or could not be built.
   */
  lemma {:induction false} ResetOutcome(p: Pipe, w: World)
    ensures var q := Reset(p, w);
            var rebuild := !p.present || p.error;
            && Quiet(q) && q.wanted == p.wanted
            && (Balanced(p) ==> Balanced(q))
            && q.attempts == p.attempts + (if rebuild && p.wanted then 1 else 0)
            && (!q.present <==> rebuild && (!p.wanted || Lost(w(p.attempts))))
  {
    var q := Cleared(if p.error then Destroy(p) else p);
    if !q.present {
      CreateWhenQuiet(q, w);
    }
  }

  lemma {:induction false} CreateWhenQuiet(p: Pipe, w: World)
    requires Quiet(p) && !p.present
    ensures var q := Create(p, w);
            && Quiet(q) && q.wanted == p.wanted
            && (Balanced(p) ==> Balanced(q))
            && q.attempts == p.attempts + (if p.wanted then 1 else 0)
            && (q.present <==> p.wanted && !Lost(w(p.attempts)))
            && q.failures == (if p.wanted && Lost(w(p.attempts)) then OneMore(p.failures)
                              else if p.wanted && w(p.attempts) == Built then 0 else p.failures)
  {
  }

  /**
   Create: skipped when not wanted or already there. Otherwise one attempt; only when that
   one is built under a pending error is the new pipeline thrown away for a second attempt.
   */
  lemma {:induction false} CreateOutcome(p: Pipe, w: World)
    ensures var q := Create(p, w);
            && q.wanted == p.wanted && !q.eos
            && (Balanced(p) ==> Balanced(q))
            && (!p.wanted || p.present ==> q == p.(eos := false))
            && (p.wanted && !p.present ==>
                  && q.attempts == p.attempts + (if w(p.attempts) == Built && p.error then 2 else 1)
                  && (q.present <==> !Lost(w(q.attempts - 1)))
                  && (w(p.attempts) == Built ==> Quiet(q)))
  {
    if !p.wanted || p.present {
      assert Create(p, w) == p.(eos := false);
    } else if w(p.attempts) == Built {
      assert Create(p, w) == Reset(Started(p), w);
      BuiltOutcome(p, w);
    } else {
      NotBuiltOutcome(p, w);
    }
  }

  lemma {:induction false} NotBuiltOutcome(p: Pipe, w: World)
    requires p.wanted && !p.present && w(p.attempts) != Built
    ensures var q := Create(p, w);
            && q.wanted && !q.eos
            && (Balanced(p) ==> Balanced(q))
            && q.attempts == p.attempts + 1
            && (q.present <==> !Lost(w(p.attempts)))
  {
  }

  lemma {:induction false} BuiltOutcome(p: Pipe, w: World)
    requires p.wanted && !p.present && w(p.attempts) == Built
    ensures var q := Reset(Started(p), w);
            && q.wanted && Quiet(q)
            && (Balanced(p) ==> Balanced(q))
            && q.attempts == p.attempts + (if p.error then 2 else 1)
            && (q.present <==> !Lost(w(q.attempts - 1)))
  {
    assert Started(p).wanted && Started(p).present && Started(p).error == p.error;
    ResetOutcome(Started(p), w);
  }

  lemma {:induction false} DestroyOutcome(p: Pipe)
    ensures Balanced(p) ==> Balanced(Destroy(p))
    ensures !Destroy(p).present && Destroy(p).failures == 0
  {
  }

  /** The same three as the source has them: methods that call one another over fields. */
  class SpeakerPipeline {
    var present: bool
    var wanted: bool
    var error: bool
    var network: bool
    var remote: bool
    var paused: bool
    var eos: bool
    var failures: Byte
    var attempts: nat
    var created: nat
    var unreferenced: nat
    const world: World

    constructor (world: World)
      ensures Now() == Pipe(false, false, false, false, false, false, false, 0, 0, 0, 0) && Balanced(Now())
      ensures this.world == world
    {
      present, wanted, error, network, remote, paused, eos := false, false, false, false, false, false, false;
      failures, attempts, created, unreferenced := 0, 0, 0, 0;
      this.world := world;
    }

    function Now(): Pipe
      reads this
    {
      Pipe(present, wanted, error, network, remote, paused, eos, failures, attempts, created, unreferenced)
    }

    method CreatePipeline()
      modifies this
      ensures Now() == Create(old(Now()), world)
      decreases if error then 1 else 0, if present then 0 else 1, 0
    {
      eos := false;
      if !wanted || present {
        return;
      }
      var built := Build();
      if built {
        ResetPipeline();
      }
    }

    // The attempt itself; true when the pipeline is in place.
    method Build() returns (built: bool)
      requires wanted && !present && !eos
      modifies this
      ensures built == (world(old(attempts)) == Built)
      ensures Now() == if built then Started(old(Now())) else Create(old(Now()), world)
      decreases 0, 0
    {
      var answer := world(attempts);
      attempts := attempts + 1;
      if answer == NoElement {
        failures := (failures + 1) % 256;
        return false;
      }
      present := true;
      created := created + 1;
      if answer == NoCaps {
        return false;
      }
      if answer == NoLink {
        unreferenced := unreferenced + 1;
        present := false;
        failures := (failures + 1) % 256;
        return false;
      }
      failures := 0;
      return true;
    }

    method ResetPipeline()
      modifies this
      ensures Now() == Reset(old(Now()), world)
      decreases if error then 1 else 0, if present then 0 else 1, 1
    {
      if error {
        DestroyPipeline();
      }
      error := false;
      remote := false;
      network := false;
      paused := false;
      eos := false;
      if !present {
        CreatePipeline();
      }
    }

    method DestroyPipeline()
      modifies this
      ensures Now() == Destroy(old(Now()))
      decreases 0, 0
    {
      if present {
        unreferenced := unreferenced + 1;
      }
      present := false;
      failures := 0;
    }
  }
}
