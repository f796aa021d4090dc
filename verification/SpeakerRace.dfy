/**
 cancelSpeech (TTSSpeaker.cpp:546-556) takes no lock. When its test and its write are two
 steps, the write can land on the next utterance, which nobody cancelled.
 */
module SpeakerRace {

  import opened Wrappers
  import opened Pipeline
  import opened Speaker
  import opened SpeakerLife

  // The worker alone, n moves.
  function Moves(c: Config, s: State, n: nat): State
    requires CanMove(c, s, n)
    decreases n
  {
    if n == 0 then s else Moves(c, Do(c, s, Work(false)), n - 1)
  }

  predicate CanMove(c: Config, s: State, n: nat)
    decreases n
  {
    n == 0 || (Can(c, s, Work(false)) && CanMove(c, Do(c, s, Work(false)), n - 1))
  }

  lemma MoveFirst(c: Config, s: State, s': State, n: nat, last: State)
    requires Can(c, s, Work(false)) && s' == Do(c, s, Work(false)) && CanMove(c, s', n) && Moves(c, s', n) == last
    ensures CanMove(c, s, n + 1) && Moves(c, s, n + 1) == last
  {
  }

  lemma {:induction false} MovesRun(c: Config, start: State, steps: seq<Step>, n: nat) returns (more: seq<Step>)
    requires Runs(c, start, steps) && CanMove(c, Final(c, start, steps), n)
    ensures Runs(c, start, more) && Final(c, start, more) == Moves(c, Final(c, start, steps), n)
    decreases n
  {
    more := steps;
    if n > 0 {
      RunsSnoc(c, start, steps, Work(false));
      more := MovesRun(c, start, steps + [Work(false)], n - 1);
    }
  }

  ghost predicate Ready(s: State, id: Id) {
    && s.pc == Playing(id, false) && s.current == Some(id) && s.speaking && !s.flushed
    && s.pipe.present && s.pipe.wanted && Quiet(s.pipe)
  }

  // Two utterances are queued and the first is playing.
  lemma FirstPlays(c: Config, s: State) returns (steps: seq<Step>)
    requires Init(s) && c.maxFailures > 0 && c.world(0) == Built
    ensures Runs(c, s, steps)
    ensures var f := Final(c, s, steps); Ready(f, 1) && f.queue == [2] && f.armed == {} && f.log.named == {}
  {
    steps := [];
    RunsSnoc(c, s, steps, Want(true));
    steps := steps + [Want(true)];
    RunsSnoc(c, s, steps, Enqueue(1));
    steps := steps + [Enqueue(1)];
    RunsSnoc(c, s, steps, Enqueue(2));
    steps := steps + [Enqueue(2)];
    var m := Final(c, s, steps);
    assert m.queue == [1, 2];
    FiveMoves(c, m);
    steps := MovesRun(c, s, steps, 5);
  }

  lemma FiveMoves(c: Config, m: State)
    requires m.pc == Top && m.queue == [1, 2]
        && m.pipe == Pipe(false, true, false, false, false, false, false, 0, 0, 0, 0)
    requires !m.flushed && m.armed == {} && m.log.named == {} && c.maxFailures > 0 && c.world(0) == Built
    ensures CanMove(c, m, 5)
    ensures var f := Moves(c, m, 5); Ready(f, 1) && f.queue == [2] && f.armed == {} && f.log.named == {}
  {
    var m1 := Do(c, m, Work(false));
    assert m1.pc == Created && m1.pipe == Create(m.pipe, c.world);
    assert m1.pipe == Pipe(true, true, false, false, false, false, false, 0, 1, 1, 0);
    var m2 := Do(c, m1, Work(false));
    assert m2.pc == Waiting;
    var m3 := Do(c, m2, Work(false));
    assert m3.pc == Announcing(1) && m3.queue == [2];
    var m4 := Do(c, m3, Work(false));
    assert m4.pc == Starting(1, false);
    var m5 := Do(c, m4, Work(false));
    MoveFirst(c, m4, m5, 0, m5);
    MoveFirst(c, m3, m4, 1, m5);
    MoveFirst(c, m2, m3, 2, m5);
    MoveFirst(c, m1, m2, 3, m5);
    MoveFirst(c, m, m1, 4, m5);
  }

  // The first utterance finishes and the second is taken.
  lemma NextIsTaken(c: Config, m: State)
    requires Ready(m, 1) && m.queue == [2]
    ensures CanMove(c, m, 6)
    ensures var f := Moves(c, m, 6);
            && f.pc == Announcing(2) && f.armed == m.armed && f.log.named == m.log.named && f.pipe.present
            && f.pipe.wanted && Quiet(f.pipe) && !f.flushed
  {
    var m1 := Do(c, m, Work(false));
    assert m1.pc == Between(1);
    var m2 := Do(c, m1, Work(false));
    assert m2.pc == Reporting(1);
    var m3 := Do(c, m2, Work(false));
    assert m3.pc == Resetting;
    var m4 := Do(c, m3, Work(false));
    assert m4.pc == Top && m4.pipe.present && Quiet(m4.pipe);
    var m5 := Do(c, m4, Work(false));
    assert m5.pc == Waiting && m5.queue == [2];
    var m6 := Do(c, m5, Work(false));
    assert m6.pc == Announcing(2);
    MoveFirst(c, m5, m6, 0, m6);
    MoveFirst(c, m4, m5, 1, m6);
    MoveFirst(c, m3, m4, 2, m6);
    MoveFirst(c, m2, m3, 3, m6);
    MoveFirst(c, m1, m2, 4, m6);
    MoveFirst(c, m, m1, 5, m6);
  }

  lemma ThenInterrupted(c: Config, m: State)
    requires m.pc == Announcing(2) && m.flushed
    ensures CanMove(c, m, 4)
    ensures var f := Moves(c, m, 4);
            && f.log.named == m.log.named && f.log.early == m.log.early
            && f.log.trace != [] && f.log.trace[|f.log.trace| - 1] == Interrupted(2)
  {
    var m1 := Do(c, m, Work(false));
    assert m1.pc == Starting(2, false);
    var m2 := Do(c, m1, Work(false));
    assert m2.pc == Between(2);
    var m3 := Do(c, m2, Work(false));
    assert m3.pc == Reporting(2);
    var m4 := Do(c, m3, Work(false));
    assert m4.log.trace[|m3.log.trace|] == Interrupted(2);
    MoveFirst(c, m3, m4, 0, m4);
    MoveFirst(c, m2, m3, 1, m4);
    MoveFirst(c, m1, m2, 2, m4);
    MoveFirst(c, m, m1, 3, m4);
  }

  // Up to the late write: utterance 2 is taken and nobody has named it.
  lemma UpToTheWrite(c: Config, s: State) returns (steps: seq<Step>)
    requires Init(s) && c.maxFailures > 0 && c.world(0) == Built
    ensures Runs(c, s, steps)
    ensures var f := Final(c, s, steps); f.pc == Announcing(2) && 0 in f.armed && 2 !in f.log.named
  {
    steps := FirstPlays(c, s);
    RunsSnoc(c, s, steps, CancelTest(0, 1));
    steps := steps + [CancelTest(0, 1)];
    NextIsTaken(c, Final(c, s, steps));
    steps := MovesRun(c, s, steps, 6);
  }

  lemma FromTheWrite(c: Config, s: State, before: seq<Step>) returns (steps: seq<Step>)
    requires Runs(c, s, before)
    requires var b := Final(c, s, before); b.pc == Announcing(2) && 0 in b.armed && 2 !in b.log.named
    ensures Runs(c, s, steps)
    ensures var f := Final(c, s, steps);
            && f.log.trace != [] && f.log.trace[|f.log.trace| - 1] == Interrupted(2)
            && 2 in f.log.early && 2 !in f.log.named
  {
    RunsSnoc(c, s, before, CancelSet(0));
    steps := before + [CancelSet(0)];
    ThenInterrupted(c, Final(c, s, steps));
    steps := MovesRun(c, s, steps, 4);
  }

  /**
   There is a run in which cancelSpeech(1) decides while utterance 1 plays, writes after
   utterance 2 was taken, and utterance 2 is reported interrupted though no cancelSpeech
   ever decided to cancel it, and though nobody was told that it would be spoken.
   */
  lemma SplitCancelHitsTheNext(c: Config, s: State) returns (steps: seq<Step>)
    requires Init(s) && c.maxFailures > 0 && c.world(0) == Built
    ensures Runs(c, s, steps) && LandsEarly(c, s, steps, 2)
    ensures var f := Final(c, s, steps);
            && f.log.trace != [] && f.log.trace[|f.log.trace| - 1] == Interrupted(2)
            && 2 !in f.log.named && Announced(f.log.trace[..|f.log.trace| - 1], 2) == 0
  {
    steps := UpToTheWrite(c, s);
    steps := FromTheWrite(c, s, steps);
    EarlyExactly(c, s, steps, 2);
    AnnouncedExactlyOnce(c, s, steps, |Final(c, s, steps).log.trace| - 1);
  }
}
