/**
 The life of an utterance, over every run of the speaker.
 */
module SpeakerLife {

  import opened Wrappers
  import opened Pipeline
  import opened Speaker

  predicate Ends(e: Event) {
    e.Spoke? || e.Interrupted? || e.NetworkError? || e.PlaybackError?
  }

  // The ids of the terminal events, in order.
  function Ended(trace: seq<Event>): seq<Id> {
    if trace == [] then []
    else Ended(trace[..|trace| - 1]) + if Ends(trace[|trace| - 1]) then [trace[|trace| - 1].id] else []
  }

  // The ids of a list that are not in a set, in order.
  function Keep(ids: seq<Id>, out: set<Id>): seq<Id> {
    if ids == [] then []
    else Keep(ids[..|ids| - 1], out) + if ids[|ids| - 1] in out then [] else [ids[|ids| - 1]]
  }

  ghost predicate Distinct(ids: seq<Id>) {
    forall i, j | 0 <= i < j < |ids| :: ids[i] != ids[j]
  }

  function Hand(pc: Pc): seq<Id> {
    if InHand(pc).Some? then [InHand(pc).value] else []
  }

  lemma EndedSnoc(trace: seq<Event>, e: Event)
    ensures Ended(trace + [e]) == Ended(trace) + if Ends(e) then [e.id] else []
  {
    assert (trace + [e])[..|trace|] == trace;
  }

  lemma KeepSnoc(ids: seq<Id>, out: set<Id>, id: Id)
    ensures Keep(ids + [id], out) == Keep(ids, out) + if id in out then [] else [id]
  {
    assert (ids + [id])[..|ids|] == ids;
  }

  lemma {:induction false} KeepMembers(ids: seq<Id>, out: set<Id>, id: Id)
    ensures id in Keep(ids, out) <==> id in ids && id !in out
  {
    if ids != [] {
      KeepMembers(ids[..|ids| - 1], out, id);
      assert ids == ids[..|ids| - 1] + [ids[|ids| - 1]];
    }
  }

  lemma {:induction false} KeepDistinct(ids: seq<Id>, out: set<Id>)
    requires Distinct(ids)
    ensures Distinct(Keep(ids, out))
  {
    if ids != [] {
      var n := |ids| - 1;
      KeepDistinct(ids[..n], out);
      KeepMembers(ids[..n], out, ids[n]);
      assert ids[n] !in ids[..n];
    }
  }

  lemma {:induction false} KeepTwice(ids: seq<Id>, a: set<Id>, b: set<Id>)
    ensures Keep(Keep(ids, a), b) == Keep(ids, a + b)
  {
    if ids != [] {
      var n := |ids| - 1;
      KeepTwice(ids[..n], a, b);
      KeepSnoc(Keep(ids[..n], a), b, ids[n]);
      assert Keep(ids[..n], a) + [] == Keep(ids[..n], a);
    }
  }

  lemma {:induction false} KeepPrefix(x: seq<Id>, q: seq<Id>, out: set<Id>)
    requires (forall i | 0 <= i < |x| :: x[i] !in out) && (forall i | 0 <= i < |q| :: q[i] in out)
    ensures Keep(x + q, out) == x
  {
    if q != [] {
      var n := |q| - 1;
      KeepPrefix(x, q[..n], out);
      KeepSnoc(x + q[..n], out, q[n]);
      assert (x + q[..n]) + [q[n]] == x + q;
    } else if x != [] {
      var n := |x| - 1;
      assert x + q == x && x[..n] + [] == x[..n] && x == x[..n] + [x[n]];
      KeepPrefix(x[..n], [], out);
      KeepSnoc(x[..n], out, x[n]);
    } else {
      assert x + q == [];
    }
  }

  /** Dropping what is queued leaves exactly what came before it. */
  lemma KeepAfterFlush(arrived: seq<Id>, dropped: set<Id>, x: seq<Id>, q: seq<Id>)
    requires Distinct(arrived) && Keep(arrived, dropped) == x + q
    ensures Keep(arrived, dropped + (set id | id in q)) == x
  {
    var out := set id | id in q;
    KeepDistinct(arrived, dropped);
    forall i | 0 <= i < |x| ensures x[i] !in out {
      DistinctParts(x, q, x[i]);
    }
    KeepPrefix(x, q, out);
    KeepTwice(arrived, dropped, out);
  }

  // ---------------------------------------------------------------------------------
  // Every utterance is in one place, and they end in the order they came
  // ---------------------------------------------------------------------------------

  // What a step does to the utterances.
  datatype Effect =
    | Nothing
    | Arrives(id: Id)
    | Drops
    | Takes            // head of the queue into the worker's hands
    | Finishes(e: Event) // out of the worker's hands, with a terminal event
    | Fails            // head of the queue straight to a playback error

  function EffectOf(c: Config, s: State, step: Step): Effect
    requires Can(c, s, step)
  {
    match step
    case Enqueue(id) => Arrives(id)
    case Flush => Drops
    case Work(_) =>
      if s.pc == Created && !s.pipe.present && s.queue != [] then Fails
      else if s.pc == Waiting && !NeedsUpdate(c, s) then Takes
      else if s.pc.Reporting? then Finishes(Verdict(s, s.pc.id))
      else Nothing
    case _ => Nothing
  }

  // A move from one state to the next has the given effect on the utterances.
  ghost predicate Has(s: State, s': State, effect: Effect) {
    var l, l' := s.log, s'.log;
    match effect
    case Nothing =>
      s'.queue == s.queue && Hand(s'.pc) == Hand(s.pc) && l'.arrived == l.arrived && l'.dropped == l.dropped
      && (l'.trace == l.trace
          || (|l'.trace| == |l.trace| + 1 && l'.trace == l.trace + [l'.trace[|l.trace|]] && !Ends(l'.trace[|l.trace|])))
    case Arrives(id) =>
      id !in l.arrived && s'.queue == s.queue + [id] && Hand(s'.pc) == Hand(s.pc)
      && l'.arrived == l.arrived + [id] && l'.dropped == l.dropped && l'.trace == l.trace
    case Drops =>
      s'.queue == [] && Hand(s'.pc) == Hand(s.pc) && l'.arrived == l.arrived
      && l'.dropped == l.dropped + (set id | id in s.queue) && l'.trace == l.trace
    case Takes =>
      s.queue != [] && s'.queue == s.queue[1..] && Hand(s.pc) == [] && Hand(s'.pc) == [s.queue[0]]
      && l'.arrived == l.arrived && l'.dropped == l.dropped && l'.trace == l.trace
    case Finishes(e) =>
      Ends(e) && s'.queue == s.queue && Hand(s.pc) == [e.id] && Hand(s'.pc) == []
      && l'.arrived == l.arrived && l'.dropped == l.dropped && l'.trace == l.trace + [e]
    case Fails =>
      s.queue != [] && s'.queue == s.queue[1..] && Hand(s.pc) == [] == Hand(s'.pc)
      && l'.arrived == l.arrived && l'.dropped == l.dropped && l'.trace == l.trace + [PlaybackError(s.queue[0])]
  }

  lemma StepHas(c: Config, s: State, step: Step)
    requires Can(c, s, step)
    ensures Has(s, Do(c, s, step), EffectOf(c, s, step))
  {
    match step
    case Work(switch) => WorkHas(c, s, switch);
    case _ =>
  }

  lemma WorkHas(c: Config, s: State, switch: bool)
    requires Can(c, s, Work(switch))
    ensures Has(s, DoWork(c, s, switch), EffectOf(c, s, Work(switch)))
  {
    if s.pc == Top || s.pc == Created || s.pc == Waiting {
      FreeHas(c, s, switch);
    } else {
      BusyHas(c, s, switch);
    }
  }

  lemma FreeHas(c: Config, s: State, switch: bool)
    requires Can(c, s, Work(switch)) && (s.pc == Top || s.pc == Created || s.pc == Waiting)
    ensures Has(s, DoWork(c, s, switch), EffectOf(c, s, Work(switch)))
  {
  }

  lemma BusyHas(c: Config, s: State, switch: bool)
    requires Can(c, s, Work(switch)) && s.pc != Top && s.pc != Created && s.pc != Waiting
    ensures Has(s, DoWork(c, s, switch), EffectOf(c, s, Work(switch)))
  {
  }

  ghost predicate LifeInv(s: State) {
    && Distinct(s.log.arrived)
    && (forall id <- s.log.dropped :: id in s.log.arrived)
    && Keep(s.log.arrived, s.log.dropped) == Line(s)
  }

  // All utterances not flushed away: ended, in hand, queued.
  function Line(s: State): seq<Id> {
    Ended(s.log.trace) + Hand(s.pc) + s.queue
  }

  // How a step changes the line: one more at its end, or its queued part gone, or nothing.
  lemma LineMoves(s: State, s': State, effect: Effect)
    requires Has(s, s', effect)
    ensures effect.Arrives? ==> Line(s') == Line(s) + [effect.id]
    ensures effect.Drops? ==> Line(s) == Line(s') + s.queue
    ensures !effect.Arrives? && !effect.Drops? ==> Line(s') == Line(s)
    ensures |Ended(s'.log.trace)| + |Hand(s'.pc)|
            == |Ended(s.log.trace)| + |Hand(s.pc)| + if effect.Takes? || effect.Fails? then 1 else 0
  {
    var x, h, q := Ended(s.log.trace), Hand(s.pc), s.queue;
    var t, t' := s.log.trace, s'.log.trace;
    if t' != t {
      assert t' == t + [t'[|t|]];
      EndedSnoc(t, t'[|t|]);
    }
    match effect
    case Nothing =>
    case Arrives(id) => assert x + h + (q + [id]) == (x + h + q) + [id];
    case Drops => assert x + h + q == (x + h + []) + q;
    case Takes => HeadMoves(x, q);
    case Finishes(e) => assert (x + h) + [] + q == x + h + q;
    case Fails => HeadMoves(x, q);
  }

  lemma HeadMoves(x: seq<Id>, q: seq<Id>)
    requires q != []
    ensures x + [] + q == x + [q[0]] + q[1..] == (x + [q[0]]) + [] + q[1..]
  {
  }

  lemma LifeKept(s: State, s': State, effect: Effect)
    requires LifeInv(s) && Has(s, s', effect)
    ensures LifeInv(s')
  {
    LineMoves(s, s', effect);
    if effect.Arrives? {
      KeepSnoc(s.log.arrived, s.log.dropped, effect.id);
    } else if effect.Drops? {
      KeepAfterFlush(s.log.arrived, s.log.dropped, Line(s'), s.queue);
      QueuedHaveArrived(s);
    }
  }

  lemma QueuedHaveArrived(s: State)
    requires LifeInv(s)
    ensures forall id | id in s.queue :: id in s.log.arrived
  {
    forall id | id in s.queue ensures id in s.log.arrived {
      KeepMembers(s.log.arrived, s.log.dropped, id);
    }
  }

  lemma {:induction false} LifeAlways(c: Config, s: State, steps: seq<Step>)
    requires LifeInv(s) && Runs(c, s, steps)
    ensures LifeInv(Final(c, s, steps))
    decreases |steps|
  {
    if steps != [] {
      StepHas(c, s, steps[0]);
      LifeKept(s, Do(c, s, steps[0]), EffectOf(c, s, steps[0]));
      LifeAlways(c, Do(c, s, steps[0]), steps[1..]);
    }
  }

  /**
   In every run, at all times: what was queued and not flushed away is, in the order in
   which it came, first the utterances that ended, then the one in the worker's hands, then
   the queue. So each is in exactly one place and ends at most once.
   */
  lemma OnePlaceAndInOrder(c: Config, s: State, steps: seq<Step>, id: Id)
    requires Init(s) && Runs(c, s, steps)
    ensures var f := Final(c, s, steps);
            var ended := Ended(f.log.trace);
            && Keep(f.log.arrived, f.log.dropped) == ended + Hand(f.pc) + f.queue
            && (id in f.log.arrived <==> id in f.log.dropped || id in ended || id in Hand(f.pc) || id in f.queue)
            && !(id in f.log.dropped && (id in ended || id in Hand(f.pc) || id in f.queue))
            && !(id in ended && (id in Hand(f.pc) || id in f.queue))
            && !(id in Hand(f.pc) && id in f.queue)
            && Distinct(ended) && Distinct(f.queue)
  {
    LifeAlways(c, s, steps);
    var f := Final(c, s, steps);
    KeepMembers(f.log.arrived, f.log.dropped, id);
    KeepDistinct(f.log.arrived, f.log.dropped);
    DistinctParts(Ended(f.log.trace) + Hand(f.pc), f.queue, id);
    DistinctParts(Ended(f.log.trace), Hand(f.pc), id);
  }

  lemma DistinctParts(a: seq<Id>, b: seq<Id>, id: Id)
    requires Distinct(a + b)
    ensures Distinct(a) && Distinct(b) && !(id in a && id in b)
    ensures id in a + b <==> id in a || id in b
  {
    assert forall i | 0 <= i < |a| :: (a + b)[i] == a[i];
    assert forall i | 0 <= i < |b| :: (a + b)[|a| + i] == b[i];
  }

  // ---------------------------------------------------------------------------------
  // Interrupted exactly when cancelled
  // ---------------------------------------------------------------------------------

  ghost predicate CurrentInv(s: State) {
    && s.current == (if s.pc.Playing? then Some(s.pc.id) else None)
    && (s.speaking <==> InHand(s.pc).Some?)
  }

  // The flag and its history, in any run.
  ghost predicate LandInv(s: State) {
    && CurrentInv(s)
    && (InHand(s.pc).Some? ==> (s.flushed <==> InHand(s.pc).value in s.log.landed))
    && (forall id <- s.log.landed :: id in Ended(s.log.trace) || id in Hand(s.pc))
    && (forall id :: Interrupted(id) in s.log.trace <==> id in s.log.landed && id in Ended(s.log.trace))
  }

  // How a step moves the flag, seen together with its effect on the utterances.
  ghost predicate Flags(s: State, s': State, effect: Effect) {
    var l, l' := s.log, s'.log;
    match effect
    case Takes => !s'.flushed && l'.landed == l.landed
    case Finishes(e) => !s'.flushed && l'.landed == l.landed && (e.Interrupted? <==> s.flushed)
    case Fails => l'.landed == l.landed
    case _ =>
      && (|| (s'.flushed == s.flushed && l'.landed == l.landed)
          || (s'.flushed && l'.landed == l.landed + HandSet(s.pc)))
  }

  lemma StepFlags(c: Config, s: State, step: Step)
    requires Can(c, s, step)
    ensures Flags(s, Do(c, s, step), EffectOf(c, s, step))
  {
    match step
    case Work(switch) => WorkFlags(c, s, switch);
    case _ =>
  }

  lemma WorkFlags(c: Config, s: State, switch: bool)
    requires Can(c, s, Work(switch))
    ensures Flags(s, DoWork(c, s, switch), EffectOf(c, s, Work(switch)))
  {
  }

  lemma CurrentStep(c: Config, s: State, step: Step)
    requires CurrentInv(s) && Can(c, s, step)
    ensures CurrentInv(Do(c, s, step))
  {
    match step
    case Work(switch) => assert CurrentInv(DoWork(c, s, switch));
    case _ =>
  }

  lemma LandKept(s: State, s': State, effect: Effect)
    requires LifeInv(s) && LandInv(s) && CurrentInv(s') && Has(s, s', effect) && Flags(s, s', effect)
    ensures LandInv(s')
  {
    var t, t' := s.log.trace, s'.log.trace;
    if t' != t {
      var e := t'[|t|];
      assert t' == t + [e];
      EndedSnoc(t, e);
      assert forall id :: Interrupted(id) in t' <==> Interrupted(id) in t || e == Interrupted(id);
    }
    if effect.Takes? || effect.Fails? {
      HeadIsNew(s);
    }
    if InHand(s.pc).Some? {
      HandIsNew(s);
    }
  }

  lemma HandIsNew(s: State)
    requires LifeInv(s) && InHand(s.pc).Some?
    ensures InHand(s.pc).value !in Ended(s.log.trace)
  {
    KeepDistinct(s.log.arrived, s.log.dropped);
    DistinctParts(Ended(s.log.trace) + Hand(s.pc), s.queue, InHand(s.pc).value);
    DistinctParts(Ended(s.log.trace), Hand(s.pc), InHand(s.pc).value);
    assert InHand(s.pc).value in Hand(s.pc);
  }

  lemma HeadIsNew(s: State)
    requires LifeInv(s) && s.queue != []
    ensures s.queue[0] !in Ended(s.log.trace)
  {
    KeepDistinct(s.log.arrived, s.log.dropped);
    DistinctParts(Ended(s.log.trace) + Hand(s.pc), s.queue, s.queue[0]);
    DistinctParts(Ended(s.log.trace), Hand(s.pc), s.queue[0]);
  }

  lemma {:induction false} LandAlways(c: Config, s: State, steps: seq<Step>)
    requires LifeInv(s) && LandInv(s) && Runs(c, s, steps)
    ensures LifeInv(Final(c, s, steps)) && LandInv(Final(c, s, steps))
    decreases |steps|
  {
    if steps != [] {
      var s' := Do(c, s, steps[0]);
      StepHas(c, s, steps[0]);
      StepFlags(c, s, steps[0]);
      CurrentStep(c, s, steps[0]);
      LifeKept(s, s', EffectOf(c, s, steps[0]));
      LandKept(s, s', EffectOf(c, s, steps[0]));
      LandAlways(c, s', steps[1..]);
    }
  }

  /**
   In every run, even with cancelSpeech split in two: an utterance that ended was
   interrupted exactly when the write of some cancelSpeech landed while the worker had it.
   */
  lemma InterruptedExactlyWhenLanded(c: Config, s: State, steps: seq<Step>, id: Id)
    requires Init(s) && Runs(c, s, steps)
    ensures var f := Final(c, s, steps);
            Interrupted(id) in f.log.trace <==> id in f.log.landed && id in Ended(f.log.trace)
  {
    LandAlways(c, s, steps);
  }

  // With atomic cancels the flag lands only on the utterance that was current and named.
  ghost predicate AtomicInv(s: State) {
    && CurrentInv(s) && s.armed == {} && s.log.landed == s.log.named
    && (s.flushed ==> s.pc.Playing? || s.pc.Between? || s.pc.Reporting? || (s.pc.Starting? && s.pc.again))
  }

  lemma AtomicStep(c: Config, s: State, step: Step)
    requires AtomicInv(s) && Can(c, s, step) && !step.CancelTest? && !step.CancelSet?
    ensures AtomicInv(Do(c, s, step))
  {
    CurrentStep(c, s, step);
    match step
    case Work(switch) => assert AtomicInv(DoWork(c, s, switch));
    case _ =>
  }

  lemma {:induction false} AtomicAlways(c: Config, s: State, steps: seq<Step>)
    requires AtomicInv(s) && Runs(c, s, steps) && AtomicCancels(steps)
    ensures AtomicInv(Final(c, s, steps))
    decreases |steps|
  {
    if steps != [] {
      AtomicStep(c, s, steps[0]);
      assert forall i | 0 <= i < |steps[1..]| :: steps[1..][i] == steps[i + 1];
      AtomicAlways(c, Do(c, s, steps[0]), steps[1..]);
    }
  }

  // Some cancelSpeech of the run, for this id or for everything, returned true while it was current.
  predicate CancelledIn(c: Config, s: State, steps: seq<Step>, id: Id)
    requires Runs(c, s, steps)
    decreases |steps|
  {
    steps != []
    && ((steps[0].Cancel? && Cancels(s, steps[0].target) && s.current == Some(id))
        || CancelledIn(c, Do(c, s, steps[0]), steps[1..], id))
  }

  lemma NamedStep(c: Config, s: State, step: Step, id: Id)
    requires Can(c, s, step) && !step.CancelTest?
    ensures id in Do(c, s, step).log.named <==>
            id in s.log.named || (step.Cancel? && Cancels(s, step.target) && s.current == Some(id))
  {
    match step
    case Work(switch) => assert DoWork(c, s, switch).log.named == s.log.named;
    case _ =>
  }

  lemma {:induction false} NamedExactlyWhenCancelled(c: Config, s: State, steps: seq<Step>, id: Id)
    requires Runs(c, s, steps) && AtomicCancels(steps)
    ensures id in Final(c, s, steps).log.named <==> id in s.log.named || CancelledIn(c, s, steps, id)
    decreases |steps|
  {
    if steps != [] {
      NamedStep(c, s, steps[0], id);
      assert forall i | 0 <= i < |steps[1..]| :: steps[1..][i] == steps[i + 1];
      NamedExactlyWhenCancelled(c, Do(c, s, steps[0]), steps[1..], id);
    }
  }

  /**
   With atomic cancels: an utterance that ended was interrupted exactly when a cancelSpeech
   that named it or everything returned true while it was current; and the flag is up only
   while the worker still has such an utterance, so it never carries over to the next.
   */
  lemma InterruptedExactlyWhenCancelled(c: Config, s: State, steps: seq<Step>, id: Id)
    requires Init(s) && Runs(c, s, steps) && AtomicCancels(steps)
    ensures var f := Final(c, s, steps);
            && (Interrupted(id) in f.log.trace <==> CancelledIn(c, s, steps, id) && id in Ended(f.log.trace))
            && (id in Hand(f.pc) ==> (f.flushed <==> CancelledIn(c, s, steps, id)))
            && (InHand(f.pc) == None ==> !f.flushed)
  {
    LandAlways(c, s, steps);
    AtomicAlways(c, s, steps);
    NamedExactlyWhenCancelled(c, s, steps, id);
  }

  // ---------------------------------------------------------------------------------
  // Announced exactly once
  // ---------------------------------------------------------------------------------

  function Announced(trace: seq<Event>, id: Id): nat {
    if trace == [] then 0
    else Announced(trace[..|trace| - 1], id) + if trace[|trace| - 1] == WillSpeak(id) then 1 else 0
  }

  // Each outcome other than a playback error follows exactly one announcement; an interruption
  // of one of `early` follows none.
  ghost predicate WellAnnounced(trace: seq<Event>, early: set<Id>) {
    forall i | 0 <= i < |trace| && Ends(trace[i]) && !trace[i].PlaybackError? ::
      Announced(trace[..i], trace[i].id) == if trace[i].Interrupted? && trace[i].id in early then 0 else 1
  }

  ghost predicate AnnounceInv(s: State) {
    && WellAnnounced(s.log.trace, s.log.early)
    && (forall id :: id !in s.log.arrived || id in s.queue ==> Announced(s.log.trace, id) == 0)
    && (s.pc.Announcing? ==> Announced(s.log.trace, s.pc.id) == 0 && (s.flushed <==> s.pc.id in s.log.early))
    && (InHand(s.pc).Some? && !s.pc.Announcing? ==>
          Announced(s.log.trace, InHand(s.pc).value) == if InHand(s.pc).value in s.log.early then 0 else 1)
    && (InHand(s.pc).Some? && InHand(s.pc).value in s.log.early ==> s.flushed)
    && (forall id <- s.log.early :: id in Ended(s.log.trace) || id in Hand(s.pc))
  }

  lemma AnnouncedSnoc(trace: seq<Event>, e: Event, early: set<Id>)
    ensures forall id :: Announced(trace + [e], id) == Announced(trace, id) + if e == WillSpeak(id) then 1 else 0
    ensures WellAnnounced(trace, early)
            && (Ends(e) && !e.PlaybackError? ==>
                  Announced(trace, e.id) == if e.Interrupted? && e.id in early then 0 else 1)
            ==> WellAnnounced(trace + [e], early)
  {
    assert (trace + [e])[..|trace|] == trace;
    assert forall i | 0 <= i < |trace| :: (trace + [e])[..i] == trace[..i] && (trace + [e])[i] == trace[i];
  }

  lemma {:induction false} EndsAreEnded(trace: seq<Event>, i: nat)
    requires i < |trace| && Ends(trace[i])
    ensures trace[i].id in Ended(trace)
  {
    if i < |trace| - 1 {
      EndsAreEnded(trace[..|trace| - 1], i);
    }
  }

  lemma MoreEarly(trace: seq<Event>, early: set<Id>, more: set<Id>)
    requires WellAnnounced(trace, early) && forall id <- more :: id !in Ended(trace)
    ensures WellAnnounced(trace, early + more)
  {
    forall i | 0 <= i < |trace| && Ends(trace[i]) ensures trace[i].id !in more {
      EndsAreEnded(trace, i);
    }
  }

  // A step that does not end an utterance and does not say that it will speak.
  ghost predicate Quietly(s: State, s': State) {
    var t, t' := s.log.trace, s'.log.trace;
    t' == t || (|t'| > |t| && !t'[|t|].WillSpeak?)
  }

  // What a step says: at most one event, a WillSpeak only for the utterance just taken.
  ghost predicate Says(s: State, s': State, effect: Effect) {
    && (effect.Takes? ==> s'.pc.Announcing?)
    && (effect.Nothing? && s.pc.Announcing? ==>
          || (s'.pc == s.pc && Quietly(s, s'))
          || (s'.pc == Starting(s.pc.id, false) && s'.flushed == s.flushed && s'.log.early == s.log.early
              && s'.log.trace == s.log.trace + if s.flushed then [] else [WillSpeak(s.pc.id)]))
    && (effect.Nothing? && !s.pc.Announcing? ==> !s'.pc.Announcing? && Quietly(s, s'))
    && (effect.Arrives? || effect.Drops? ==> s'.pc == s.pc)
    && (effect.Finishes? ==> !s.pc.Announcing?)
    && (|| (s'.log.early == s.log.early && (s.pc.Announcing? ==> s'.flushed == s.flushed))
        || (effect.Nothing? && s'.pc == s.pc && s'.flushed && s'.log.early == s.log.early + EarlySet(s.pc)))
  }

  lemma StepSays(c: Config, s: State, step: Step)
    requires Can(c, s, step)
    ensures Has(s, Do(c, s, step), EffectOf(c, s, step)) && Says(s, Do(c, s, step), EffectOf(c, s, step))
  {
    StepHas(c, s, step);
    match step
    case Work(switch) => WorkSays(c, s, switch);
    case _ =>
  }

  lemma WorkSays(c: Config, s: State, switch: bool)
    requires Can(c, s, Work(switch))
    ensures Says(s, DoWork(c, s, switch), EffectOf(c, s, Work(switch)))
  {
  }

  ghost predicate Moves(s: State, s': State, effect: Effect) {
    LifeInv(s) && AnnounceInv(s) && Has(s, s', effect) && Says(s, s', effect) && Flags(s, s', effect)
  }

  lemma WellKept(s: State, s': State, effect: Effect)
    requires Moves(s, s', effect)
    ensures WellAnnounced(s'.log.trace, s'.log.early)
  {
    var t, t' := s.log.trace, s'.log.trace;
    var more := s'.log.early - s.log.early;
    if InHand(s.pc).Some? {
      HandIsNew(s);
    }
    MoreEarly(t, s.log.early, more);
    assert s'.log.early == s.log.early + more;
    if t' != t {
      AnnouncedSnoc(t, t'[|t|], s'.log.early);
      assert t' == t + [t'[|t|]];
    }
  }

  // Announcements change only for the utterance that is announced.
  lemma CountsKept(s: State, s': State, effect: Effect, id: Id)
    requires Moves(s, s', effect)
    ensures Announced(s'.log.trace, id) == Announced(s.log.trace, id)
              + if effect.Nothing? && s.pc == Announcing(id) && s'.pc != s.pc && !s.flushed then 1 else 0
  {
    var t, t' := s.log.trace, s'.log.trace;
    if t' != t {
      AnnouncedSnoc(t, t'[|t|], {});
      assert t' == t + [t'[|t|]];
    }
  }

  lemma NotYetKept(s: State, s': State, effect: Effect, id: Id)
    requires Moves(s, s', effect) && (id !in s'.log.arrived || id in s'.queue)
    ensures Announced(s'.log.trace, id) == 0
  {
    CountsKept(s, s', effect, id);
    if effect.Takes? || effect.Fails? {
      assert s.queue == [s.queue[0]] + s.queue[1..];
    }
    if effect.Nothing? && s.pc.Announcing? {
      InHandIsElsewhere(s, s.pc.id);
    }
  }

  lemma HandKept(s: State, s': State, effect: Effect)
    requires Moves(s, s', effect)
    ensures s'.pc.Announcing? ==>
              Announced(s'.log.trace, s'.pc.id) == 0 && (s'.flushed <==> s'.pc.id in s'.log.early)
    ensures InHand(s'.pc).Some? && !s'.pc.Announcing? ==>
              Announced(s'.log.trace, InHand(s'.pc).value) == if InHand(s'.pc).value in s'.log.early then 0 else 1
    ensures InHand(s'.pc).Some? && InHand(s'.pc).value in s'.log.early ==> s'.flushed
  {
    if InHand(s'.pc).Some? {
      var id := InHand(s'.pc).value;
      CountsKept(s, s', effect, id);
      assert Hand(s'.pc) == [id];
      if effect.Takes? {
        HeadIsNew(s);
        assert id !in s.log.early;
      } else {
        assert Hand(s.pc) == [id];
      }
    }
  }

  lemma EarlyKept(s: State, s': State, effect: Effect)
    requires Moves(s, s', effect)
    ensures forall id <- s'.log.early :: id in Ended(s'.log.trace) || id in Hand(s'.pc)
  {
    var t, t' := s.log.trace, s'.log.trace;
    if t' != t {
      EndedSnoc(t, t'[|t|]);
      assert t' == t + [t'[|t|]];
    }
  }

  lemma AnnounceKept(s: State, s': State, effect: Effect)
    requires Moves(s, s', effect)
    ensures AnnounceInv(s')
  {
    WellKept(s, s', effect);
    HandKept(s, s', effect);
    EarlyKept(s, s', effect);
    forall id | id !in s'.log.arrived || id in s'.queue ensures Announced(s'.log.trace, id) == 0 {
      NotYetKept(s, s', effect, id);
    }
  }

  lemma InHandIsElsewhere(s: State, id: Id)
    requires LifeInv(s) && Hand(s.pc) == [id]
    ensures id in s.log.arrived && id !in s.queue
  {
    KeepDistinct(s.log.arrived, s.log.dropped);
    KeepMembers(s.log.arrived, s.log.dropped, id);
    DistinctParts(Ended(s.log.trace) + [id], s.queue, id);
    assert (Ended(s.log.trace) + [id])[|Ended(s.log.trace)|] == id;
  }

  lemma {:induction false} AnnounceAlways(c: Config, s: State, steps: seq<Step>)
    requires LifeInv(s) && AnnounceInv(s) && Runs(c, s, steps)
    ensures AnnounceInv(Final(c, s, steps))
    decreases |steps|
  {
    if steps != [] {
      var s' := Do(c, s, steps[0]);
      StepSays(c, s, steps[0]);
      StepFlags(c, s, steps[0]);
      LifeKept(s, s', EffectOf(c, s, steps[0]));
      AnnounceKept(s, s', EffectOf(c, s, steps[0]));
      AnnounceAlways(c, s', steps[1..]);
    }
  }

  // The step is the write of a cancelSpeech.
  predicate Writes(s: State, step: Step) {
    step.CancelSet? || (step.Cancel? && Cancels(s, step.target))
  }

  // Some cancelSpeech of the run wrote its flag while the worker was about to announce id.
  predicate LandsEarly(c: Config, s: State, steps: seq<Step>, id: Id)
    requires Runs(c, s, steps)
    decreases |steps|
  {
    steps != []
    && ((Writes(s, steps[0]) && s.pc == Announcing(id)) || LandsEarly(c, Do(c, s, steps[0]), steps[1..], id))
  }

  lemma EarlyStep(c: Config, s: State, step: Step, id: Id)
    requires Can(c, s, step)
    ensures id in Do(c, s, step).log.early <==> id in s.log.early || (Writes(s, step) && s.pc == Announcing(id))
  {
    match step
    case Work(switch) => assert DoWork(c, s, switch).log.early == s.log.early;
    case _ =>
  }

  lemma {:induction false} EarlyExactly(c: Config, s: State, steps: seq<Step>, id: Id)
    requires Runs(c, s, steps)
    ensures id in Final(c, s, steps).log.early <==> id in s.log.early || LandsEarly(c, s, steps, id)
    decreases |steps|
  {
    if steps != [] {
      EarlyStep(c, s, steps[0], id);
      EarlyExactly(c, Do(c, s, steps[0]), steps[1..], id);
    }
  }

  /**
   In every run, cancelSpeech split or not: each spoke and networkerror event has exactly one
   earlier willSpeak. So has each interrupted event, except that it has none if and only if a
   cancelSpeech wrote its flag while the worker was about to announce the utterance.
   */
  lemma AnnouncedExactlyOnce(c: Config, s: State, steps: seq<Step>, i: nat)
    requires Init(s) && Runs(c, s, steps) && i < |Final(c, s, steps).log.trace|
    ensures var t := Final(c, s, steps).log.trace;
            && (t[i].Spoke? || t[i].NetworkError? ==> Announced(t[..i], t[i].id) == 1)
            && (t[i].Interrupted? ==>
                  Announced(t[..i], t[i].id) == if LandsEarly(c, s, steps, t[i].id) then 0 else 1)
  {
    AnnounceAlways(c, s, steps);
    EarlyExactly(c, s, steps, Final(c, s, steps).log.trace[i].id);
  }

  /** With whole cancels no flag is written that early, so every interrupted utterance was announced. */
  lemma {:induction false} AtomicNeverEarly(c: Config, s: State, steps: seq<Step>, id: Id)
    requires AtomicInv(s) && Runs(c, s, steps) && AtomicCancels(steps)
    ensures !LandsEarly(c, s, steps, id)
    decreases |steps|
  {
    if steps != [] {
      AtomicStep(c, s, steps[0]);
      assert forall i | 0 <= i < |steps[1..]| :: steps[1..][i] == steps[i + 1];
      AtomicNeverEarly(c, Do(c, s, steps[0]), steps[1..], id);
    }
  }
}
