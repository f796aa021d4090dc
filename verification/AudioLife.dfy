/**
 What the messages of its bus make of an audio session: the end of the stream stops it, and
 otherwise what it says of itself is what its pipeline does, once it has heard everything.
 */
module AudioLife {

  import opened AudioPlayers

  // The next thing the session hears.
  predicate Hears(p: Player) { p.pipe.Pipeline? && p.pipe.bus != [] }

  predicate EndsIt(message: Message) { message.Eos? || message.Error? }

  /**
   A session with something on its bus holds on to its hardware; hearing it, it lets go if and only
   if it is the end of the stream or an error, and then it does not say it is playing.
   */
  lemma LetsGoExactly(p: Player, works: bool)
    requires Sane(p) && Hears(p)
    ensures p.Holds() && p.pipe.target != Null
    ensures var q := p.Delivered(works);
      && (EndsIt(p.pipe.bus[0]) <==> !q.Holds())
      && (EndsIt(p.pipe.bus[0]) ==> !q.IsPlaying())
      && (EndsIt(p.pipe.bus[0]) ==> q.pipe == if works || p.pipe.bus[0].Eos? then FRESH else NoPipeline)
      && (!EndsIt(p.pipe.bus[0]) ==> q.pipe == p.pipe.(bus := p.pipe.bus[1..]))
  {
    var q := p.(pipe := p.pipe.(bus := p.pipe.bus[1..]));
    assert Sane(q) && q.pipe.target != Null;
    StopFollows(q, works);
  }

  predicate OtherPlays(t: Table, k: int, id: int)
    requires id in t
  {
    exists j :: j in t && j != k && Mate(t, j, id) && t[j].IsPlaying()
  }

  predicate HasTakenOver(t: Table, t': Table, id: int, works: set<int>) {
    id in t && t'.Keys == t.Keys && TookOver(t, t', id, works)
  }

  /**
   After the end of the stream of session k, or an error, Play of another session of its mode is
   granted if and only if no third one is playing; then that session has the hardware.
   */
  lemma EndFreesTheMode(steps: seq<Step>, k: int, made: bool, id: int, secure: bool, works: set<int>)
    requires var t := Final(START, steps).table;
      k in t && Hears(t[k]) && EndsIt(t[k].pipe.bus[0]) && id in t && Mate(t, k, id)
    ensures var s := Final(START, steps);
      var s' := Do(s, Deliver(k, made));
      && s'.table.Keys == s.table.Keys && !s'.table[k].Holds() && !s'.table[k].IsPlaying()
      && (SameMode(s'.table, s'.table.Keys, id, works).1 == Granted <==> !OtherPlays(s.table, k, id))
      && (!OtherPlays(s.table, k, id) ==> HasTakenOver(s'.table, PlayOn(s'.table, id, secure, works), id, works))
  {
    var s := Final(START, steps);
    var t, s' := s.table, Do(s, Deliver(k, made));
    RunKeeps(START, steps);
    assert Kept(t, k);
    LetsGoExactly(t[k], made);
    StepKeeps(s, Deliver(k, made));
    assert s'.table == t[k := t[k].Delivered(made)];
    DeliverFollows(t[k], made);
    PlayOutcome(s'.table, id, secure, works);
    forall j | j in t ensures Mate(s'.table, j, id) && s'.table[j].IsPlaying()
        <==> j != k && Mate(t, j, id) && t[j].IsPlaying() {
    }
  }

  // ---------------------------------------------------------------------------------
  // What a session says of itself
  // ---------------------------------------------------------------------------------

  const STARTED := Changed(Paused, Playing)

  function HeardOne(state: State, m: Message): State {
    if !m.Changed? then state
    else if m.to == Paused then PAUSED
    else if m == STARTED then PLAYING
    else if m == Changed(Ready, Null) then READY
    else state
  }

  // The state it will be in when it has heard all that is on its bus.
  function Heard(state: State, bus: seq<Message>): State
    decreases |bus|
  {
    if bus == [] then state else Heard(HeardOne(state, bus[0]), bus[1..])
  }

  lemma {:induction false} HeardSnoc(state: State, bus: seq<Message>, m: Message)
    ensures Heard(state, bus + [m]) == HeardOne(Heard(state, bus), m)
    decreases |bus|
  {
    if bus == [] {
      assert [] + [m] == [m];
    } else {
      assert (bus + [m])[0] == bus[0] && (bus + [m])[1..] == bus[1..] + [m];
      HeardSnoc(HeardOne(state, bus[0]), bus[1..], m);
    }
  }

  // Without a start among them it does not begin to play.
  lemma {:induction false} HeardNoStart(state: State, bus: seq<Message>)
    requires STARTED !in bus && state != PLAYING
    ensures Heard(state, bus) != PLAYING
    decreases |bus|
  {
    if bus != [] {
      assert bus[0] in bus && forall m :: m in bus[1..] ==> m in bus;
      HeardNoStart(HeardOne(state, bus[0]), bus[1..]);
    }
  }

  // Of a session whose pipeline is asked for something: what it will have heard fits where the pipeline is.
  predicate Tracks(p: Player) {
    p.pipe.Pipeline? && p.pipe.target != Null ==>
      && (p.pipe.target == Playing || (p.pipe.target == Paused && !p.FromApp()))
      && (p.pipe.actual == Playing ==> Heard(p.state, p.pipe.bus) == PLAYING)
      && (p.pipe.actual == Paused ==> Heard(p.state, p.pipe.bus) == PAUSED)
  }

  // And isPaused, of one that plays a file or a stream over HTTP, fits what it was asked for.
  predicate Agrees(p: Player) {
    p.pipe.Pipeline? && !p.FromApp() ==>
      && (p.state == PLAYING ==> p.pipe.target != Null)
      && (p.pipe.target == Paused ==> p.isPaused && STARTED !in p.pipe.bus)
      && (p.pipe.target == Playing && p.pipe.actual == Playing && p.isPaused ==> STARTED in p.pipe.bus)
      && (p.pipe.target == Playing && p.state == PLAYING ==> p.pipe.actual == Playing && STARTED !in p.pipe.bus)
      && (p.pipe.target == Playing && STARTED in p.pipe.bus ==>
          p.pipe.actual == Playing && multiset(p.pipe.bus)[STARTED] == 1)
  }

  predicate Honest(p: Player) { Sane(p) && Tracks(p) && Agrees(p) }

  lemma MovedHonest(p: Player)
    requires Honest(p)
    ensures Honest(p.Moved())
  {
    if p.pipe.Pipeline? && p.pipe.actual != p.pipe.target {
      var m := Changed(p.pipe.actual, Towards(p.pipe.actual, p.pipe.target));
      HeardSnoc(p.state, p.pipe.bus, m);
    }
  }

  lemma PostedHonest(p: Player, m: Message)
    requires Honest(p)
    ensures Honest(p.Posted(m))
  {
    if p.pipe.Pipeline? {
      HeardSnoc(p.state, p.pipe.bus, m);
    }
  }

  lemma LostHonest(p: Player)
    requires Honest(p)
    ensures Honest(p.ConnectionLost())
  {
    if p.pipe.Pipeline? {
      HeardSnoc(p.state, p.pipe.bus, Changed(Playing, Paused));
    }
  }

  lemma ResumedHonest(p: Player)
    requires Honest(p)
    ensures Honest(p.ResumedBy())
  {
    if p.CanResume() && p.pipe.target == Paused {
      HeardNoStart(p.state, p.pipe.bus);
    }
  }

  lemma ChangeEffect(p: Player, works: bool)
    requires Hears(p) && p.pipe.bus[0].Changed?
    ensures Heeds(p, p.Delivered(works))
  {
  }

  // q has heard of a change of state.
  predicate Heeds(p: Player, q: Player)
    requires Hears(p)
  {
    && q.pipe == p.pipe.(bus := p.pipe.bus[1..]) && q.source == p.source
    && q.state == HeardOne(p.state, p.pipe.bus[0])
    && q.isPaused == (p.isPaused && (p.FromApp() || p.pipe.bus[0] != STARTED))
  }

  lemma ChangeTracks(p: Player, q: Player)
    requires Tracks(p) && Hears(p) && Heeds(p, q)
    ensures Tracks(q)
  {
  }

  lemma Tail(bus: seq<Message>, m: Message)
    requires bus != []
    ensures multiset(bus)[m] == multiset(bus[1..])[m] + if bus[0] == m then 1 else 0
    ensures m in bus <==> bus[0] == m || m in bus[1..]
  {
    assert bus == [bus[0]] + bus[1..];
  }

  lemma ChangeAgrees(p: Player, q: Player)
    requires Agrees(p) && Hears(p) && Heeds(p, q) && p.pipe.target != Null
    ensures Agrees(q)
  {
    Tail(p.pipe.bus, STARTED);
    assert STARTED in q.pipe.bus ==> multiset(q.pipe.bus)[STARTED] > 0;
  }

  lemma DeliveredHonest(p: Player, works: bool)
    requires Honest(p)
    ensures Honest(p.Delivered(works))
  {
    DeliverFollows(p, works);
    if Hears(p) && p.pipe.bus[0].Changed? {
      ChangeEffect(p, works);
      ChangeTracks(p, p.Delivered(works));
      ChangeAgrees(p, p.Delivered(works));
    } else if Hears(p) {
      LetsGoExactly(p, works);
    }
  }

  lemma ThenHonest(p: Player, step: Step)
    requires Honest(p) && OnOne(step)
    ensures Honest(Then(p, step))
  {
    ThenFollows(p, step);
    if step.Move? {
      MovedHonest(p);
    } else if step.Post? {
      PostedHonest(p, step.message);
    } else if step.Lose? {
      LostHonest(p);
    } else if step.Resume? {
      ResumedHonest(p);
    } else if step.Deliver? {
      DeliveredHonest(p, step.made);
    } else if step.Stop? {
      StopFollows(p, step.made);
    }
  }

  ghost predicate AllHonest(t: Table) {
    forall k :: k in t ==> Honest(t[k])
  }

  lemma PlayHonest(t: Table, id: int, secure: bool, works: set<int>)
    requires AllHonest(t) && id in t
    ensures AllHonest(PlayOn(t, id, secure, works))
  {
    SameModeOutcome(t, t.Keys, id, works);
    var (t1, answer) := SameMode(t, t.Keys, id, works);
    forall k | k in t1 ensures Honest(t1[k]) {
      assert Honest(t[k]) && StoppedOrSame(t, t1, k, id, works);
      StopFollows(t[k], k in works);
    }
    PlayedSane(t1[id], secure, id in works);
  }

  lemma {:induction false} RunHonest(s: System, steps: seq<Step>)
    requires AllHonest(s.table)
    ensures AllHonest(Final(s, steps).table)
    decreases |steps|
  {
    if steps != [] {
      var step := steps[0];
      if step.Play? && step.id in s.table && step.urlOk {
        PlayHonest(s.table, step.id, step.secure, step.works);
      } else if OnOne(step) && step.id in s.table {
        ThenHonest(s.table[step.id], step);
      }
      RunHonest(Do(s, step), steps[1..]);
    }
  }

  // The pipeline is where it was asked to be, and the session has heard everything.
  predicate AtRest(p: Player) {
    p.pipe.Pipeline? && p.pipe.actual == p.pipe.target && p.pipe.bus == []
  }

  /**
   In every run a session at rest says of itself what its pipeline does. It can be paused if and only
   if it was last asked to play, and resumed if and only if it was last asked to pause.
   */
  lemma SaysWhatItDoes(steps: seq<Step>, k: int)
    requires var t := Final(START, steps).table; k in t && AtRest(t[k]) && t[k].pipe.target != Null
    ensures var p := Final(START, steps).table[k];
      && p.state == (if p.pipe.target == Playing then PLAYING else PAUSED)
      && (!p.FromApp() ==> (p.CanPause() <==> p.pipe.target == Playing)
                           && (p.CanResume() <==> p.pipe.target == Paused))
  {
    RunHonest(START, steps);
    assert Honest(Final(START, steps).table[k]);
  }

  function Gap(pipe: Pipeline): nat
    requires pipe.Pipeline?
  {
    var d := Rank(pipe.target) - Rank(pipe.actual);
    if d < 0 then -d else d
  }

  // The session, left to its pipeline and its bus until it is at rest.
  function Rested(p: Player): Player
    decreases if p.pipe.Pipeline? then Gap(p.pipe) else 0, if p.pipe.Pipeline? then |p.pipe.bus| else 0
  {
    if p.pipe == NoPipeline then p
    else if p.pipe.actual != p.pipe.target then Rested(p.Moved())
    else if p.pipe.bus != [] then Rested(p.Delivered(true))
    else p
  }

  predicate NoEnd(bus: seq<Message>) {
    forall m :: m in bus ==> !EndsIt(m)
  }

  // Nearer to rest, asked for the same, the same session.
  predicate Nearer(p: Player, q: Player)
    requires p.pipe.Pipeline?
  {
    && q.pipe.Pipeline? && q.pipe.target == p.pipe.target && NoEnd(q.pipe.bus)
    && q.source == p.source && q.firstPacket == p.firstPacket
    && (Gap(q.pipe) < Gap(p.pipe) || (Gap(q.pipe) == Gap(p.pipe) && |q.pipe.bus| < |p.pipe.bus|))
  }

  lemma MoveNearer(p: Player)
    requires p.pipe.Pipeline? && NoEnd(p.pipe.bus) && p.pipe.actual != p.pipe.target
    ensures Nearer(p, p.Moved())
  {
  }

  lemma DeliverNearer(p: Player)
    requires Sane(p) && Hears(p) && NoEnd(p.pipe.bus)
    ensures Nearer(p, p.Delivered(true))
  {
    assert p.pipe.bus[0] in p.pipe.bus && forall m :: m in p.pipe.bus[1..] ==> m in p.pipe.bus;
    LetsGoExactly(p, true);
  }

  lemma {:induction false} ComesToRest(p: Player)
    requires Honest(p) && p.pipe.Pipeline? && NoEnd(p.pipe.bus)
    ensures var q := Rested(p);
      Honest(q) && AtRest(q) && q.pipe.target == p.pipe.target && q.source == p.source
          && q.firstPacket == p.firstPacket
    decreases Gap(p.pipe), |p.pipe.bus|
  {
    if p.pipe.actual != p.pipe.target {
      MovedHonest(p);
      MoveNearer(p);
      ComesToRest(p.Moved());
    } else if p.pipe.bus != [] {
      DeliveredHonest(p, true);
      DeliverNearer(p);
      ComesToRest(p.Delivered(true));
    }
  }

  /**
   Left to its pipeline, a played session plays (a fed one once its first packet is through), a
   paused one can be resumed, and a resumed one plays and can be paused again.
   */
  lemma CallsTakeEffect(p: Player, secure: bool)
    requires Honest(p) && p.pipe.Pipeline?
    ensures var q := Rested(p.Played(secure, true)); AtRest(q) && q.Fed().IsPlaying()
    ensures NoEnd(p.pipe.bus) && p.CanPause() ==>
      var q := Rested(p.PausedBy()); AtRest(q) && !q.IsPlaying() && q.CanResume()
    ensures NoEnd(p.pipe.bus) && p.CanResume() ==>
      var q := Rested(p.ResumedBy()); AtRest(q) && q.IsPlaying() && q.CanPause()
  {
    PlayedSane(p, secure, true);
    ComesToRest(p.Played(secure, true));
    if NoEnd(p.pipe.bus) {
      if p.CanPause() {
        ComesToRest(p.PausedBy());
      } else if p.CanResume() {
        ResumedHonest(p);
        ComesToRest(p.ResumedBy());
      }
    }
  }

  // ---------------------------------------------------------------------------------
  // Connections
  // ---------------------------------------------------------------------------------

  // One pull at the session: its pipeline moves, or it hears the next message.
  lemma RestedStep(p: Player)
    requires p.pipe.Pipeline?
    ensures p.pipe.actual != p.pipe.target ==> Rested(p) == Rested(p.Moved())
    ensures p.pipe.actual == p.pipe.target && p.pipe.bus != [] ==> Rested(p) == Rested(p.Delivered(true))
    ensures AtRest(p) ==> Rested(p) == p
  {
  }

  // A websocket session that hears its pipeline start, with nothing after that.
  lemma HearsTheStart(p: Player)
    requires p.source == WEBSOCKET && p.pipe == Pipeline(Playing, Playing, [STARTED])
    ensures Rested(p) == p.(state := PLAYING, pipe := p.pipe.(bus := [])).Connected()
  {
    var q := p.(state := PLAYING, pipe := p.pipe.(bus := [])).Connected();
    assert p.pipe.bus[1..] == [];
    assert p.Delivered(true) == q && AtRest(q);
    RestedStep(p);
    RestedStep(q);
  }

  // One that hears anything else.
  lemma HearsOther(p: Player, bus: seq<Message>)
    requires p.source == WEBSOCKET && Hears(p) && p.pipe.bus == [p.pipe.bus[0]] + bus
    requires p.pipe.bus[0].Changed? && p.pipe.bus[0] != STARTED && p.pipe.actual == p.pipe.target
    ensures Rested(p) == Rested(p.(state := HeardOne(p.state, p.pipe.bus[0]), pipe := p.pipe.(bus := bus)))
  {
    RestedStep(p);
    assert p.pipe.bus[1..] == bus;
  }

  lemma MovesUp(p: Player, at: Gst, to: Gst, bus: seq<Message>, longer: seq<Message>)
    requires p.pipe == Pipeline(Playing, at, bus) && at != Playing && to == Up(at) && longer == bus + [Changed(at, to)]
    ensures Rested(p) == Rested(p.(pipe := Pipeline(Playing, to, longer)))
  {
    RestedStep(p);
  }

  // One whose pipeline has just been asked to play.
  lemma StartsUp(p: Player)
    requires p.pipe == Pipeline(Playing, Null, [])
    ensures Rested(p)
         == Rested(p.(pipe := Pipeline(Playing, Playing, [Changed(Null, Ready), Changed(Ready, Paused), STARTED])))
  {
    var up1, up2 := Changed(Null, Ready), Changed(Ready, Paused);
    MovesUp(p, Null, Ready, [], [up1]);
    MovesUp(p.(pipe := Pipeline(Playing, Ready, [up1])), Ready, Paused, [up1], [up1, up2]);
    MovesUp(p.(pipe := Pipeline(Playing, Paused, [up1, up2])), Paused, Playing, [up1, up2], [up1, up2, STARTED]);
  }

  /** A played websocket session ends up with the kind of connection that its url asks for. */
  lemma ConnectsAsAsked(p: Player, secure: bool)
    requires Sane(p) && p.source == WEBSOCKET && p.pipe.Pipeline?
    ensures Rested(p.Played(secure, true)).client == if secure then Secured else Unsecured
  {
    PlayedSane(p, secure, true);
    var p0 := p.Played(secure, true);
    var up1, up2 := Changed(Null, Ready), Changed(Ready, Paused);
    StartsUp(p0);
    HearsUp(p0.(pipe := Pipeline(Playing, Playing, [up1, up2, STARTED])));
  }

  lemma HearsUp(p: Player)
    requires p.source == WEBSOCKET && p.client == NoClient
    requires p.pipe == Pipeline(Playing, Playing, [Changed(Null, Ready), Changed(Ready, Paused), STARTED])
    ensures Rested(p).client == if p.secureUrl then Secured else Unsecured
  {
    var up1, up2 := Changed(Null, Ready), Changed(Ready, Paused);
    assert p.pipe.bus == [up1] + [up2, STARTED] && [up2, STARTED] == [up2] + [STARTED];
    HearsOther(p, [up2, STARTED]);
    HearsOther(p.(pipe := p.pipe.(bus := [up2, STARTED])), [STARTED]);
    HearsTheStart(p.(state := PAUSED, pipe := p.pipe.(bus := [STARTED])));
  }

  /** When a secured connection of a playing session is lost it goes on with an unsecured one, and only then. */
  lemma FallsBackExactly(p: Player)
    requires Honest(p) && p.source == WEBSOCKET && AtRest(p) && p.pipe.target == Playing && p.client != NoClient
    ensures var q := Rested(p.ConnectionLost());
      && q.client == Unsecured && q.state == PLAYING && AtRest(q)
      && (q == p <==> p.client == Unsecured) && (p.client == Secured ==> !q.fallback)
  {
    RestedStep(p);
    if p.client == Secured {
      var lost := p.ConnectionLost();
      var down := Changed(Playing, Paused);
      var up := lost.(pipe := Pipeline(Playing, Playing, [down, STARTED]));
      assert p.pipe.bus + [down] == [down] && [down] + [STARTED] == [down, STARTED];
      assert lost.Moved() == up && up.pipe.bus[1..] == [STARTED];
      RestedStep(lost);
      HearsOther(up, [STARTED]);
      HearsTheStart(up.(state := PAUSED, pipe := up.pipe.(bus := [STARTED])));
    }
  }

  // ---------------------------------------------------------------------------------
  // Which sessions there are
  // ---------------------------------------------------------------------------------

  function Opens(steps: seq<Step>): nat
    decreases |steps|
  {
    if steps == [] then 0 else Opens(steps[..|steps| - 1]) + if steps[|steps| - 1].Open? then 1 else 0
  }

  /** An identifier, as the int that it is stored in: never 0, and itself modulo 2^32. */
  lemma IdsFitAnInt(n: nat)
    requires n > 0
    ensures var k := AsInt(NthId(n));
      -0x8000_0000 <= k < 0x8000_0000 && k != 0 && (NthId(n) - k == 0 || NthId(n) - k == 0x1_0000_0000)
  {
    NthIdForm(n);
  }

  // Step i opens session k.
  predicate OpensAs(steps: seq<Step>, i: nat, k: int) {
    i < |steps| && steps[i].Open? && AsInt(NthId(Opens(steps[..i + 1]))) == k
  }

  // It was opened in step i and not closed since.
  predicate OpenSince(steps: seq<Step>, i: nat, k: int) {
    OpensAs(steps, i, k) && forall j :: i < j < |steps| ==> steps[j] != Close(k)
  }

  lemma TableStep(s: System, step: Step, k: int)
    ensures k in Do(s, step).table <==>
      (step.Open? && AsInt(NextId(s.counter)) == k) || (k in s.table && step != Close(k))
    ensures Do(s, step).counter == if step.Open? then NextId(s.counter) else s.counter
  {
    if step.Play? && step.id in s.table && step.urlOk {
      SameModeOutcome(s.table, s.table.Keys, step.id, step.works);
    }
  }

  lemma OpenSinceStep(steps: seq<Step>, i: nat, k: int)
    requires steps != []
    ensures var n := |steps| - 1;
      OpenSince(steps, i, k) <==>
        (i == n && OpensAs(steps, n, k)) || (OpenSince(steps[..n], i, k) && steps[n] != Close(k))
  {
    var n := |steps| - 1;
    if i < n {
      assert steps[..n][..i + 1] == steps[..i + 1];
      assert forall j :: 0 <= j < n ==> steps[..n][j] == steps[j];
    }
  }

  /** A session is in the table if and only if some Open gave it its identifier and no Close took it since. */
  lemma {:induction false} OpenExactly(steps: seq<Step>, k: int)
    ensures var s := Final(START, steps);
      s.counter == NthId(Opens(steps)) && (k in s.table <==> exists i: nat :: OpenSince(steps, i, k))
    decreases |steps|
  {
    if steps != [] {
      var n := |steps| - 1;
      var s := Final(START, steps[..n]);
      OpenExactly(steps[..n], k);
      assert steps == steps[..n] + [steps[n]] && steps[..n + 1] == steps;
      FinalSnoc(START, steps[..n], steps[n]);
      TableStep(s, steps[n], k);
      OpenSinceLast(steps, k);
    }
  }

  lemma OpenSinceLast(steps: seq<Step>, k: int)
    requires steps != []
    ensures var n := |steps| - 1;
      (exists i: nat :: OpenSince(steps, i, k)) <==>
        OpensAs(steps, n, k) || ((exists i: nat :: OpenSince(steps[..n], i, k)) && steps[n] != Close(k))
  {
    var n := |steps| - 1;
    OpenSinceStep(steps, n, k);
    if i: nat :| OpenSince(steps[..n], i, k) {
      OpenSinceStep(steps, i, k);
    }
    if i: nat :| OpenSince(steps, i, k) {
      OpenSinceStep(steps, i, k);
    }
  }
}
