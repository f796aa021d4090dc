/**
 SystemAudioPlayer/SystemAudioPlayerImplementation.cpp over SystemAudioPlayer/impl/AudioPlayer.cpp:
 a table of sessions, at most one of which may use the hardware in each play mode.

 An API call is one step, and so is one bus message; between them a pipeline moves towards
 the state it was asked for and posts what it did on its bus. Setting a pipeline to NULL
 takes effect at once and flushes the bus.
 */
module AudioPlayers {

  datatype Source = HTTPSRC | FILESRC | DATA | WEBSOCKET
  datatype Mode = SYSTEM | APP
  datatype State = READY | PAUSED | PLAYING | PLAYBACKERROR
  datatype Gst = Null | Ready | Paused | Playing
  datatype Message = Changed(from: Gst, to: Gst) | Eos | Error
  datatype Client = NoClient | Secured | Unsecured
  datatype Pipeline = NoPipeline | Pipeline(target: Gst, actual: Gst, bus: seq<Message>)

  const FRESH := Pipeline(Null, Null, [])

  datatype Player = Player(id: int, source: Source, mode: Mode, pipe: Pipeline, state: State, isPaused: bool,
                           firstPacket: bool, client: Client, secureUrl: bool, fallback: bool)
  {
    predicate FromApp() { source == DATA || source == WEBSOCKET }

    predicate IsPlaying() { pipe.Pipeline? && state == PLAYING && (FromApp() ==> !firstPacket) }

    // The pipeline is asked to play or to pause, or the session counts as paused.
    predicate Active() { isPaused || (pipe.Pipeline? && pipe.target != Null) }

    // Something is left of a Play: this is what the sessions of a mode must not share.
    predicate Holds() { Active() || client != NoClient || state != READY }

    function ResetPipeline(works: bool): Player {
      var torn := if state == PLAYBACKERROR then NoPipeline else pipe;
      this.(isPaused := false, pipe := if torn == NoPipeline && !works then NoPipeline else FRESH)
    }

    function Stopped(works: bool): Player {
      var cleared := if FromApp() then this.(client := NoClient, firstPacket := true) else this;
      cleared.ResetPipeline(works).(state := READY)
    }

    function Played(secure: bool, works: bool): Player {
      var named := this.(secureUrl := secure);
      if pipe == NoPipeline then named else
        var stopped := named.Stopped(works);
        if stopped.pipe == NoPipeline then stopped else stopped.(pipe := stopped.pipe.(target := Playing))
    }

    predicate CanPause() { pipe.Pipeline? && !FromApp() && !isPaused && state == PLAYING }

    predicate CanResume() { pipe.Pipeline? && !FromApp() && isPaused && state == PAUSED }

    function PausedBy(): Player {
      if CanPause() then this.(isPaused := true, pipe := pipe.(target := Paused)) else this
    }

    function ResumedBy(): Player {
      if CanResume() then this.(pipe := pipe.(target := Playing)) else this
    }

    // webClient once the pipeline plays.
    function Connected(): Player {
      if source != WEBSOCKET then this
      else if client == NoClient then this.(client := if secureUrl then Secured else Unsecured)
      else if client == Secured && fallback then this.(client := Unsecured, fallback := false)
      else this
    }

    function Handled(message: Message, works: bool): Player {
      if pipe == NoPipeline then this else
        match message
        case Error => this.(state := PLAYBACKERROR).Stopped(works)
        case Eos => if state == PLAYBACKERROR then this else this.(firstPacket := true).Stopped(works)
        case Changed(from, to) =>
          if to == Paused then this.(state := PAUSED)
          else if from == Paused && to == Playing then
            var playing := this.(state := PLAYING).Connected();
            if FromApp() then playing else playing.(isPaused := false)
          else if from == Ready && to == Null then this.(state := READY)
          else this
    }

    // One state change of the pipeline, posted on its bus.
    function Moved(): Player {
      if pipe == NoPipeline || pipe.actual == pipe.target then this else
        var to := Towards(pipe.actual, pipe.target);
        this.(pipe := pipe.(actual := to, bus := pipe.bus + [Changed(pipe.actual, to)]))
    }

    // From an element: a change of state that is not the pipeline's own is ignored.
    function Posted(message: Message): Player {
      if pipe.Pipeline? && pipe.actual != Null && !message.Changed?
      then this.(pipe := pipe.(bus := pipe.bus + [message]))
      else this
    }

    function Delivered(works: bool): Player {
      if pipe == NoPipeline || pipe.bus == [] then this
      else this.(pipe := pipe.(bus := pipe.bus[1..])).Handled(pipe.bus[0], works)
    }

    // SetSmartVolControl, with m_audioCutter false as it always is.
    function SmartVolume(enable: bool, works: bool): Player {
      if IsPlaying() || !enable then this else this.(pipe := if works then FRESH else NoPipeline)
    }

    function Fed(): Player {
      if FromApp() then this.(firstPacket := false) else this
    }

    function ConnectionLost(): Player {
      if client != Secured then this
      else this.(fallback := true, pipe := if pipe.Pipeline? then Bounced(pipe) else pipe)
    }
  }

  function Up(g: Gst): Gst {
    match g case Null => Ready case Ready => Paused case Paused => Playing case Playing => Playing
  }

  function Down(g: Gst): Gst {
    match g case Playing => Paused case Paused => Ready case Ready => Null case Null => Null
  }

  function Rank(g: Gst): nat {
    match g case Null => 0 case Ready => 1 case Paused => 2 case Playing => 3
  }

  function Towards(actual: Gst, target: Gst): Gst {
    if Rank(actual) < Rank(target) then Up(actual) else Down(actual)
  }

  // To PAUSED and back to PLAYING.
  function Bounced(pipe: Pipeline): Pipeline
    requires pipe.Pipeline?
  {
    if pipe.actual == Playing
    then Pipeline(Playing, Paused, pipe.bus + [Changed(Playing, Paused)])
    else pipe.(target := Playing)
  }

  function NewPlayer(id: int, source: Source, mode: Mode, works: bool): Player {
    Player(id, source, mode, if works then FRESH else NoPipeline, READY, false, true, NoClient, false, false)
  }

  // ---------------------------------------------------------------------------------
  // Identifiers
  // ---------------------------------------------------------------------------------

  const LAST_ID := 0xFFFFFFFF

  function NextId(counter: nat): (id: nat)
    ensures 1 <= id && (counter <= LAST_ID ==> id <= LAST_ID)
  {
    if counter >= LAST_ID then 1 else counter + 1
  }

  // The identifier that the n-th call returns, counting from 1; 0 is the counter before.
  function NthId(n: nat): nat {
    if n == 0 then 0 else NextId(NthId(n - 1))
  }

  lemma {:induction false} NthIdForm(n: nat)
    requires n > 0
    ensures NthId(n) == (n - 1) % LAST_ID + 1
  {
    if n > 1 {
      NthIdForm(n - 1);
    }
  }

  lemma SameRemainder(a: nat, d: nat)
    ensures a % LAST_ID == (a + d) % LAST_ID <==> d % LAST_ID == 0
  {
    var p, q, r := a / LAST_ID, (a + d) / LAST_ID, d / LAST_ID;
    assert a == LAST_ID * p + a % LAST_ID && a + d == LAST_ID * q + (a + d) % LAST_ID;
    assert d == LAST_ID * r + d % LAST_ID;
  }

  /** Two sessions get the same identifier only 2^32 - 1 openings apart, and then they do. */
  lemma IdsRepeat(m: nat, d: nat)
    requires 0 < m
    ensures NthId(m) == NthId(m + d) <==> d % LAST_ID == 0
  {
    NthIdForm(m);
    NthIdForm(m + d);
    SameRemainder(m - 1, d);
    assert m - 1 + d == m + d - 1;
  }

  // nextId() is stored in an int.
  function AsInt(id: nat): int { if id <= 0x7FFFFFFF then id else id - 0x1_0000_0000 }

  // ---------------------------------------------------------------------------------
  // The table
  // ---------------------------------------------------------------------------------

  type Table = map<int, Player>

  predicate IsLeast(k: int, s: set<int>) {
    k in s && forall j :: j in s ==> k <= j
  }

  lemma SomeMember(s: set<int>)
    ensures s == {} || exists k :: k in s
  {
    if forall k :: k !in s {
      assert s == {};
    }
  }

  lemma LeastExists(s: set<int>)
    requires s != {}
    ensures exists k :: IsLeast(k, s)
  {
    SomeMember(s);
    var k :| k in s;
    var rest := s - {k};
    if rest == {} {
      assert s == {k};
      assert IsLeast(k, s);
    } else {
      LeastExists(rest);
      var m :| IsLeast(m, rest);
      assert forall j :: j in s ==> j == k || j in rest;
      assert IsLeast(if m < k then m else k, s);
    }
  }

  // std::map is walked in the order of its keys.
  function Least(s: set<int>): (k: int)
    requires s != {}
    ensures IsLeast(k, s)
  {
    LeastExists(s);
    var k :| IsLeast(k, s);
    k
  }

  predicate Mate(t: Table, k: int, id: int)
    requires k in t && id in t
  {
    k != id && t[k].mode == t[id].mode
  }

  datatype Answer = Granted | Held(holder: int)

  // SameModeNotPlaying from the sessions of `todo` on.
  function SameMode(t: Table, todo: set<int>, id: int, works: set<int>): (Table, Answer)
    requires todo <= t.Keys && id in t
    decreases |todo|
  {
    if todo == {} then (t, Granted) else
      var k := Least(todo);
      if !Mate(t, k, id) then SameMode(t, todo - {k}, id, works)
      else if t[k].IsPlaying() then (t, Held(k))
      else SameMode(t[k := t[k].Stopped(k in works)], todo - {k}, id, works)
  }

  // ---------------------------------------------------------------------------------
  // Steps
  // ---------------------------------------------------------------------------------

  datatype Step =
    | Open(source: Source, mode: Mode, made: bool)
    | Close(id: int)
    | Play(id: int, urlOk: bool, secure: bool, works: set<int>)   // works: where a pipeline can be made
    | Pause(id: int)
    | Resume(id: int)
    | Stop(id: int, made: bool)
    | Move(id: int)
    | Post(id: int, message: Message)                            // by an element: end of stream, error, anything else
    | Deliver(id: int, made: bool)
    | Feed(id: int)
    | Lose(id: int)
    | SetSmartVolControl(id: int, enable: bool, made: bool)

  datatype System = System(counter: nat, table: Table)

  const START := System(0, map[])

  predicate OnOne(step: Step) { !step.Open? && !step.Close? && !step.Play? }

  // What a step on one session makes of it.
  function Then(p: Player, step: Step): Player
    requires OnOne(step)
  {
    match step
    case Pause(_) => p.PausedBy()
    case Resume(_) => p.ResumedBy()
    case Stop(_, made) => p.Stopped(made)
    case Move(_) => p.Moved()
    case Post(_, message) => p.Posted(message)
    case Deliver(_, made) => p.Delivered(made)
    case Feed(_) => p.Fed()
    case Lose(_) => p.ConnectionLost()
    case SetSmartVolControl(_, enable, made) => p.SmartVolume(enable, made)
  }

  function PlayOn(t: Table, id: int, secure: bool, works: set<int>): Table
    requires id in t
  {
    var (after, answer) := SameMode(t, t.Keys, id, works);
    if answer == Granted && id in after then after[id := after[id].Played(secure, id in works)] else after
  }

  function Do(s: System, step: Step): System {
    match step
    case Open(source, mode, made) =>
      var counter := NextId(s.counter);
      System(counter, s.table[AsInt(counter) := NewPlayer(AsInt(counter), source, mode, made)])
    case Close(id) => s.(table := s.table - {id})
    case Play(id, urlOk, secure, works) =>
      if id in s.table && urlOk then s.(table := PlayOn(s.table, id, secure, works)) else s
    case _ =>
      if step.id in s.table then s.(table := s.table[step.id := Then(s.table[step.id], step)]) else s
  }

  function Final(s: System, steps: seq<Step>): System
    decreases |steps|
  {
    if steps == [] then s else Final(Do(s, steps[0]), steps[1..])
  }

  // ---------------------------------------------------------------------------------
  // What every step keeps
  // ---------------------------------------------------------------------------------

  predicate Sane(p: Player) {
    && p.state != PLAYBACKERROR
    && (p.pipe.Pipeline? && p.pipe.target == Null ==> p.pipe == FRESH)
    && (p.FromApp() || p.client == NoClient)
    && (p.isPaused ==> !p.FromApp())
    && (p.state == PLAYING && p.pipe == NoPipeline ==> p.FromApp())
  }

  predicate Kept(t: Table, k: int)
    requires k in t
  {
    t[k].id == k && Sane(t[k])
  }

  // At most one session of each mode holds on to its hardware.
  predicate Exclusive(t: Table) {
    forall j, k :: j in t && k in t && t[j].mode == t[k].mode && t[j].Holds() && t[k].Holds() ==> j == k
  }

  predicate Invariant(t: Table) {
    (forall k :: k in t ==> Kept(t, k)) && Exclusive(t)
  }

  // q is p, a step later; it holds on only if p did.
  predicate Follows(p: Player, q: Player) {
    q.id == p.id && q.mode == p.mode && q.source == p.source && Sane(q) && (q.Holds() ==> p.Holds())
  }

  lemma StopFollows(p: Player, works: bool)
    requires Sane(p)
    ensures Follows(p, p.Stopped(works)) && !p.Stopped(works).Holds()
    ensures Follows(p, p.(state := PLAYBACKERROR).Stopped(works)) && !p.(state := PLAYBACKERROR).Stopped(works).Holds()
    ensures Follows(p, p.(firstPacket := true).Stopped(works))
  {
  }

  lemma ChangeFollows(p: Player, from: Gst, to: Gst, works: bool)
    requires Sane(p) && p.pipe.Pipeline? && p.pipe.target != Null
    ensures Follows(p, p.Handled(Changed(from, to), works))
  {
  }

  lemma DeliverFollows(p: Player, works: bool)
    requires Sane(p)
    ensures Follows(p, p.Delivered(works))
  {
    if p.pipe.Pipeline? && p.pipe.bus != [] {
      var q := p.(pipe := p.pipe.(bus := p.pipe.bus[1..]));
      assert Sane(q) && q.pipe.target != Null;
      if p.pipe.bus[0].Changed? {
        ChangeFollows(q, p.pipe.bus[0].from, p.pipe.bus[0].to, works);
      } else {
        StopFollows(q, works);
      }
      assert Follows(q, q.Handled(p.pipe.bus[0], works));
    }
  }

  lemma ThenFollows(p: Player, step: Step)
    requires Sane(p) && OnOne(step)
    ensures Follows(p, Then(p, step))
  {
    if step.Stop? {
      StopFollows(p, step.made);
    } else if step.Deliver? {
      DeliverFollows(p, step.made);
    }
  }

  // Every session of t' is one of t, a step later.
  predicate AllFollow(t: Table, t': Table) {
    t'.Keys <= t.Keys && forall k :: k in t' ==> Follows(t[k], t'[k])
  }

  lemma FollowKeeps(t: Table, t': Table)
    requires Invariant(t) && AllFollow(t, t')
    ensures Invariant(t')
  {
    forall k | k in t' ensures Kept(t', k) {
      assert Kept(t, k) && Follows(t[k], t'[k]);
    }
    forall j, k | j in t' && k in t' && t'[j].mode == t'[k].mode && t'[j].Holds() && t'[k].Holds() ensures j == k {
      assert Follows(t[j], t'[j]) && Follows(t[k], t'[k]);
    }
  }

  // What SameModeNotPlaying makes of session k.
  predicate StoppedOrSame(t: Table, t': Table, k: int, id: int, works: set<int>)
    requires k in t && k in t' && id in t
  {
    t'[k] == t[k] || (Mate(t, k, id) && !t[k].IsPlaying() && t'[k] == t[k].Stopped(k in works))
  }

  /**
   SameModeNotPlaying refuses exactly when a session of the mode is playing and names one; otherwise
   it stops them all.
   */
  lemma {:induction false} SameModeOutcome(t: Table, todo: set<int>, id: int, works: set<int>)
    requires todo <= t.Keys && id in t
    ensures var (t', answer) := SameMode(t, todo, id, works);
      && t'.Keys == t.Keys
      && (forall k :: k in t' ==> StoppedOrSame(t, t', k, id, works))
      && (forall k :: k in t' && k !in todo ==> t'[k] == t[k])
      && (answer.Held? <==> exists k :: k in todo && Mate(t, k, id) && t[k].IsPlaying())
      && (answer.Held? ==> answer.holder in todo && Mate(t, answer.holder, id) && t[answer.holder].IsPlaying()
                           && t'[answer.holder] == t[answer.holder])
      && (answer.Granted? ==> forall k :: k in todo && Mate(t, k, id) ==> t'[k] == t[k].Stopped(k in works))
    decreases |todo|
  {
    if todo != {} {
      var k := Least(todo);
      if !Mate(t, k, id) {
        SameModeOutcome(t, todo - {k}, id, works);
      } else if !t[k].IsPlaying() {
        var t1 := t[k := t[k].Stopped(k in works)];
        SameModeOutcome(t1, todo - {k}, id, works);
        assert forall j :: j in t && j != k ==> t1[j] == t[j] && Mate(t1, j, id) == Mate(t, j, id);
        var (t', answer) := SameMode(t1, todo - {k}, id, works);
        forall j | j in t' ensures StoppedOrSame(t, t', j, id, works) {
          assert StoppedOrSame(t1, t', j, id, works);
        }
        if answer.Held? {
          assert answer.holder in todo && Mate(t, answer.holder, id) && t[answer.holder].IsPlaying();
        }
      }
    }
  }

  // ---------------------------------------------------------------------------------
  // Play
  // ---------------------------------------------------------------------------------

  lemma StoppedFollow(t: Table, t': Table, id: int, works: set<int>)
    requires Invariant(t) && id in t && t'.Keys == t.Keys
    requires forall k :: k in t' ==> StoppedOrSame(t, t', k, id, works)
    ensures AllFollow(t, t')
  {
    forall k | k in t' ensures Follows(t[k], t'[k]) {
      assert Kept(t, k) && StoppedOrSame(t, t', k, id, works);
      StopFollows(t[k], k in works);
    }
  }

  // An accepted Play: session id may use the hardware of its mode, its mates may not.
  predicate TookOver(t: Table, t': Table, id: int, works: set<int>)
    requires id in t && id in t' && t'.Keys == t.Keys
  {
    && (t[id].pipe.Pipeline? ==> t'[id].pipe.Pipeline? && t'[id].pipe == Pipeline(Playing, Null, []))
    && (forall k :: k in t && Mate(t, k, id) ==> !t'[k].Holds() && t'[k] == t[k].Stopped(k in works))
    && (forall k :: k in t && k != id && !Mate(t, k, id) ==> t'[k] == t[k])
  }

  // A refused Play: the holder and all other active sessions are as they were.
  predicate LeftAlone(t: Table, t': Table, id: int, holder: int)
    requires id in t && t'.Keys == t.Keys
  {
    && holder in t && Mate(t, holder, id) && t[holder].IsPlaying()
    && (forall k :: k in t && t[k].mode == t[id].mode && t[k].Holds() ==> k == holder)
    && (forall k :: k in t && t[k].Holds() ==> t'[k] == t[k])
    && (forall k :: k in t && !t[k].Holds() ==> !t'[k].Holds())
    && t'[id] == t[id]
  }

  lemma PlayedSane(p: Player, secure: bool, works: bool)
    requires Sane(p)
    ensures Sane(p.Played(secure, works)) && p.Played(secure, works).id == p.id
        && p.Played(secure, works).mode == p.mode
    ensures p.pipe.Pipeline? ==> p.Played(secure, works).pipe == Pipeline(Playing, Null, [])
  {
  }

  /**
   Play is refused exactly when another session of the mode is playing. The refusal names
   that session, which is the only active one of the mode, and changes nothing about it.
   An accepted Play stops every other session of the mode and starts this one.
   */
  lemma PlayOutcome(t: Table, id: int, secure: bool, works: set<int>)
    requires Invariant(t) && id in t
    ensures var t', answer := PlayOn(t, id, secure, works), SameMode(t, t.Keys, id, works).1;
      && t'.Keys == t.Keys && Invariant(t')
      && (answer.Held? <==> exists k :: k in t && Mate(t, k, id) && t[k].IsPlaying())
      && (answer.Granted? ==> TookOver(t, t', id, works))
      && (answer.Held? ==> LeftAlone(t, t', id, answer.holder))
  {
    SameModeOutcome(t, t.Keys, id, works);
    var (t1, answer) := SameMode(t, t.Keys, id, works);
    StoppedFollow(t, t1, id, works);
    FollowKeeps(t, t1);
    assert StoppedOrSame(t, t1, id, id, works) && t1[id] == t[id];
    if answer.Granted? {
      TakeOver(t, t1, id, secure, works);
    } else {
      LeaveAlone(t, t1, id, works, answer.holder);
    }
  }

  lemma TakeOver(t: Table, t1: Table, id: int, secure: bool, works: set<int>)
    requires Invariant(t) && Invariant(t1) && id in t && t1.Keys == t.Keys && t1[id] == t[id]
    requires forall k :: k in t1 ==> StoppedOrSame(t, t1, k, id, works)
    requires forall k :: k in t && Mate(t, k, id) ==> t1[k] == t[k].Stopped(k in works)
    ensures var t' := t1[id := t1[id].Played(secure, id in works)];
      t'.Keys == t.Keys && Invariant(t') && TookOver(t, t', id, works)
  {
    var t' := t1[id := t1[id].Played(secure, id in works)];
    assert Kept(t1, id);
    PlayedSane(t1[id], secure, id in works);
    forall k | k in t && Mate(t, k, id) ensures !t'[k].Holds() && t'[k] == t[k].Stopped(k in works) {
      assert Kept(t, k);
      StopFollows(t[k], k in works);
    }
    forall k | k in t && k != id && !Mate(t, k, id) ensures t'[k] == t[k] {
      assert StoppedOrSame(t, t1, k, id, works);
    }
    forall k | k in t' ensures Kept(t', k) {
      assert Kept(t1, k);
    }
    forall k | k in t && k != id && t'[k].mode == t'[id].mode ensures !t'[k].Holds() {
      assert StoppedOrSame(t, t1, k, id, works);
      assert Mate(t, k, id);
    }
    OneMore(t1, t', id);
  }

  // Changing one session keeps the modes exclusive when its mates are inactive.
  lemma OneMore(t: Table, t': Table, id: int)
    requires Exclusive(t) && id in t' && t'.Keys == t.Keys
    requires forall k :: k in t && k != id ==> t'[k] == t[k]
    requires forall k :: k in t && k != id && t'[k].mode == t'[id].mode ==> !t'[k].Holds()
    ensures Exclusive(t')
  {
  }

  lemma LeaveAlone(t: Table, t': Table, id: int, works: set<int>, holder: int)
    requires Invariant(t) && id in t && t'.Keys == t.Keys && t'[id] == t[id]
    requires forall k :: k in t' ==> StoppedOrSame(t, t', k, id, works)
    requires holder in t && Mate(t, holder, id) && t[holder].IsPlaying() && t'[holder] == t[holder]
    ensures LeftAlone(t, t', id, holder)
  {
    assert Kept(t, holder);
    forall k | k in t && t[k].Holds() ensures t'[k] == t[k] {
      assert Kept(t, k) && StoppedOrSame(t, t', k, id, works);
      assert Mate(t, k, id) ==> k == holder;
    }
    forall k | k in t && !t[k].Holds() ensures !t'[k].Holds() {
      assert Kept(t, k) && StoppedOrSame(t, t', k, id, works);
      StopFollows(t[k], k in works);
    }
  }

  // ---------------------------------------------------------------------------------
  // Runs
  // ---------------------------------------------------------------------------------

  lemma StepKeeps(s: System, step: Step)
    requires Invariant(s.table)
    ensures Invariant(Do(s, step).table)
  {
    var t, t' := s.table, Do(s, step).table;
    if step.Open? {
      var id := AsInt(NextId(s.counter));
      assert Sane(t'[id]) && !t'[id].Holds();
      forall k | k in t' ensures Kept(t', k) {
        assert k != id ==> Kept(t, k);
      }
    } else if step.Play? {
      if step.id in t && step.urlOk {
        PlayOutcome(t, step.id, step.secure, step.works);
      }
    } else {
      forall k | k in t' ensures Follows(t[k], t'[k]) {
        assert Kept(t, k);
        if OnOne(step) && k == step.id {
          ThenFollows(t[k], step);
        }
      }
      FollowKeeps(t, t');
    }
  }

  lemma {:induction false} RunKeeps(s: System, steps: seq<Step>)
    requires Invariant(s.table)
    ensures Invariant(Final(s, steps).table)
    decreases |steps|
  {
    if steps != [] {
      StepKeeps(s, steps[0]);
      RunKeeps(Do(s, steps[0]), steps[1..]);
    }
  }

  /**
   In every run the sessions of a mode never share their hardware: two that are active, or say they
   are playing, are one.
   */
  lemma OneActivePerMode(steps: seq<Step>, j: int, k: int)
    requires var t := Final(START, steps).table;
      && j in t && k in t && t[j].mode == t[k].mode
      && (t[j].Active() || t[j].IsPlaying()) && (t[k].Active() || t[k].IsPlaying())
    ensures j == k
  {
    RunKeeps(START, steps);
    assert Exclusive(Final(START, steps).table);
  }

  // Once its first packet is through, the session says it is playing though its pipeline is idle.
  predicate Phantom(p: Player) {
    p.Fed().IsPlaying() && !p.Fed().Active()
  }

  // Smart volume control, switched on, rebuilds the pipeline of a session that has reached PLAYING
  // but does not count as playing yet.
  predicate Harms(t: Table, step: Step) {
    && step.SetSmartVolControl? && step.enable && step.made && step.id in t
    && t[step.id].state == PLAYING && !t[step.id].IsPlaying()
  }

  lemma ThenPhantom(p: Player, step: Step)
    requires Sane(p) && OnOne(step) && !Phantom(p)
    ensures Phantom(Then(p, step)) <==>
      step.SetSmartVolControl? && step.enable && step.made && p.state == PLAYING && !p.IsPlaying()
  {
    if step.Stop? {
      StopFollows(p, step.made);
    } else if step.Deliver? {
      DeliverNoPhantom(p, step.made);
    } else if step.SetSmartVolControl? {
      SmartVolumePhantom(p, step.enable, step.made);
    } else {
      OtherNoPhantom(p, step);
    }
  }

  lemma SmartVolumePhantom(p: Player, enable: bool, made: bool)
    requires Sane(p) && !Phantom(p)
    ensures Phantom(p.SmartVolume(enable, made)) <==> enable && made && p.state == PLAYING && !p.IsPlaying()
  {
  }

  lemma OtherNoPhantom(p: Player, step: Step)
    requires Sane(p) && OnOne(step) && !Phantom(p) && !step.Stop? && !step.Deliver? && !step.SetSmartVolControl?
    ensures !Phantom(Then(p, step))
  {
  }

  lemma DeliverNoPhantom(p: Player, works: bool)
    requires Sane(p) && !Phantom(p)
    ensures !Phantom(p.Delivered(works))
  {
    if p.pipe.Pipeline? && p.pipe.bus != [] {
      var q := p.(pipe := p.pipe.(bus := p.pipe.bus[1..]));
      StopFollows(q, works);
    }
  }

  predicate NoPhantoms(t: Table) {
    forall k :: k in t ==> !Phantom(t[k])
  }

  lemma PlayNoPhantoms(t: Table, id: int, secure: bool, works: set<int>)
    requires Invariant(t) && NoPhantoms(t) && id in t
    ensures NoPhantoms(PlayOn(t, id, secure, works))
  {
    SameModeOutcome(t, t.Keys, id, works);
    var (t1, answer) := SameMode(t, t.Keys, id, works);
    forall k | k in t1 ensures !Phantom(t1[k]) {
      assert Kept(t, k) && StoppedOrSame(t, t1, k, id, works);
      StopFollows(t[k], k in works);
    }
    assert Kept(t, id) && StoppedOrSame(t, t1, id, id, works);
    PlayedNoPhantom(t[id], secure, id in works);
  }

  lemma PlayedNoPhantom(p: Player, secure: bool, works: bool)
    requires Sane(p) && !Phantom(p)
    ensures !Phantom(p.Played(secure, works))
  {
  }

  lemma StepPhantoms(s: System, step: Step)
    requires Invariant(s.table) && NoPhantoms(s.table)
    ensures NoPhantoms(Do(s, step).table) <==> !Harms(s.table, step)
  {
    if step.Play? && step.id in s.table && step.urlOk {
      PlayNoPhantoms(s.table, step.id, step.secure, step.works);
    } else if OnOne(step) && step.id in s.table {
      assert Kept(s.table, step.id);
      ThenPhantom(s.table[step.id], step);
      assert Do(s, step).table[step.id] == Then(s.table[step.id], step);
    }
  }

  predicate Harmless(s: System, steps: seq<Step>)
    decreases |steps|
  {
    steps == [] || (!Harms(s.table, steps[0]) && Harmless(Do(s, steps[0]), steps[1..]))
  }

  // At no time of the run is a session a phantom.
  predicate NeverPhantom(s: System, steps: seq<Step>)
    decreases |steps|
  {
    NoPhantoms(s.table) && (steps == [] || NeverPhantom(Do(s, steps[0]), steps[1..]))
  }

  lemma {:induction false} PhantomsExactlyFrom(s: System, steps: seq<Step>)
    requires Invariant(s.table) && NoPhantoms(s.table)
    ensures NeverPhantom(s, steps) <==> Harmless(s, steps)
    decreases |steps|
  {
    if steps != [] {
      StepKeeps(s, steps[0]);
      StepPhantoms(s, steps[0]);
      if !Harms(s.table, steps[0]) {
        PhantomsExactlyFrom(Do(s, steps[0]), steps[1..]);
      }
    }
  }

  /**
   A run keeps clear of phantoms if and only if smart volume control never rebuilds the
   pipeline of a session that has reached PLAYING and does not count as playing yet.
   */
  lemma PhantomsExactly(steps: seq<Step>)
    ensures NeverPhantom(START, steps) <==> Harmless(START, steps)
  {
    PhantomsExactlyFrom(START, steps);
  }

  lemma {:induction false} NoPhantomInTheEnd(s: System, steps: seq<Step>)
    requires NeverPhantom(s, steps)
    ensures NoPhantoms(Final(s, steps).table)
    decreases |steps|
  {
    if steps != [] {
      NoPhantomInTheEnd(Do(s, steps[0]), steps[1..]);
    }
  }

  /** And then a session that says it is playing has a pipeline that was asked to. */
  lemma PlayingMeansAsked(steps: seq<Step>, k: int)
    requires Harmless(START, steps) && k in Final(START, steps).table && Final(START, steps).table[k].IsPlaying()
    ensures Final(START, steps).table[k].Active()
  {
    PhantomsExactly(steps);
    NoPhantomInTheEnd(START, steps);
    assert !Phantom(Final(START, steps).table[k]);
  }

  lemma {:induction false} FinalSnoc(s: System, steps: seq<Step>, step: Step)
    ensures Final(s, steps + [step]) == Do(Final(s, steps), step)
    decreases |steps|
  {
    if steps == [] {
      assert [] + [step] == [step] && [step][1..] == [];
    } else {
      assert (steps + [step])[0] == steps[0] && (steps + [step])[1..] == steps[1..] + [step];
      FinalSnoc(Do(s, steps[0]), steps[1..], step);
    }
  }

  lemma OneMoreStep(steps: seq<Step>, p: Player, step: Step) returns (longer: seq<Step>)
    requires Final(START, steps) == System(1, map[1 := p]) && OnOne(step) && step.id == 1
    ensures longer == steps + [step] && Final(START, longer) == System(1, map[1 := Then(p, step)])
  {
    longer := steps + [step];
    FinalSnoc(START, steps, step);
    assert map[1 := p][1 := Then(p, step)] == map[1 := Then(p, step)];
  }

  lemma OpenAndPlay() returns (steps: seq<Step>, p: Player)
    ensures p == NewPlayer(1, WEBSOCKET, SYSTEM, true).Played(false, true)
    ensures Final(START, steps) == System(1, map[1 := p])
  {
    var open, play := Open(WEBSOCKET, SYSTEM, true), Play(1, true, false, {1});
    var p0 := NewPlayer(1, WEBSOCKET, SYSTEM, true);
    p := p0.Played(false, true);
    steps := [open] + [play];
    FinalSnoc(START, [], open);
    FinalSnoc(START, [open], play);
    assert [] + [open] == [open];
    var t: Table := map[1 := p0];
    assert Final(START, [open]) == System(1, t);
    assert t.Keys == {1};
    SameModeOutcome(t, t.Keys, 1, {1});
    var (t1, answer) := SameMode(t, t.Keys, 1, {1});
    assert StoppedOrSame(t, t1, 1, 1, {1});
    assert answer == Granted && t1 == t;
    assert t1[1 := p] == map[1 := p];
  }

  // Its pipeline plays, the socket is open, and nothing has come through it yet.
  lemma PlayingUnheard() returns (steps: seq<Step>, p: Player)
    ensures p.pipe.Pipeline? && p.state == PLAYING && p.firstPacket && !p.isPaused && p.source == WEBSOCKET
    ensures Final(START, steps) == System(1, map[1 := p])
  {
    steps, p := OpenAndPlay();
    var move, deliver := Move(1), Deliver(1, true);
    steps := OneMoreStep(steps, p, move);
    p := Then(p, move);
    steps := OneMoreStep(steps, p, move);
    p := Then(p, move);
    steps := OneMoreStep(steps, p, move);
    p := Then(p, move);
    assert p.pipe == Pipeline(Playing, Playing,
        [Changed(Null, Ready), Changed(Ready, Paused), Changed(Paused, Playing)]);
    steps := OneMoreStep(steps, p, deliver);
    p := Then(p, deliver);
    assert p.pipe.bus == [Changed(Ready, Paused), Changed(Paused, Playing)];
    steps := OneMoreStep(steps, p, deliver);
    p := Then(p, deliver);
    assert p.pipe.bus == [Changed(Paused, Playing)];
    steps := OneMoreStep(steps, p, deliver);
    p := Then(p, deliver);
  }

  /**
   With it, a websocket session whose pipeline is idle can say it is playing, and keep its mode from
   everyone else.
   */
  lemma SmartVolumeLeavesAPhantom() returns (steps: seq<Step>)
    ensures var t := Final(START, steps).table; 1 in t && t[1].IsPlaying() && !t[1].Active()
  {
    var p: Player;
    steps, p := PlayingUnheard();
    var smart, feed := SetSmartVolControl(1, true, true), Feed(1);
    steps := OneMoreStep(steps, p, smart);
    steps := OneMoreStep(steps, Then(p, smart), feed);
  }

  // Nothing in the run plays session id or opens a new one under its identifier.
  predicate NeverPlayed(s: System, steps: seq<Step>, id: int)
    decreases |steps|
  {
    steps == [] ||
    (&& !(steps[0].Play? && steps[0].id == id)
     && !(steps[0].Open? && AsInt(NextId(s.counter)) == id)
     && NeverPlayed(Do(s, steps[0]), steps[1..], id))
  }

  /** A session that is not active, as one that another Play stopped, cannot play or resume until it is played again. */
  lemma {:induction false} InactiveUntilPlayed(s: System, steps: seq<Step>, id: int)
    requires Invariant(s.table) && NeverPlayed(s, steps, id)
    requires id in s.table ==> !s.table[id].Holds()
    ensures var t := Final(s, steps).table;
      id in t ==> !t[id].Holds() && !t[id].IsPlaying() && !t[id].CanResume() && t[id].ResumedBy() == t[id]
    decreases |steps|
  {
    if steps == [] {
      assert id in s.table ==> Kept(s.table, id);
    } else {
      var s' := Do(s, steps[0]);
      StepKeeps(s, steps[0]);
      StaysInactive(s, steps[0], id);
      InactiveUntilPlayed(s', steps[1..], id);
    }
  }

  lemma StaysInactive(s: System, step: Step, id: int)
    requires Invariant(s.table) && !(step.Play? && step.id == id) && !(step.Open? && AsInt(NextId(s.counter)) == id)
    requires id in s.table ==> !s.table[id].Holds()
    ensures id in Do(s, step).table ==> !Do(s, step).table[id].Holds()
  {
    if step.Play? && step.id in s.table && step.urlOk {
      PlayOutcome(s.table, step.id, step.secure, step.works);
    } else if id in s.table && OnOne(step) && step.id == id {
      assert Kept(s.table, id);
      ThenFollows(s.table[id], step);
    }
  }

  /** A paused session that another one of its mode takes over from is stopped: Resume does nothing any more. */
  lemma PreemptedCannotResume(s: System, play: Step, id: int, steps: seq<Step>)
    requires Invariant(s.table) && play.Play? && play.urlOk && id in s.table && play.id in s.table
        && Mate(s.table, id, play.id)
    requires SameMode(s.table, s.table.Keys, play.id, play.works).1 == Granted
    requires NeverPlayed(Do(s, play), steps, id)
    ensures var t := Final(Do(s, play), steps).table; id in t ==> !t[id].CanResume() && !t[id].IsPlaying()
  {
    PlayOutcome(s.table, play.id, play.secure, play.works);
    StepKeeps(s, play);
    InactiveUntilPlayed(Do(s, play), steps, id);
  }
}
