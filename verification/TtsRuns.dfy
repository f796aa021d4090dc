/**
 What any sequence of calls of the text-to-speech manager leaves in force, told from the calls
 alone, and what is restored from the store after a restart.
 */
module TtsRuns {

  import opened Wrappers
  import opened TtsManager

  // ---------------------------------------------------------------------------------
  // One call
  // ---------------------------------------------------------------------------------

  predicate SameText(c: Config, c': Config) {
    c'.data.scenario == c.data.scenario && c'.data.text == c.data.text
  }

  // A configuration call leaves alone what only other calls set.
  lemma ConfiguredKeeps(others: Voices, m: Manager, r: Request)
    ensures var m' := Configured(others, m, r).0;
      SameOtherwise(m.config, m'.config) && SameText(m.config, m'.config) && m'.force == m.force
  {
    var c1 := WithEndPoints(m.config, r);
    EndPointsKeep(m.config, r);
    VoiceStage(others, c1, r);
    if Configured(others, m, r).1 == TTS_OK {
      OkTakesEffect(others, m, r);
      var c2, c3, c, updated := OkPath(others, m, r);
      StagesTake(others, m.config, r, c2, c3);
      LevelsKeepTheRest(c3, r);
      FinishKeeps(others, m, c, m.needsStore || updated);
    }
  }

  predicate OnThisHost(url: string) {
    "http://127.0.0.1:50050/" <= url || "http://localhost:50050/" <= url
  }

  // The endpoints of a request, and the local one out of use once the secure one is on this host.
  predicate EndPointsTaken(c: Config, c': Config, r: Request) {
    && c'.endPoint == (if r.endPoint == "" then c.endPoint else r.endPoint)
    && c'.secureEndPoint == (if r.secureEndPoint == "" then c.secureEndPoint else r.secureEndPoint)
    && (c'.validLocalEndpoint <==>
        && c.validLocalEndpoint
        && ((c'.endPoint == c.endPoint && c'.secureEndPoint == c.secureEndPoint) || !OnThisHost(c'.secureEndPoint)))
  }

  lemma StageEndPoints(c: Config, r: Request)
    ensures EndPointsTaken(c, WithEndPoints(c, r), r)
  {
  }

  lemma LevelsKeepEndPoints(c: Config, r: Request)
    ensures var c' := WithLevels(c, r);
      c'.endPoint == c.endPoint && c'.secureEndPoint == c.secureEndPoint
          && c'.validLocalEndpoint == c.validLocalEndpoint
  {
    if r.Device? {
      var c1 := SetUtteranceVolume(c, r.volume);
      assert c1 == c.(utteranceVolume := c1.utteranceVolume);
    } else {
      var c1 := SetVolume(c, r.volume);
      assert c1 == c.(volume := c1.volume);
    }
  }

  /** A configuration call takes the endpoints it was given also when it fails. */
  lemma EndPointsTakenAnyway(others: Voices, m: Manager, r: Request)
    ensures EndPointsTaken(m.config, Configured(others, m, r).0.config, r)
  {
    var c1 := WithEndPoints(m.config, r);
    StageEndPoints(m.config, r);
    VoiceStage(others, c1, r);
    if Configured(others, m, r).1 == TTS_OK {
      var c2, c3, c, updated := OkPath(others, m, r);
      LocalVoiceKeeps(others, c2, c2.language != c1.language);
      LevelsKeepEndPoints(c3, r);
      FinishKeeps(others, m, c, m.needsStore || updated);
    }
  }

  lemma ConfiguredEvents(others: Voices, m: Manager, r: Request)
    ensures Configured(others, m, r).0.events == m.events
        || exists v :: Configured(others, m, r).0.events == m.events + [VoiceChanged(v)]
  {
  }

  predicate Takes(m: Manager, call: Call) {
    match call
    case EnableTTS(_) => !m.force
    case SetConfiguration(_) => true
    case SetFallbackText(d) => d.scenario != "" && d.text != ""
    case SetPrimaryVolDuck(prim) => prim <= 100
    case SetAPIKey(key) => key != ""
  }

  lemma CallEffect(others: Voices, m: Manager, call: Call)
    ensures var m' := Apply(others, m, call).0;
      && m'.config.enabled == (if call.EnableTTS? && Takes(m, call) then call.enable else m.config.enabled)
      && m'.config.primVolDuck
         == (if call.SetPrimaryVolDuck? && Takes(m, call) then call.prim else m.config.primVolDuck)
      && m'.config.apiKey == (if call.SetAPIKey? && Takes(m, call) then call.apikey else m.config.apiKey)
      && (if call.SetFallbackText? && Takes(m, call)
          then m'.config.data.scenario == call.data.scenario && m'.config.data.text == call.data.text
          else SameText(m.config, m'.config))
      && m'.force == (m.force && !call.EnableTTS?)
  {
    if call.SetConfiguration? {
      ConfiguredKeeps(others, m, call.request);
    }
  }

  // ---------------------------------------------------------------------------------
  // Any calls
  // ---------------------------------------------------------------------------------

  lemma {:induction false} AfterSnoc(others: Voices, m: Manager, calls: seq<Call>, call: Call)
    ensures After(others, m, calls + [call]) == Apply(others, After(others, m, calls), call).0
    decreases |calls|
  {
    if calls == [] {
      assert [] + [call] == [call] && [call][1..] == [];
    } else {
      assert (calls + [call])[0] == calls[0] && (calls + [call])[1..] == calls[1..] + [call];
      AfterSnoc(others, Apply(others, m, calls[0]).0, calls[1..], call);
    }
  }

  predicate SomeEnable(calls: seq<Call>) {
    exists i :: 0 <= i < |calls| && calls[i].EnableTTS?
  }

  // The last enableTTS of the calls.
  predicate LastEnable(calls: seq<Call>, i: nat) {
    i < |calls| && calls[i].EnableTTS? && forall j :: i < j < |calls| ==> !calls[j].EnableTTS?
  }

  // What is in force is in the store, once there has been an enableTTS.
  predicate Recorded(m: Manager, m': Manager, calls: seq<Call>) {
    && m'.force == (m.force && !SomeEnable(calls))
    && (!m'.force && m.force ==> m'.store.Some? && m'.store.value.enabled == m'.config.enabled)
  }

  lemma CallStores(others: Voices, m: Manager, call: Call)
    requires !m.force ==> m.store.Some? && m.store.value.enabled == m.config.enabled
    ensures var m' := Apply(others, m, call).0;
      !m'.force ==> m'.store.Some? && m'.store.value.enabled == m'.config.enabled
  {
    CallEffect(others, m, call);
    if call.SetConfiguration? {
      ConfiguredStores(others, m, call.request);
    }
  }

  lemma ConfiguredStores(others: Voices, m: Manager, r: Request)
    ensures var m' := Configured(others, m, r).0; m'.store == m.store || m'.store == Some(Persisted(others, m'.config))
  {
  }

  lemma {:induction false} RunRecords(others: Voices, m: Manager, calls: seq<Call>)
    requires m.force
    ensures Recorded(m, After(others, m, calls), calls)
    decreases |calls|
  {
    if calls != [] {
      var n := |calls| - 1;
      var m1 := After(others, m, calls[..n]);
      RunRecords(others, m, calls[..n]);
      AfterSnoc(others, m, calls[..n], calls[n]);
      assert calls == calls[..n] + [calls[n]];
      CallEffect(others, m1, calls[n]);
      CallStores(others, m1, calls[n]);
      assert SomeEnable(calls) <==> SomeEnable(calls[..n]) || calls[n].EnableTTS? by {
        if SomeEnable(calls[..n]) {
          var i :| 0 <= i < n && calls[..n][i].EnableTTS?;
          assert calls[i].EnableTTS?;
        }
        if SomeEnable(calls) && !calls[n].EnableTTS? {
          var i :| 0 <= i < |calls| && calls[i].EnableTTS?;
          assert calls[..n][i].EnableTTS?;
        }
      }
    }
  }

  lemma {:induction false} NothingElseEnables(others: Voices, m: Manager, calls: seq<Call>)
    requires forall call :: call in calls ==> !call.EnableTTS?
    ensures After(others, m, calls).config.enabled == m.config.enabled
    decreases |calls|
  {
    if calls != [] {
      CallEffect(others, m, calls[0]);
      assert forall call :: call in calls[1..] ==> call in calls;
      NothingElseEnables(others, Apply(others, m, calls[0]).0, calls[1..]);
    }
  }

  lemma {:induction false} AfterBoth(others: Voices, m: Manager, a: seq<Call>, b: seq<Call>)
    ensures After(others, m, a + b) == After(others, After(others, m, a), b)
    decreases |a|
  {
    if a == [] {
      assert a + b == b;
    } else {
      assert (a + b)[0] == a[0] && (a + b)[1..] == a[1..] + b;
      AfterBoth(others, Apply(others, m, a[0]).0, a[1..], b);
    }
  }

  /**
   After any calls, failed ones included, speech is enabled if and only if the last enableTTS said so,
   and the store says the same; but the very first enableTTS only stores what was in force before.
   */
  lemma EnabledAsLastAsked(others: Voices, m: Manager, calls: seq<Call>, i: nat)
    requires m.force && LastEnable(calls, i)
    ensures var m' := After(others, m, calls);
      && m'.config.enabled == (if SomeEnable(calls[..i]) then calls[i].enable else m.config.enabled)
      && m'.store.Some? && m'.store.value.enabled == m'.config.enabled
  {
    var asked := calls[..i + 1];
    EnabledAtOnce(others, m, calls[..i], calls[i]);
    assert asked == calls[..i] + [calls[i]] && calls == asked + calls[i + 1..];
    AfterBoth(others, m, asked, calls[i + 1..]);
    NothingElseEnables(others, After(others, m, asked), calls[i + 1..]);
    RunRecords(others, m, calls);
  }

  // Right after an enableTTS.
  lemma EnabledAtOnce(others: Voices, m: Manager, before: seq<Call>, call: Call)
    requires m.force && call.EnableTTS?
    ensures After(others, m, before + [call]).config.enabled
         == if SomeEnable(before) then call.enable else m.config.enabled
  {
    RunRecords(others, m, before);
    CallEffect(others, After(others, m, before), call);
    AfterSnoc(others, m, before, call);
    if !SomeEnable(before) {
      NothingElseEnables(others, m, before);
    }
  }

  /**
   From the second one on an enableTTS tells of its argument if and only if that is not in force
   already, and otherwise tells nothing. The first one always tells, of what is in force.
   */
  lemma EnableTellsOfAChange(others: Voices, m: Manager, calls: seq<Call>, enable: bool)
    requires m.force
    ensures var m1 := After(others, m, calls);
      var m2 := After(others, m, calls + [EnableTTS(enable)]);
      m2.events == m1.events + (if !SomeEnable(calls) then [StateChanged(m1.config.enabled)]
          else if enable != m1.config.enabled then [StateChanged(enable)] else [])
  {
    var m1 := After(others, m, calls);
    RunRecords(others, m, calls);
    AfterSnoc(others, m, calls, EnableTTS(enable));
    assert m1.events + [] == m1.events;
  }

  /** No other call tells of a change of state. */
  lemma OthersTellNoState(others: Voices, m: Manager, call: Call, e: bool)
    requires !call.EnableTTS?
    ensures multiset(Apply(others, m, call).0.events)[StateChanged(e)] == multiset(m.events)[StateChanged(e)]
  {
    if call.SetConfiguration? {
      ConfiguredEvents(others, m, call.request);
    }
  }

  // ---------------------------------------------------------------------------------
  // The other settings
  // ---------------------------------------------------------------------------------

  // Call i is the last one that sets the duck volume, the key or the fallback text and is taken.
  predicate LastDuck(calls: seq<Call>, i: nat) {
    && i < |calls| && calls[i].SetPrimaryVolDuck? && calls[i].prim <= 100
    && forall j :: i < j < |calls| && calls[j].SetPrimaryVolDuck? ==> calls[j].prim > 100
  }

  predicate LastKey(calls: seq<Call>, i: nat) {
    && i < |calls| && calls[i].SetAPIKey? && calls[i].apikey != ""
    && forall j :: i < j < |calls| && calls[j].SetAPIKey? ==> calls[j].apikey == ""
  }

  predicate LastText(calls: seq<Call>, i: nat) {
    && i < |calls| && calls[i].SetFallbackText? && calls[i].data.scenario != "" && calls[i].data.text != ""
    && forall j :: i < j < |calls| && calls[j].SetFallbackText? ==>
      calls[j].data.scenario == "" || calls[j].data.text == ""
  }

  /** The duck volume, the key and the fallback text are those of the last call that gave usable ones. */
  lemma {:induction false} SettingsAsLastGiven(others: Voices, m: Manager, calls: seq<Call>, i: nat)
    ensures var c := After(others, m, calls).config;
      && (LastDuck(calls, i) ==> c.primVolDuck == calls[i].prim)
      && (LastKey(calls, i) ==> c.apiKey == calls[i].apikey)
      && (LastText(calls, i) ==> c.data.scenario == calls[i].data.scenario && c.data.text == calls[i].data.text)
    decreases |calls|
  {
    if calls != [] {
      var n := |calls| - 1;
      assert calls == calls[..n] + [calls[n]];
      AfterSnoc(others, m, calls[..n], calls[n]);
      CallEffect(others, After(others, m, calls[..n]), calls[n]);
      SettingsAsLastGiven(others, m, calls[..n], i);
    }
  }

  // ---------------------------------------------------------------------------------
  // Restart
  // ---------------------------------------------------------------------------------

  // _readFromFile, into the configuration of a new process.
  function Loaded(c: Config, store: Option<Stored>): Config {
    if store == None then c else
      var st := store.value;
      var c1 := SetRate(SetVolume(SetEnabled(c, st.enabled), st.volume), st.rate % 256);
      var c2 := SetPrimVolDuck(SetSpeechRate(c1, st.speechRate), st.primVolDuck % 256);
      var c3 := SetLanguage(SetVoice(c2, st.voice), st.language);
      if st.fallback.Some? then SetFallBackText(c3, st.fallback.value) else c3
  }

  // What the defaults of a new configuration are like.
  predicate Blank(c: Config) {
    c.voice == "" && c.speechRate == "" && !c.fallbackEnabled && c.data.scenario == ""
  }

  // Settings that the setters have let through.
  predicate Proper(c: Config) {
    && 1.0 <= c.volume <= 100.0 && 1 <= c.rate <= 100 && 0 <= c.primVolDuck <= 100 && c.language != ""
    && (c.speechRate == "" || NotBlank(c.speechRate))
    && (c.fallbackEnabled ==> c.data.scenario != "" && c.data.text != "")
  }

  lemma ConfiguredProper(others: Voices, m: Manager, r: Request)
    requires Proper(m.config)
    ensures Proper(Configured(others, m, r).0.config)
  {
    var c1 := WithEndPoints(m.config, r);
    EndPointsKeep(m.config, r);
    VoiceStage(others, c1, r);
    ConfiguredKeeps(others, m, r);
    if Configured(others, m, r).1 == TTS_OK {
      OkTakesEffect(others, m, r);
    }
  }

  lemma CallProper(others: Voices, m: Manager, call: Call)
    requires Proper(m.config)
    ensures Proper(Apply(others, m, call).0.config)
  {
    if call.SetConfiguration? {
      ConfiguredProper(others, m, call.request);
    } else if call.EnableTTS? {
      assert Apply(others, m, call).0.config == m.config.(enabled := Apply(others, m, call).0.config.enabled);
    }
  }

  lemma {:induction false} RunProper(others: Voices, m: Manager, calls: seq<Call>)
    requires Proper(m.config)
    ensures Proper(After(others, m, calls).config)
    decreases |calls|
  {
    if calls != [] {
      CallProper(others, m, calls[0]);
      RunProper(others, Apply(others, m, calls[0]).0, calls[1..]);
    }
  }

  // The same settings, as far as they are stored.
  predicate Restores(others: Voices, c: Config, c': Config) {
    && c'.enabled == c.enabled && c'.volume == c.volume && c'.rate == c.rate && c'.speechRate == c.speechRate
    && c'.primVolDuck == c.primVolDuck && c'.language == c.language && Voice(others, c') == Voice(others, c)
    && c'.fallbackEnabled == c.fallbackEnabled && (c.fallbackEnabled ==> c'.data == c.data)
  }

  lemma LoadsBack(others: Voices, c: Config, d: Config)
    requires Proper(c) && Blank(d)
    ensures Restores(others, c, Loaded(d, Some(Persisted(others, c))))
  {
  }

  /**
   After any calls that leave nothing to be stored, a new process that loads the store has the
   settings that were in force: state, levels, language, voice, and the fallback with its path.
   */
  lemma RestartRestores(others: Voices, m: Manager, enable: bool, calls: seq<Call>, d: Config)
    requires m.force && Proper(m.config) && Blank(d)
    requires !After(others, m, [EnableTTS(enable)] + calls).needsStore
    ensures var m' := After(others, m, [EnableTTS(enable)] + calls);
      Restores(others, m'.config, Loaded(d, m'.store))
  {
    StoreNeverSilentlyOld(others, m, enable, calls);
    RunProper(others, m, [EnableTTS(enable)] + calls);
    LoadsBack(others, After(others, m, [EnableTTS(enable)] + calls).config, d);
  }

  // ---------------------------------------------------------------------------------
  // Voices
  // ---------------------------------------------------------------------------------

  // Entry i is the first one under the key.
  predicate FirstUnder(others: Voices, key: string, i: nat) {
    i < |others| && others[i].key == key && forall j :: 0 <= j < i ==> others[j].key != key
  }

  lemma {:induction false} FindsTheFirst(others: Voices, key: string)
    ensures forall i: nat :: FirstUnder(others, key, i) ==> Find(others, key) == others[i].voices
    ensures (forall i :: 0 <= i < |others| ==> others[i].key != key) ==> Find(others, key) == []
    decreases |others|
  {
    if others != [] {
      FindsTheFirst(others[1..], key);
      forall i: nat | FirstUnder(others, key, i) ensures Find(others, key) == others[i].voices {
        assert i > 0 ==> FirstUnder(others[1..], key, i - 1);
      }
    }
  }

  lemma {:induction false} PrefixedVoices(others: Voices, prefix: string, v: string)
    ensures v in WithPrefix(others, prefix) <==>
      exists i :: 0 <= i < |others| && prefix <= others[i].key && v in others[i].voices
    decreases |others|
  {
    if others != [] {
      PrefixedVoices(others[1..], prefix, v);
      assert forall i :: 0 < i < |others| ==> others[i] == others[1..][i - 1];
      assert forall i :: 0 <= i < |others| - 1 ==> others[1..][i] == others[i + 1];
    }
  }

  /**
   The voices of a language are those of the first entry for it, all voices those of all such entries;
   the voice in force is the chosen one or the first of its language, and heads the short list.
   */
  lemma VoicesListed(others: Voices, c: Config, language: string, i: nat, v: string)
    requires language != "" && language != "*"
    ensures FirstUnder(others, "voice_for_" + language, i) ==> ListVoices(others, c, language) == others[i].voices
    ensures v in ListVoices(others, c, "*") <==>
      exists j :: 0 <= j < |others| && "voice_for_" <= others[j].key && v in others[j].voices
    ensures ListVoices(others, c, "")[0] == Voice(others, c)
    ensures c.voice != "" ==> Voice(others, c) == c.voice
    ensures c.voice == "" && FirstUnder(others, "voice_for_" + c.language, i) && others[i].voices != [] ==>
      Voice(others, c) == others[i].voices[0]
  {
    FindsTheFirst(others, "voice_for_" + language);
    FindsTheFirst(others, "voice_for_" + c.language);
    PrefixedVoices(others, "voice_for_", v);
  }

  /** And the same of local voices. */
  lemma LocalVoicesListed(others: Voices, c: Config, language: string, i: nat)
    requires language != ""
    ensures FirstUnder(others, "voice_for_local_" + language, i) ==>
      ListLocalVoices(others, c, language) == others[i].voices
    ensures ListLocalVoices(others, c, "") == [LocalVoice(others, c)]
    ensures c.localVoice != "" ==> LocalVoice(others, c) == c.localVoice
    ensures c.localVoice == "" && FirstUnder(others, "voice_for_local_" + c.language, i) && others[i].voices != [] ==>
      LocalVoice(others, c) == others[i].voices[0]
  {
    FindsTheFirst(others, "voice_for_local_" + language);
    FindsTheFirst(others, "voice_for_local_" + c.language);
  }

  lemma LevelsKeepLocalVoice(c: Config, r: Request)
    ensures WithLevels(c, r).localVoice == c.localVoice
  {
    if r.Device? {
      var c1 := SetUtteranceVolume(c, r.volume);
      assert c1 == c.(utteranceVolume := c1.utteranceVolume);
    } else {
      var c1 := SetVolume(c, r.volume);
      assert c1 == c.(volume := c1.volume);
    }
  }

  /**
   A configuration call with a language and no voice takes the first voice of that language; and if
   the language is new while the local endpoint stays in use, its first local voice.
   */
  lemma TakesTheFirstVoice(others: Voices, m: Manager, r: Request, i: nat, j: nat)
    requires Configured(others, m, r).1 == TTS_OK && r.language != "" && r.language != "*"
    ensures var c' := Configured(others, m, r).0.config;
      && (r.voice == "" && FirstUnder(others, "voice_for_" + r.language, i) ==>
          |others[i].voices| > 0 && (others[i].voices[0] != "" ==> c'.voice == others[i].voices[0]))
      && (r.language != m.config.language && c'.validLocalEndpoint
          && FirstUnder(others, "voice_for_local_" + r.language, j) ==>
          |others[j].voices| > 0 && (others[j].voices[0] != "" ==> c'.localVoice == others[j].voices[0]))
      && (r.language == m.config.language || !c'.validLocalEndpoint ==> c'.localVoice == m.config.localVoice)
  {
    var c1 := WithEndPoints(m.config, r);
    EndPointsKeep(m.config, r);
    VoiceStage(others, c1, r);
    var c2, c3, c, updated := OkPath(others, m, r);
    FindsTheFirst(others, "voice_for_" + r.language);
    FindsTheFirst(others, "voice_for_local_" + r.language);
    LocalVoiceKeeps(others, c2, c2.language != c1.language);
    LevelsKeepTheRest(c3, r);
    LevelsKeepLocalVoice(c3, r);
    LevelsKeepEndPoints(c3, r);
    FinishKeeps(others, m, c, m.needsStore || updated);
  }
}
