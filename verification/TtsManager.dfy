/**
 TextToSpeech/impl/TTSManager.cpp over the TTSConfiguration of TextToSpeech/impl/TTSSpeaker.cpp:
 settings in memory, a copy of some of them in a file, a flag that says the copy may be old,
 and the listeners that are told of a new voice.
 */
module TtsManager {

  import opened Wrappers

  datatype Result = TTS_OK | TTS_FAIL

  datatype Fallback = Fallback(scenario: string, text: string, path: string)

  datatype Config = Config(endPoint: string, secureEndPoint: string, validLocalEndpoint: bool, apiKey: string,
                           speechRate: string, language: string, voice: string, localVoice: string,
                           volume: real, rate: int, utteranceVolume: real, utteranceRate: real, pitch: real,
                           primVolDuck: int, enabled: bool, fallbackEnabled: bool, data: Fallback)

  // m_others: the lists of voices, in the order of their keys.
  datatype Entry = Entry(key: string, voices: seq<string>)
  type Voices = seq<Entry>

  // The voices under a key, none when the key is missing.
  function Find(others: Voices, key: string): seq<string> {
    if others == [] then [] else if others[0].key == key then others[0].voices else Find(others[1..], key)
  }

  function WithPrefix(others: Voices, prefix: string): seq<string> {
    if others == [] then []
    else (if prefix <= others[0].key then others[0].voices else []) + WithPrefix(others[1..], prefix)
  }

  const VOICE_FOR := "voice_for_"
  const LOCAL_VOICE_FOR := "voice_for_local_"
  const LOOPBACK_ENDPOINT := "http://127.0.0.1:50050/"
  const LOCALHOST_ENDPOINT := "http://localhost:50050/"

  // voice(): the chosen voice, or the first one of the language.
  function Voice(others: Voices, c: Config): string {
    if c.voice != "" then c.voice
    else
      var voices := Find(others, VOICE_FOR + c.language);
      if voices == [] then "" else voices[0]
  }

  function ListVoices(others: Voices, c: Config, language: string): seq<string> {
    if language == "" then [Voice(others, c)] + Find(others, VOICE_FOR + c.language)
    else if language != "*" then Find(others, VOICE_FOR + language)
    else WithPrefix(others, VOICE_FOR)
  }

  // ---------------------------------------------------------------------------------
  // Setters. What each returns is whether it changed the configuration.
  // ---------------------------------------------------------------------------------

  predicate NotBlank(s: string) { exists i :: 0 <= i < |s| && s[i] != ' ' }

  function SetEndPoint(c: Config, s: string): Config { if s == "" then c else c.(endPoint := s) }
  function SetSecureEndPoint(c: Config, s: string): Config { if s == "" then c else c.(secureEndPoint := s) }
  function SetApiKey(c: Config, s: string): Config { if s == "" then c else c.(apiKey := s) }
  function SetSpeechRate(c: Config, s: string): Config { if NotBlank(s) then c.(speechRate := s) else c }
  function SetLanguage(c: Config, s: string): Config { if s == "" then c else c.(language := s) }
  function SetVoice(c: Config, s: string): Config { if s == "" then c else c.(voice := s) }
  function SetLocalVoice(c: Config, s: string): Config { if s == "" then c else c.(localVoice := s) }
  function SetVolume(c: Config, v: real): Config { if 1.0 <= v <= 100.0 then c.(volume := v) else c }
  function SetRate(c: Config, v: int): Config { if 1 <= v <= 100 then c.(rate := v) else c }
  function SetUtteranceVolume(c: Config, v: real): Config {
    if v == -1.0 || 0.0 <= v <= 1.0 then c.(utteranceVolume := v) else c
  }
  function SetUtteranceRate(c: Config, v: real): Config {
    if v == -1.0 || 0.1 <= v <= 10.0 then c.(utteranceRate := v) else c
  }
  function SetPitch(c: Config, v: real): Config {
    if v == -1.0 || 0.0 <= v <= 2.0 then c.(pitch := v) else c
  }
  function SetEnabled(c: Config, b: bool): Config { c.(enabled := b) }

  type Byte = b: int | 0 <= b < 256

  // The argument is an uint8_t, the parameter an int8_t.
  function AsInt8(b: Byte): int { if b < 128 then b else b - 256 }

  function SetPrimVolDuck(c: Config, b: Byte): Config {
    if 0 <= AsInt8(b) <= 100 then c.(primVolDuck := AsInt8(b)) else c
  }

  function SetFallBackText(c: Config, d: Fallback): Config {
    if d.scenario == "" || d.text == "" || (d.scenario == c.data.scenario && d.text == c.data.text) then c
    else c.(data := d, fallbackEnabled := true)
  }

  // ---------------------------------------------------------------------------------
  // The manager
  // ---------------------------------------------------------------------------------

  // What _writeToFile puts into the store.
  datatype Stored = Stored(enabled: bool, volume: real, rate: int, speechRate: string, primVolDuck: int,
                           voice: string, language: string, fallback: Option<Fallback>)

  function Persisted(others: Voices, c: Config): Stored {
    Stored(c.enabled, c.volume, c.rate, c.speechRate, c.primVolDuck, Voice(others, c), c.language,
           if c.fallbackEnabled then Some(c.data) else None)
  }

  datatype Event = VoiceChanged(voice: string) | StateChanged(enabled: bool)

  // force: the static variable of enableTTS.
  datatype Manager = Manager(config: Config, needsStore: bool, force: bool, store: Option<Stored>, events: seq<Event>)

  datatype Request =
    | Device(endPoint: string, secureEndPoint: string, language: string, voice: string, volume: real,
        utteranceRate: real, pitch: real)
    | Plain(endPoint: string, secureEndPoint: string, language: string, voice: string, volume: real, rate: Byte,
        speechRate: string)

  predicate IsLoopback(url: string) { LOOPBACK_ENDPOINT <= url || LOCALHOST_ENDPOINT <= url }

  function WithEndPoints(c: Config, r: Request): Config {
    var c1 := SetEndPoint(c, r.endPoint);
    var c2 := SetSecureEndPoint(c1, r.secureEndPoint);
    if c2.validLocalEndpoint && (c1 != c || c2 != c1) && IsLoopback(c2.secureEndPoint)
    then c2.(validLocalEndpoint := false) else c2
  }

  // None where there is no voice for the language.
  function WithVoice(others: Voices, c: Config, r: Request): Option<Config> {
    if r.language != "" && r.voice == "" then
      var voices := ListVoices(others, c, r.language);
      if voices == [] then None else Some(SetLanguage(SetVoice(c, voices[0]), r.language))
    else Some(SetLanguage(SetVoice(c, r.voice), r.language))
  }

  // None where a new language has no local voice and one is needed.
  function WithLocalVoice(others: Voices, c: Config, languageUpdated: bool): Option<Config> {
    if c.validLocalEndpoint && languageUpdated then
      var voices := ListLocalVoices(others, c, c.language);
      if voices == [] then None else Some(SetLocalVoice(c, voices[0]))
    else Some(c)
  }

  function LocalVoice(others: Voices, c: Config): string {
    if c.localVoice != "" then c.localVoice
    else
      var voices := Find(others, LOCAL_VOICE_FOR + c.language);
      if voices == [] then "" else voices[0]
  }

  function ListLocalVoices(others: Voices, c: Config, language: string): seq<string> {
    if language == "" then [LocalVoice(others, c)] else Find(others, LOCAL_VOICE_FOR + language)
  }

  function WithLevels(c: Config, r: Request): Config {
    match r
    case Device(_, _, _, _, volume, rate, pitch) =>
      SetPitch(SetUtteranceRate(SetUtteranceVolume(c, volume), rate), pitch)
    case Plain(_, _, _, _, volume, rate, speechRate) => SetSpeechRate(SetRate(SetVolume(c, volume), rate), speechRate)
  }

  // The end of the call, when neither test failed.
  function Finish(others: Voices, m: Manager, c: Config, needs: bool): Manager {
    var changed := Voice(others, m.config) != Voice(others, c);
    var told := if changed then m.events + [VoiceChanged(Voice(others, c))] else m.events;
    if needs then
      var saved := if c.fallbackEnabled then c.(data := c.data.(path := "")) else c;
      m.(config := saved, needsStore := false, store := Some(Persisted(others, saved)), events := told)
    else m.(config := c, needsStore := false, events := told)
  }

  function Configured(others: Voices, m: Manager, r: Request): (Manager, Result) {
    var c1 := WithEndPoints(m.config, r);
    var voiced := WithVoice(others, c1, r);
    if voiced == None then (m.(config := c1), TTS_FAIL) else
      var c2 := voiced.value;
      var needs := m.needsStore || c2 != c1;
      var local := WithLocalVoice(others, c2, c2.language != c1.language);
      if local == None then (m.(config := c2, needsStore := needs), TTS_FAIL) else
        var c3 := WithLevels(local.value, r);
        (Finish(others, m, c3, needs || c3 != local.value), TTS_OK)
  }

  function Enabled(others: Voices, m: Manager, enable: bool): Manager {
    var c := if m.force then m.config else SetEnabled(m.config, enable);
    if m.force || c != m.config
    then m.(config := c, force := false, store := Some(Persisted(others, c)),
        events := m.events + [StateChanged(c.enabled)])
    else m
  }

  datatype Call =
    | EnableTTS(enable: bool)
    | SetConfiguration(request: Request)
    | SetFallbackText(data: Fallback)
    | SetPrimaryVolDuck(prim: Byte)
    | SetAPIKey(apikey: string)

  function Apply(others: Voices, m: Manager, call: Call): (Manager, Result) {
    match call
    case EnableTTS(enable) => (Enabled(others, m, enable), TTS_OK)
    case SetConfiguration(r) => Configured(others, m, r)
    case SetFallbackText(d) =>
      var c := SetFallBackText(m.config, d);
      (m.(config := c, needsStore := m.needsStore || c != m.config), TTS_OK)
    case SetPrimaryVolDuck(prim) =>
      var c := SetPrimVolDuck(m.config, prim);
      (m.(config := c, needsStore := m.needsStore || c != m.config), TTS_OK)
    case SetAPIKey(key) =>
      var c := SetApiKey(m.config, key);
      (m.(config := c, needsStore := m.needsStore || (c != m.config && c.fallbackEnabled && c.data.path == "")), TTS_OK)
  }

  function After(others: Voices, m: Manager, calls: seq<Call>): Manager
    decreases |calls|
  {
    if calls == [] then m else After(others, Apply(others, m, calls[0]).0, calls[1..])
  }

  // ---------------------------------------------------------------------------------
  // The store
  // ---------------------------------------------------------------------------------

  predicate InStore(others: Voices, m: Manager) {
    m.store == Some(Persisted(others, m.config))
  }

  // The store holds what is in memory, or the flag says that it may not.
  predicate Honest(others: Voices, m: Manager) {
    InStore(others, m) || m.needsStore
  }

  // Endpoints and the local voice are not persisted, and the levels are not part of the voice.
  lemma EndPointsNotStored(others: Voices, c: Config, r: Request)
    ensures var c1 := WithEndPoints(c, r);
      Persisted(others, c1) == Persisted(others, c) && Voice(others, c1) == Voice(others, c)
          && c1.language == c.language
  {
  }

  lemma LocalVoiceNotStored(others: Voices, c: Config, languageUpdated: bool)
    requires WithLocalVoice(others, c, languageUpdated).Some?
    ensures Persisted(others, WithLocalVoice(others, c, languageUpdated).value) == Persisted(others, c)
    ensures Voice(others, WithLocalVoice(others, c, languageUpdated).value) == Voice(others, c)
  {
  }

  lemma LevelsKeepTheRest(c: Config, r: Request)
    ensures var c' := WithLevels(c, r);
      c'.language == c.language && c'.voice == c.voice && c'.fallbackEnabled == c.fallbackEnabled && c'.data == c.data
  {
    if r.Device? {
      var c1 := SetUtteranceVolume(c, r.volume);
      assert c1 == c.(utteranceVolume := c1.utteranceVolume);
      var c2 := SetUtteranceRate(c1, r.utteranceRate);
      assert c2 == c1.(utteranceRate := c2.utteranceRate);
    } else {
      var c1 := SetVolume(c, r.volume);
      assert c1 == c.(volume := c1.volume);
      var c2 := SetRate(c1, r.rate);
      assert c2 == c1.(rate := c2.rate);
    }
  }

  lemma LevelsKeepTheVoice(others: Voices, c: Config, r: Request)
    ensures Voice(others, WithLevels(c, r)) == Voice(others, c)
  {
    LevelsKeepTheRest(c, r);
  }

  lemma VoiceStage(others: Voices, c: Config, r: Request)
    ensures var voiced := WithVoice(others, c, r);
      && (voiced == None <==> r.language != "" && r.voice == "" && ListVoices(others, c, r.language) == [])
      && (voiced.Some? ==> voiced.value.language == (if r.language == "" then c.language else r.language)
                           && voiced.value.validLocalEndpoint == c.validLocalEndpoint
                           && voiced.value == c.(language := voiced.value.language, voice := voiced.value.voice)
                           && (r.voice != "" ==> voiced.value.voice == r.voice)
                           && (r.voice == "" && r.language == "" ==> voiced.value.voice == c.voice))
  {
  }

  lemma FinishStores(others: Voices, m: Manager, c: Config, needs: bool)
    requires needs || (InStore(others, m) && Persisted(others, c) == Persisted(others, m.config))
    ensures var m' := Finish(others, m, c, needs);
      && InStore(others, m') && !m'.needsStore && Voice(others, m'.config) == Voice(others, c)
      && m'.events == m.events + (if Voice(others, c) != Voice(others, m.config) then [VoiceChanged(Voice(others, c))]
          else [])
      && m'.config == c.(data := c.data.(path := m'.config.data.path))
      && (if needs && c.fallbackEnabled then m'.config.data.path == "" else m'.config == c)
  {
    assert m.events + [] == m.events;
  }

  // The configuration that a call which does not fail finishes with, and whether anything was updated.
  lemma OkPath(others: Voices, m: Manager, r: Request) returns (c2: Config, c3: Config, c: Config, updated: bool)
    requires Configured(others, m, r).1 == TTS_OK
    ensures WithVoice(others, WithEndPoints(m.config, r), r) == Some(c2) && c == WithLevels(c3, r)
    ensures WithLocalVoice(others, c2, c2.language != WithEndPoints(m.config, r).language) == Some(c3)
    ensures Configured(others, m, r).0 == Finish(others, m, c, m.needsStore || updated)
    ensures !updated ==> Persisted(others, c) == Persisted(others, m.config)
  {
    var c1 := WithEndPoints(m.config, r);
    EndPointsNotStored(others, m.config, r);
    c2 := WithVoice(others, c1, r).value;
    c3 := WithLocalVoice(others, c2, c2.language != c1.language).value;
    LocalVoiceNotStored(others, c2, c2.language != c1.language);
    c := WithLevels(c3, r);
    updated := c2 != c1 || c != c3;
  }

  /**
   A configuration call that returns OK leaves the store up to date, and tells of the voice exactly
   when voice() changed.
   */
  lemma OkMeansStored(others: Voices, m: Manager, r: Request)
    requires Honest(others, m) && Configured(others, m, r).1 == TTS_OK
    ensures var m' := Configured(others, m, r).0;
      && InStore(others, m') && !m'.needsStore
      && m'.events == m.events + (if Voice(others, m'.config) != Voice(others, m.config)
          then [VoiceChanged(Voice(others, m'.config))] else [])
  {
    var c2, c3, c, updated := OkPath(others, m, r);
    FinishStores(others, m, c, m.needsStore || updated);
  }

  // The levels that a request sets, each when it is in range; the other kind's stay.
  predicate LevelsTaken(c: Config, c': Config, r: Request) {
    if r.Device? then
      && c'.utteranceVolume == (if r.volume == -1.0 || 0.0 <= r.volume <= 1.0 then r.volume else c.utteranceVolume)
      && c'.utteranceRate == (if r.utteranceRate == -1.0 || 0.1 <= r.utteranceRate <= 10.0 then r.utteranceRate
          else c.utteranceRate)
      && c'.pitch == (if r.pitch == -1.0 || 0.0 <= r.pitch <= 2.0 then r.pitch else c.pitch)
      && c'.volume == c.volume && c'.rate == c.rate && c'.speechRate == c.speechRate
    else
      && c'.volume == (if 1.0 <= r.volume <= 100.0 then r.volume else c.volume)
      && c'.rate == (if 1 <= r.rate <= 100 then r.rate else c.rate)
      && c'.speechRate == (if NotBlank(r.speechRate) then r.speechRate else c.speechRate)
      && c'.utteranceVolume == c.utteranceVolume && c'.utteranceRate == c.utteranceRate && c'.pitch == c.pitch
  }

  predicate SameOtherwise(c: Config, c': Config) {
    c'.enabled == c.enabled && c'.apiKey == c.apiKey && c'.primVolDuck == c.primVolDuck
        && c'.fallbackEnabled == c.fallbackEnabled
  }

  lemma DeviceLevels(c: Config, r: Request)
    requires r.Device?
    ensures LevelsTaken(c, WithLevels(c, r), r) && SameOtherwise(c, WithLevels(c, r))
  {
    var c1 := SetUtteranceVolume(c, r.volume);
    assert c1 == c.(utteranceVolume := c1.utteranceVolume);
    var c2 := SetUtteranceRate(c1, r.utteranceRate);
    assert c2 == c1.(utteranceRate := c2.utteranceRate);
  }

  lemma PlainLevels(c: Config, r: Request)
    requires r.Plain?
    ensures LevelsTaken(c, WithLevels(c, r), r) && SameOtherwise(c, WithLevels(c, r))
  {
    var c1 := SetVolume(c, r.volume);
    assert c1 == c.(volume := c1.volume);
    var c2 := SetRate(c1, r.rate);
    assert c2 == c1.(rate := c2.rate);
  }

  lemma EndPointsKeep(c: Config, r: Request)
    ensures var c1 := WithEndPoints(c, r);
      c1 == c.(endPoint := c1.endPoint, secureEndPoint := c1.secureEndPoint,
          validLocalEndpoint := c1.validLocalEndpoint)
  {
  }

  lemma LocalVoiceKeeps(others: Voices, c: Config, languageUpdated: bool)
    requires WithLocalVoice(others, c, languageUpdated).Some?
    ensures var c3 := WithLocalVoice(others, c, languageUpdated).value; c3 == c.(localVoice := c3.localVoice)
  {
  }

  /**
   A configuration call that returns OK has taken over what it was given, out-of-range and empty
   values ignored, and nothing else.
   */
  lemma OkTakesEffect(others: Voices, m: Manager, r: Request)
    requires Configured(others, m, r).1 == TTS_OK
    ensures var c' := Configured(others, m, r).0.config;
      && c'.language == (if r.language == "" then m.config.language else r.language)
      && (r.voice != "" ==> c'.voice == r.voice)
      && (r.voice == "" && r.language == "" ==> c'.voice == m.config.voice)
      && LevelsTaken(m.config, c', r) && SameOtherwise(m.config, c')
  {
    var c2, c3, c, updated := OkPath(others, m, r);
    StagesTake(others, m.config, r, c2, c3);
    if r.Device? {
      DeviceLevels(c3, r);
    } else {
      PlainLevels(c3, r);
    }
    LevelsKeepTheRest(c3, r);
    FinishKeeps(others, m, c, m.needsStore || updated);
  }

  // The stages before the levels touch endpoints, language and voices only.
  lemma StagesTake(others: Voices, c: Config, r: Request, c2: Config, c3: Config)
    requires WithVoice(others, WithEndPoints(c, r), r) == Some(c2)
    requires WithLocalVoice(others, c2, c2.language != WithEndPoints(c, r).language) == Some(c3)
    ensures c3 == c.(endPoint := c3.endPoint, secureEndPoint := c3.secureEndPoint,
        validLocalEndpoint := c3.validLocalEndpoint,
                     language := c3.language, voice := c3.voice, localVoice := c3.localVoice)
    ensures c3.language == (if r.language == "" then c.language else r.language)
    ensures (r.voice != "" ==> c3.voice == r.voice) && (r.voice == "" && r.language == "" ==> c3.voice == c.voice)
  {
    EndPointsKeep(c, r);
    VoiceStage(others, WithEndPoints(c, r), r);
    LocalVoiceKeeps(others, c2, c2.language != WithEndPoints(c, r).language);
  }

  lemma FinishKeeps(others: Voices, m: Manager, c: Config, needs: bool)
    ensures var c' := Finish(others, m, c, needs).config; c' == c.(data := c.data.(path := c'.data.path))
  {
  }

  predicate FirstFails(others: Voices, m: Manager, r: Request) {
    r.language != "" && r.voice == "" && ListVoices(others, WithEndPoints(m.config, r), r.language) == []
  }

  predicate SecondFails(others: Voices, m: Manager, r: Request) {
    && !FirstFails(others, m, r)
    && WithEndPoints(m.config, r).validLocalEndpoint && r.language != "" && r.language != m.config.language
    && Find(others, LOCAL_VOICE_FOR + r.language) == []
  }

  lemma LocalStage(others: Voices, c: Config, languageUpdated: bool)
    requires languageUpdated ==> c.language != ""
    ensures WithLocalVoice(others, c, languageUpdated) == None <==>
      c.validLocalEndpoint && languageUpdated && Find(others, LOCAL_VOICE_FOR + c.language) == []
  {
  }

  /**
   A configuration call fails exactly when there is no voice for a language given without one,
   or no local voice for a new language while the local endpoint is in use. Nothing is told and
   nothing is stored; the first failure changes nothing that is stored, the second changes the
   language and raises the flag.
   */
  lemma FailsExactly(others: Voices, m: Manager, r: Request)
    ensures var (m', result) := Configured(others, m, r);
      && (result == TTS_FAIL <==> FirstFails(others, m, r) || SecondFails(others, m, r))
      && (result == TTS_FAIL ==> m'.events == m.events && m'.store == m.store)
      && (FirstFails(others, m, r)
          ==> Persisted(others, m'.config) == Persisted(others, m.config) && m'.needsStore == m.needsStore)
      && (SecondFails(others, m, r) ==> m'.config.language == r.language && m'.needsStore
                                        && Some(m'.config) == WithVoice(others, WithEndPoints(m.config, r), r))
  {
    var c1 := WithEndPoints(m.config, r);
    EndPointsNotStored(others, m.config, r);
    VoiceStage(others, c1, r);
    if !FirstFails(others, m, r) {
      var c2 := WithVoice(others, c1, r).value;
      LocalStage(others, c2, c2.language != c1.language);
    }
  }

  lemma ConfiguredStaysHonest(others: Voices, m: Manager, r: Request)
    requires Honest(others, m)
    ensures Honest(others, Configured(others, m, r).0)
  {
    FailsExactly(others, m, r);
    if Configured(others, m, r).1 == TTS_OK {
      OkMeansStored(others, m, r);
    }
  }

  lemma CallStaysHonest(others: Voices, m: Manager, call: Call)
    requires Honest(others, m)
    ensures Honest(others, Apply(others, m, call).0)
  {
    if call.SetConfiguration? {
      ConfiguredStaysHonest(others, m, call.request);
    }
  }

  lemma {:induction false} RunStaysHonest(others: Voices, m: Manager, calls: seq<Call>)
    requires Honest(others, m)
    ensures Honest(others, After(others, m, calls))
    decreases |calls|
  {
    if calls != [] {
      CallStaysHonest(others, m, calls[0]);
      RunStaysHonest(others, Apply(others, m, calls[0]).0, calls[1..]);
    }
  }

  /**
   Whatever was in the store before, from the first enableTTS on it is up to date or the flag is set,
   after any calls.
   */
  lemma StoreNeverSilentlyOld(others: Voices, m: Manager, enable: bool, calls: seq<Call>)
    requires m.force
    ensures Honest(others, After(others, m, [EnableTTS(enable)] + calls))
  {
    var first := EnableTTS(enable);
    assert ([first] + calls)[1..] == calls;
    RunStaysHonest(others, Apply(others, m, first).0, calls);
  }

  /**
   From the first enableTTS on, after any calls, the failed ones included: a configuration call
   that returns OK leaves the store equal to the persisted settings with the flag down, and it
   has told of the voice exactly when voice() is another than before the call.
   */
  lemma OkAfterAnyCalls(others: Voices, m: Manager, enable: bool, calls: seq<Call>, r: Request)
    requires m.force
    requires Configured(others, After(others, m, [EnableTTS(enable)] + calls), r).1 == TTS_OK
    ensures var m1 := After(others, m, [EnableTTS(enable)] + calls); var m2 := Configured(others, m1, r).0;
      && m2.store == Some(Persisted(others, m2.config)) && !m2.needsStore
      && (VoiceChanged(Voice(others, m2.config)) in m2.events[|m1.events|..]
          <==> Voice(others, m2.config) != Voice(others, m1.config))
      && m1.events <= m2.events && |m2.events| <= |m1.events| + 1
  {
    StoreNeverSilentlyOld(others, m, enable, calls);
    OkMeansStored(others, After(others, m, [EnableTTS(enable)] + calls), r);
  }

  // ---------------------------------------------------------------------------------
  // The voice that nobody is told of
  // ---------------------------------------------------------------------------------

  // Listeners are told of the voice that the call leads to, or there is nothing new to tell.
  predicate Told(others: Voices, m: Manager, m': Manager) {
    Voice(others, m'.config) == Voice(others, m.config)
    || (|m'.events| > 0 && m'.events[|m'.events| - 1] == VoiceChanged(Voice(others, m'.config))
        && m'.events != m.events)
  }

  /**
   A configuration call changes the voice without telling exactly when it fails for want of a local
   voice and the voice it has set is new.
   */
  lemma UntoldExactly(others: Voices, m: Manager, r: Request)
    requires Honest(others, m)
    ensures !Told(others, m, Configured(others, m, r).0) <==>
      SecondFails(others, m, r)
          && Voice(others, WithVoice(others, WithEndPoints(m.config, r), r).value) != Voice(others, m.config)
  {
    FailsExactly(others, m, r);
    if Configured(others, m, r).1 == TTS_OK {
      OkMeansStored(others, m, r);
    }
  }

  lemma EndPointsRepeat(c: Config, r: Request, language: string, voice: string)
    ensures var c2 := WithEndPoints(c, r).(language := language, voice := voice); WithEndPoints(c2, r) == c2
  {
    var c2 := WithEndPoints(c, r).(language := language, voice := voice);
    assert SetEndPoint(c2, r.endPoint) == c2 && SetSecureEndPoint(c2, r.secureEndPoint) == c2;
  }

  // What the failed call has set stays as it is when the call is repeated.
  lemma StagesRepeat(others: Voices, c: Config, r: Request)
    requires WithVoice(others, WithEndPoints(c, r), r).Some? && r.language != ""
    ensures var c2 := WithVoice(others, WithEndPoints(c, r), r).value;
      WithEndPoints(c2, r) == c2 && WithVoice(others, c2, r) == Some(c2)
  {
    var c1 := WithEndPoints(c, r);
    var c2 := WithVoice(others, c1, r).value;
    VoiceStage(others, c1, r);
    EndPointsRepeat(c, r, c2.language, c2.voice);
    assert ListVoices(others, c2, r.language) == ListVoices(others, c1, r.language);
  }

  /** Repeating the call that failed so returns OK and still tells nobody. */
  lemma SecondTryTellsNobody(others: Voices, m: Manager, r: Request)
    requires SecondFails(others, m, r)
    ensures var m1 := Configured(others, m, r).0; var (m2, result) := Configured(others, m1, r);
      && result == TTS_OK && m2.events == m.events && InStore(others, m2)
      && Voice(others, m2.config) == Voice(others, m1.config)
  {
    FailsExactly(others, m, r);
    VoiceStage(others, WithEndPoints(m.config, r), r);
    StagesRepeat(others, m.config, r);
    Repeated(others, Configured(others, m, r).0, r);
  }

  lemma Repeated(others: Voices, m: Manager, r: Request)
    requires WithEndPoints(m.config, r) == m.config && WithVoice(others, m.config, r) == Some(m.config)
    requires m.needsStore
    ensures var (m', result) := Configured(others, m, r);
      result == TTS_OK && m'.events == m.events && InStore(others, m')
          && Voice(others, m'.config) == Voice(others, m.config)
  {
    assert WithLocalVoice(others, m.config, false) == Some(m.config);
    LevelsKeepTheVoice(others, m.config, r);
    FinishStores(others, m, WithLevels(m.config, r), true);
  }

  /** It happens: French has a voice, no local one, and the local endpoint is in use. */
  lemma VoiceChangesUntold() returns (others: Voices, m: Manager, r: Request)
    ensures InStore(others, m) && !Told(others, m, Configured(others, m, r).0)
  {
    others := [Entry("voice_for_fr", ["Amelie"])];
    var c := Config("", "", true, "", "", "en-US", "Angelica", "", 95.0, 50, 1.0, 1.0, 1.0, 25, true, false,
        Fallback("", "", ""));
    m := Manager(c, false, false, Some(Persisted(others, c)), []);
    r := Plain("", "", "fr", "", 95.0, 50, "");
    assert VOICE_FOR + "fr" == "voice_for_fr" && LOCAL_VOICE_FOR + "fr" == "voice_for_local_fr";
    assert others[0].key[10] == 'f' && (LOCAL_VOICE_FOR + "fr")[10] == 'l';
    assert others[1..] == [];
    assert Find(others, "voice_for_fr") == ["Amelie"] && Find(others, "voice_for_local_fr") == [];
    assert WithEndPoints(c, r) == c && WithVoice(others, c, r) == Some(c.(voice := "Amelie", language := "fr"));
    assert "Amelie"[1] != "Angelica"[1];
    assert "fr"[0] != "en-US"[0];
    assert SecondFails(others, m, r);
    UntoldExactly(others, m, r);
  }
}
