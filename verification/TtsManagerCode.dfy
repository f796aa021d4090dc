/**
 The setters of TTSConfiguration and the calls of TTSManager as methods over fields, each
 tied to the function of TtsManager that says what it does.
 */
module TtsManagerCode {

  import opened Wrappers
  import opened TtsManager
  import opened TtsRuns

  class TTSConfiguration {
    var ttsEndPoint: string
    var ttsEndPointSecured: string
    var validLocalEndpoint: bool
    var apiKey: string
    var rateOfSpeech: string
    var chosenLanguage: string
    var chosenVoice: string
    var chosenLocalVoice: string
    var levelOfVolume: real
    var rate: int
    var utteranceVolume: real
    var utteranceRate: real
    var pitch: real
    var primVolDuck: int
    var enabled: bool
    var fallbackEnabled: bool
    var data: Fallback
    const others: Voices

    function View(): Config
      reads this
    {
      Config(ttsEndPoint, ttsEndPointSecured, validLocalEndpoint, apiKey, rateOfSpeech, chosenLanguage, chosenVoice,
             chosenLocalVoice, levelOfVolume, rate, utteranceVolume, utteranceRate, pitch, primVolDuck, enabled,
             fallbackEnabled, data)
    }

    constructor (others: Voices)
      ensures this.others == others
      ensures View() == Config("", "", false, "", "", "en-US", "", "", 100.0, 50, 1.0, 1.0, 1.0, 25, false, false,
          Fallback("", "", ""))
    {
      this.others := others;
      ttsEndPoint, ttsEndPointSecured, validLocalEndpoint, apiKey, rateOfSpeech := "", "", false, "", "";
      chosenLanguage, chosenVoice, chosenLocalVoice := "en-US", "", "";
      levelOfVolume, rate, utteranceVolume, utteranceRate, pitch := 100.0, 50, 1.0, 1.0, 1.0;
      primVolDuck, enabled, fallbackEnabled, data := 25, false, false, Fallback("", "", "");
    }

    method SetEndPoint(value: string) returns (updated: bool)
      modifies this
      ensures View() == TtsManager.SetEndPoint(old(View()), value) && updated == (View() != old(View()))
    {
      if value != "" && ttsEndPoint != value {
        ttsEndPoint := value;
        return true;
      }
      return false;
    }

    method SetSecureEndPoint(value: string) returns (updated: bool)
      modifies this
      ensures View() == TtsManager.SetSecureEndPoint(old(View()), value) && updated == (View() != old(View()))
    {
      if value != "" && ttsEndPointSecured != value {
        ttsEndPointSecured := value;
        return true;
      }
      return false;
    }

    method SetApiKey(value: string) returns (updated: bool)
      modifies this
      ensures View() == TtsManager.SetApiKey(old(View()), value) && updated == (View() != old(View()))
    {
      if value != "" && apiKey != value {
        apiKey := value;
        return true;
      }
      return false;
    }

    method SetLanguage(value: string) returns (updated: bool)
      modifies this
      ensures View() == TtsManager.SetLanguage(old(View()), value) && updated == (View() != old(View()))
    {
      if value != "" && chosenLanguage != value {
        chosenLanguage := value;
        return true;
      }
      return false;
    }

    method SetVoice(value: string) returns (updated: bool)
      modifies this
      ensures View() == TtsManager.SetVoice(old(View()), value) && updated == (View() != old(View()))
    {
      if value != "" && chosenVoice != value {
        chosenVoice := value;
        return true;
      }
      return false;
    }

    method SetLocalVoice(value: string) returns (updated: bool)
      modifies this
      ensures View() == TtsManager.SetLocalVoice(old(View()), value) && updated == (View() != old(View()))
    {
      if value != "" && chosenLocalVoice != value {
        chosenLocalVoice := value;
        return true;
      }
      return false;
    }

    method SetVolume(value: real) returns (updated: bool)
      modifies this
      ensures View() == TtsManager.SetVolume(old(View()), value) && updated == (View() != old(View()))
    {
      if 1.0 <= value <= 100.0 && levelOfVolume != value {
        levelOfVolume := value;
        return true;
      }
      return false;
    }

    method SetRate(value: int) returns (updated: bool)
      modifies this
      ensures View() == TtsManager.SetRate(old(View()), value) && updated == (View() != old(View()))
    {
      if 1 <= value <= 100 && rate != value {
        rate := value;
        return true;
      }
      return false;
    }

    method SetUtteranceVolume(value: real) returns (updated: bool)
      modifies this
      ensures View() == TtsManager.SetUtteranceVolume(old(View()), value) && updated == (View() != old(View()))
    {
      if (value == -1.0 || 0.0 <= value <= 1.0) && utteranceVolume != value {
        utteranceVolume := value;
        return true;
      }
      return false;
    }

    method SetUtteranceRate(value: real) returns (updated: bool)
      modifies this
      ensures View() == TtsManager.SetUtteranceRate(old(View()), value) && updated == (View() != old(View()))
    {
      if (value == -1.0 || 0.1 <= value <= 10.0) && utteranceRate != value {
        utteranceRate := value;
        return true;
      }
      return false;
    }

    method SetPitch(value: real) returns (updated: bool)
      modifies this
      ensures View() == TtsManager.SetPitch(old(View()), value) && updated == (View() != old(View()))
    {
      if (value == -1.0 || 0.0 <= value <= 2.0) && pitch != value {
        pitch := value;
        return true;
      }
      return false;
    }

    method SetPrimVolDuck(value: Byte) returns (updated: bool)
      modifies this
      ensures View() == TtsManager.SetPrimVolDuck(old(View()), value) && updated == (View() != old(View()))
    {
      if 0 <= AsInt8(value) <= 100 && primVolDuck != AsInt8(value) {
        primVolDuck := AsInt8(value);
        return true;
      }
      return false;
    }

    method SetEnabled(value: bool) returns (updated: bool)
      modifies this
      ensures enabled == value && updated == (old(enabled) != value)
      ensures View() == TtsManager.SetEnabled(old(View()), value) && View() == old(View()).(enabled := value)
    {
      if enabled != value {
        enabled := value;
        return true;
      }
      return false;
    }

    // find_first_not_of(' ')
    method FindNotBlank(value: string) returns (found: bool)
      ensures found == NotBlank(value)
    {
      var i := 0;
      while i < |value|
        invariant 0 <= i <= |value| && forall k :: 0 <= k < i ==> value[k] == ' '
      {
        if value[i] != ' ' {
          return true;
        }
        i := i + 1;
      }
      return false;
    }

    method SetSpeechRate(value: string) returns (updated: bool)
      modifies this
      ensures View() == TtsManager.SetSpeechRate(old(View()), value) && updated == (View() != old(View()))
    {
      var found := FindNotBlank(value);
      if found && rateOfSpeech != value {
        rateOfSpeech := value;
        return true;
      }
      return false;
    }

    method SetFallBackText(fd: Fallback) returns (updated: bool)
      modifies this
      ensures View() == TtsManager.SetFallBackText(old(View()), fd) && updated == (View() != old(View()))
    {
      if fd.scenario == "" || fd.text == "" {
        return false;
      } else if fd.scenario != data.scenario || fd.text != data.text {
        data := fd;
        fallbackEnabled := true;
        return true;
      }
      return false;
    }

    // loadFromConfigStore
    method LoadFromConfigStore(store: Option<Stored>) returns (loaded: bool)
      modifies this
      ensures View() == Loaded(old(View()), store) && loaded == store.Some?
    {
      if store == None {
        return false;
      }
      var st := store.value;
      var updated := SetEnabled(st.enabled);
      updated := SetVolume(st.volume);
      updated := SetRate(st.rate % 256);
      updated := SetSpeechRate(st.speechRate);
      updated := SetPrimVolDuck(st.primVolDuck % 256);
      updated := SetVoice(st.voice);
      updated := SetLanguage(st.language);
      if st.fallback.Some? {
        updated := SetFallBackText(st.fallback.value);
      }
      return true;
    }

    method Lookup(key: string) returns (voices: seq<string>)
      ensures voices == Find(others, key)
    {
      var i := 0;
      assert others[0..] == others;
      while i < |others|
        invariant 0 <= i <= |others| && Find(others[i..], key) == Find(others, key)
      {
        if others[i].key == key {
          return others[i].voices;
        }
        assert others[i..][1..] == others[i + 1..];
        i := i + 1;
      }
      return [];
    }

    method VoiceNow() returns (voice: string)
      ensures voice == Voice(others, View())
    {
      if chosenVoice != "" {
        return chosenVoice;
      }
      var voices := Lookup(VOICE_FOR + chosenLanguage);
      return if voices == [] then "" else voices[0];
    }

    method LocalVoiceNow() returns (voice: string)
      ensures voice == LocalVoice(others, View())
    {
      if chosenLocalVoice != "" {
        return chosenLocalVoice;
      }
      var voices := Lookup(LOCAL_VOICE_FOR + chosenLanguage);
      return if voices == [] then "" else voices[0];
    }
  }

  class TTSManager {
    const config: TTSConfiguration
    var needsStore: bool
    var force: bool
    var store: Option<Stored>
    var events: seq<Event>

    function Now(): Manager
      reads this, config
    {
      Manager(config.View(), needsStore, force, store, events)
    }

    constructor (config: TTSConfiguration, store: Option<Stored>)
      ensures this.config == config && Now() == Manager(config.View(), false, true, store, [])
    {
      this.config := config;
      this.store := store;
      needsStore, force, events := false, true, [];
    }

    method UpdateConfigStore()
      modifies this`store
      ensures store == Some(Persisted(config.others, config.View()))
    {
      var voice := config.VoiceNow();
      store := Some(Stored(config.enabled, config.levelOfVolume, config.rate, config.rateOfSpeech, config.primVolDuck,
                           voice, config.chosenLanguage, if config.fallbackEnabled then Some(config.data) else None));
    }

    method EnableTTS(enable: bool) returns (result: Result)
      modifies this, config
      ensures (Now(), result) == Apply(config.others, old(Now()), Call.EnableTTS(enable))
      // The first call takes what is in force, every other one its argument.
      ensures config.enabled == if old(force) then old(config.enabled) else enable
      ensures !force && (old(force) || config.enabled != old(config.enabled) ==>
        && store == Some(Persisted(config.others, config.View()))
        && events == old(events) + [StateChanged(config.enabled)])
      ensures !old(force) && enable == old(config.enabled) ==> store == old(store) && events == old(events)
    {
      var changed := force;
      if !changed {
        changed := config.SetEnabled(enable);
      }
      if changed {
        UpdateConfigStore();
        events := events + [StateChanged(config.enabled)];
        force := false;
      }
      return TTS_OK;
    }

    method ListVoices(language: string) returns (voices: seq<string>)
      ensures voices == TtsManager.ListVoices(config.others, config.View(), language)
    {
      var others := config.others;
      if language == "" {
        var voice := config.VoiceNow();
        var more := config.Lookup(VOICE_FOR + config.chosenLanguage);
        return [voice] + more;
      } else if language != "*" {
        voices := config.Lookup(VOICE_FOR + language);
        return;
      }
      voices := [];
      var i := 0;
      assert others[0..] == others;
      while i < |others|
        invariant 0 <= i <= |others| && voices + WithPrefix(others[i..], VOICE_FOR) == WithPrefix(others, VOICE_FOR)
      {
        assert others[i..][1..] == others[i + 1..];
        ghost var one := if VOICE_FOR <= others[i].key then others[i].voices else [];
        ghost var rest := WithPrefix(others[i + 1..], VOICE_FOR);
        assert voices + (one + rest) == (voices + one) + rest && voices + [] == voices;
        if VOICE_FOR <= others[i].key {
          voices := voices + others[i].voices;
        }
        i := i + 1;
      }
    }

    method ListLocalVoices(language: string) returns (voices: seq<string>)
      ensures voices == TtsManager.ListLocalVoices(config.others, config.View(), language)
    {
      if language == "" {
        var voice := config.LocalVoiceNow();
        return [voice];
      }
      voices := config.Lookup(LOCAL_VOICE_FOR + language);
    }

    method SetEndPoints(r: Request)
      modifies config
      ensures config.View() == WithEndPoints(old(config.View()), r)
    {
      var updated := config.SetEndPoint(r.endPoint);
      var secure := config.SetSecureEndPoint(r.secureEndPoint);
      if config.validLocalEndpoint && (updated || secure) {
        if LOOPBACK_ENDPOINT <= config.ttsEndPointSecured || LOCALHOST_ENDPOINT <= config.ttsEndPointSecured {
          config.validLocalEndpoint := false;
        }
      }
    }

    // The chosen voice and language; ok is false on the first early return.
    method SetVoiceAndLanguage(r: Request) returns (ok: bool, languageUpdated: bool)
      modifies config, `needsStore
      ensures ok == WithVoice(config.others, old(config.View()), r).Some?
      ensures ok ==> Some(config.View()) == WithVoice(config.others, old(config.View()), r)
      ensures ok ==> needsStore == (old(needsStore) || config.View() != old(config.View()))
      ensures ok ==> languageUpdated == (config.View().language != old(config.View()).language)
      ensures !ok ==> config.View() == old(config.View()) && needsStore == old(needsStore)
    {
      languageUpdated := false;
      var voice := r.voice;
      if r.language != "" && r.voice == "" {
        var voices := ListVoices(r.language);
        if voices == [] {
          return false, false;
        }
        voice := voices[0];
      }
      var voiceUpdated := config.SetVoice(voice);
      languageUpdated := config.SetLanguage(r.language);
      needsStore := needsStore || voiceUpdated || languageUpdated;
      ok := true;
    }

    // ok is false on the second early return.
    method SetLocalVoice(languageUpdated: bool) returns (ok: bool)
      modifies config
      ensures ok == WithLocalVoice(config.others, old(config.View()), languageUpdated).Some?
      ensures ok ==> Some(config.View()) == WithLocalVoice(config.others, old(config.View()), languageUpdated)
      ensures !ok ==> config.View() == old(config.View())
    {
      if config.validLocalEndpoint && languageUpdated {
        var localVoices := ListLocalVoices(config.chosenLanguage);
        if localVoices == [] {
          return false;
        }
        var updated := config.SetLocalVoice(localVoices[0]);
      }
      return true;
    }

    // What setDeviceConfiguration and setConfiguration set in their last three setters.
    method SetLevels(r: Request)
      modifies config, `needsStore
      ensures config.View() == WithLevels(old(config.View()), r)
      ensures needsStore == (old(needsStore) || config.View() != old(config.View()))
    {
      var a, b, c := false, false, false;
      match r {
        case Device(_, _, _, _, volume, rate, pitch) =>
          a := config.SetUtteranceVolume(volume);
          b := config.SetUtteranceRate(rate);
          c := config.SetPitch(pitch);
        case Plain(_, _, _, _, volume, rate, speechRate) =>
          a := config.SetVolume(volume);
          b := config.SetRate(rate);
          c := config.SetSpeechRate(speechRate);
      }
      needsStore := needsStore || a || b || c;
    }

    // The end of both calls; v is the voice from before them.
    method FinishCall(v: string, ghost before: Manager)
      requires v == Voice(config.others, before.config)
      requires force == before.force && store == before.store && events == before.events
      modifies this, config
      ensures Now() == Finish(config.others, before, old(config.View()), old(needsStore))
    {
      var voice := config.VoiceNow();
      if v != voice {
        events := events + [VoiceChanged(voice)];
      }
      if needsStore {
        if config.fallbackEnabled {
          // initiateDownload, without the download.
          config.data := config.data.(path := "");
        }
        UpdateConfigStore();
        needsStore := false;
      }
    }

    method SetConfiguration(r: Request) returns (result: Result)
      modifies this, config
      ensures (Now(), result) == Apply(config.others, old(Now()), Call.SetConfiguration(r))
    {
      ghost var before := Now();
      var v := config.VoiceNow();
      SetEndPoints(r);
      var voiced, languageUpdated := SetVoiceAndLanguage(r);
      if !voiced {
        return TTS_FAIL;
      }
      var local := SetLocalVoice(languageUpdated);
      if !local {
        return TTS_FAIL;
      }
      SetTheRest(r, v, before);
      return TTS_OK;
    }

    // What comes after the two tests.
    method SetTheRest(r: Request, v: string, ghost before: Manager)
      requires v == Voice(config.others, before.config)
      requires force == before.force && store == before.store && events == before.events
      modifies this, config
      ensures var c := WithLevels(old(config.View()), r);
        Now() == Finish(config.others, before, c, old(needsStore) || c != old(config.View()))
    {
      SetLevels(r);
      FinishCall(v, before);
    }

    method SetFallbackText(data: Fallback) returns (result: Result)
      modifies this, config
      ensures (Now(), result) == Apply(config.others, old(Now()), Call.SetFallbackText(data))
      ensures needsStore == (old(needsStore) || config.View() != old(config.View()))
    {
      var updated := config.SetFallBackText(data);
      needsStore := needsStore || updated;
      return TTS_OK;
    }

    method SetPrimaryVolDuck(prim: Byte) returns (result: Result)
      modifies this, config
      ensures (Now(), result) == Apply(config.others, old(Now()), Call.SetPrimaryVolDuck(prim))
      ensures needsStore == (old(needsStore) || config.View() != old(config.View()))
    {
      var updated := config.SetPrimVolDuck(prim);
      needsStore := needsStore || updated;
      return TTS_OK;
    }

    method SetAPIKey(apikey: string) returns (result: Result)
      modifies this, config
      ensures (Now(), result) == Apply(config.others, old(Now()), Call.SetAPIKey(apikey))
      ensures config.apiKey == if apikey == "" then old(config.apiKey) else apikey
      ensures needsStore == (old(needsStore)
          || (config.apiKey != old(config.apiKey) && config.fallbackEnabled && config.data.path == ""))
    {
      var updated := config.SetApiKey(apikey);
      if updated {
        if config.fallbackEnabled && config.data.path == "" {
          needsStore := true;
        }
      }
      return TTS_OK;
    }
  }
}
