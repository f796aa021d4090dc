/**
 The session table and its players in the form of the source: objects that are updated in
 place. Every method is tied to the step of AudioPlayers that it performs.
 */
module AudioPlayerCode {

  import opened AudioPlayers

  class AudioPlayer {
    const objectIdentifier: int
    const source: Source
    const playMode: Mode
    var pipeline: Pipeline
    var state: State
    var isPaused: bool
    var appsrcFirstpacket: bool
    var webClient: Client
    var secureUrl: bool
    var fallbackToUnsecured: bool

    function View(): Player
      reads this
    {
      Player(objectIdentifier, source, playMode, pipeline, state, isPaused, appsrcFirstpacket, webClient, secureUrl,
          fallbackToUnsecured)
    }

    constructor (source: Source, playMode: Mode, objectIdentifier: int, made: bool)
      ensures View() == NewPlayer(objectIdentifier, source, playMode, made)
    {
      this.source := source;
      this.playMode := playMode;
      this.objectIdentifier := objectIdentifier;
      pipeline := if made then FRESH else NoPipeline;
      state := READY;
      isPaused := false;
      appsrcFirstpacket := true;
      webClient := NoClient;
      secureUrl := false;
      fallbackToUnsecured := false;
    }

    method IsPlaying() returns (playing: bool)
      ensures playing == View().IsPlaying()
    {
      playing := false;
      if pipeline.Pipeline? {
        if (source == HTTPSRC || source == FILESRC) && state == PLAYING {
          playing := true;
        } else if (source == WEBSOCKET || source == DATA) && state == PLAYING && !appsrcFirstpacket {
          playing := true;
        }
      }
    }

    method ResetPipeline(made: bool)
      modifies this
      ensures View() == old(View()).ResetPipeline(made)
    {
      if state == PLAYBACKERROR {
        pipeline := NoPipeline;
      }
      isPaused := false;
      if pipeline == NoPipeline {
        pipeline := if made then FRESH else NoPipeline;
      } else {
        pipeline := FRESH;
      }
    }

    method Stop(made: bool)
      modifies this
      ensures View() == old(View()).Stopped(made)
    {
      if source == DATA || source == WEBSOCKET {
        webClient := NoClient;
        appsrcFirstpacket := true;
      }
      ResetPipeline(made);
      state := READY;
    }

    method Play(secure: bool, made: bool)
      modifies this
      ensures View() == old(View()).Played(secure, made)
    {
      secureUrl := secure;
      if pipeline.Pipeline? {
        Stop(made);
        if pipeline.Pipeline? {
          pipeline := pipeline.(target := Playing);
        }
      }
    }

    method Pause() returns (paused: bool)
      modifies this
      ensures View() == old(View()).PausedBy() && paused == old(View()).CanPause()
    {
      if pipeline.Pipeline? {
        if source == FILESRC || source == HTTPSRC {
          if !isPaused && state == PLAYING {
            isPaused := true;
            pipeline := pipeline.(target := Paused);
            return true;
          }
        }
      }
      return false;
    }

    method Resume() returns (resumed: bool)
      modifies this
      ensures View() == old(View()).ResumedBy() && resumed == old(View()).CanResume()
    {
      if pipeline.Pipeline? {
        if source == FILESRC || source == HTTPSRC {
          if isPaused && state == PAUSED {
            pipeline := pipeline.(target := Playing);
            return true;
          }
        }
      }
      return false;
    }

    method Connect()
      modifies this
      ensures View() == old(View()).Connected()
    {
      if source == WEBSOCKET {
        if webClient == NoClient {
          webClient := if secureUrl then Secured else Unsecured;
        } else if webClient == Secured && fallbackToUnsecured {
          fallbackToUnsecured := false;
          webClient := Unsecured;
        }
      }
    }

    method HandleMessage(message: Message, made: bool) returns (handled: bool)
      modifies this
      ensures View() == old(View()).Handled(message, made) && handled == old(pipeline.Pipeline?)
      // The end of the stream, or an error, stops it.
      ensures handled && (message.Error? || (message.Eos? && old(state) != PLAYBACKERROR)) ==>
        && state == READY && !View().Active() && !View().IsPlaying()
        && (View().FromApp() ==> webClient == NoClient && appsrcFirstpacket)
      // A change of state is taken note of, and stops nothing.
      ensures handled && message.Changed? ==>
        && pipeline == old(pipeline)
        && (message.to == Paused ==> state == PAUSED)
        && (message == Changed(Paused, Playing) ==> state == PLAYING && (isPaused ==> View().FromApp()))
    {
      if pipeline == NoPipeline {
        return false;
      }
      if message.Error? {
        state := PLAYBACKERROR;
        Stop(made);
      } else if message.Eos? {
        if state != PLAYBACKERROR {
          appsrcFirstpacket := true;
          Stop(made);
          state := READY;
        }
      } else if message.to == Paused {
        state := PAUSED;
      } else if message.from == Paused && message.to == Playing {
        state := PLAYING;
        Connect();
        if source != WEBSOCKET && source != DATA {
          if isPaused {
            isPaused := false;
          }
        }
      } else if message.from == Ready && message.to == Null {
        state := READY;
      }
      return true;
    }

    method SetSmartVolControl(enable: bool, made: bool)
      modifies this
      ensures View() == old(View()).SmartVolume(enable, made)
    {
      var playing := IsPlaying();
      if playing {
        return;
      }
      if enable {
        pipeline := if made then FRESH else NoPipeline;
      }
    }
  }

  class SystemAudioPlayerImplementation {
    var counter: nat
    var objectMap: map<int, AudioPlayer>

    ghost predicate Valid()
      reads this, objectMap.Values
    {
      forall k :: k in objectMap ==> objectMap[k].objectIdentifier == k
    }

    ghost function Sessions(): (t: Table)
      reads this, objectMap.Values
    {
      map k | k in objectMap :: objectMap[k].View()
    }

    ghost function Now(): System
      reads this, objectMap.Values
    {
      System(counter, Sessions())
    }

    // Only session id has changed.
    twostate lemma OneChanged(id: int)
      requires id in objectMap && objectMap == old(objectMap)
      requires forall k :: k in objectMap && k != id ==> objectMap[k].View() == old(objectMap[k].View())
      ensures Sessions() == old(Sessions())[id := objectMap[id].View()]
    {
    }

    constructor ()
      ensures Valid() && Now() == START
    {
      counter := 0;
      objectMap := map[];
    }

    method NextId() returns (id: nat)
      modifies this`counter
      ensures id == counter == AudioPlayers.NextId(old(counter))
    {
      if counter >= LAST_ID {
        counter := 0;
      }
      counter := counter + 1;
      return counter;
    }

    method Open(source: Source, mode: Mode, made: bool) returns (playerid: int)
      requires Valid()
      modifies this
      ensures Valid() && Now() == Do(old(Now()), Step.Open(source, mode, made))
      ensures playerid in objectMap && fresh(objectMap[playerid])
      ensures objectMap == old(objectMap)[playerid := objectMap[playerid]]
    {
      ghost var before := Sessions();
      var id := NextId();
      playerid := AsInt(id);
      var obj := new AudioPlayer(source, mode, playerid, made);
      objectMap := objectMap[playerid := obj];
      assert Sessions() == before[playerid := NewPlayer(playerid, source, mode, made)];
    }

    method Close(id: int) returns (ok: bool)
      requires Valid()
      modifies this, objectMap.Values
      ensures Valid() && Now() == Do(old(Now()), Step.Close(id)) && ok == (id in old(objectMap))
      ensures objectMap == old(objectMap) - {id}
    {
      ghost var before := Sessions();
      ok := id in objectMap;
      if ok {
        var player := objectMap[id];
        objectMap := objectMap - {id};
        player.Stop(true);
        assert forall k :: k in objectMap ==> objectMap[k] != player;
        assert Sessions() == before - {id};
      }
    }

    method StopOne(id: int, made: bool)
      requires Valid() && id in objectMap
      modifies objectMap.Values
      ensures Valid() && Sessions() == old(Sessions())[id := old(Sessions())[id].Stopped(made)]
    {
      objectMap[id].Stop(made);
      OneChanged(id);
    }

    method SameModeNotPlaying(player: AudioPlayer, id: int, works: set<int>) returns (free: bool, playerid: int)
      requires Valid() && id in objectMap && objectMap[id] == player
      modifies objectMap.Values
      ensures Valid()
      ensures var (t, answer) := SameMode(old(Sessions()), objectMap.Keys, id, works);
        Sessions() == t && answer == if free then Granted else Held(playerid)
    {
      playerid := id;
      var todo := objectMap.Keys;
      while todo != {}
        invariant todo <= objectMap.Keys && Valid()
        invariant SameMode(Sessions(), todo, id, works) == SameMode(old(Sessions()), objectMap.Keys, id, works)
      {
        var it := Least(todo);
        var iplayer := objectMap[it];
        assert player.objectIdentifier == id && iplayer.objectIdentifier == it;
        todo := todo - {it};
        if player.objectIdentifier != iplayer.objectIdentifier && player.playMode == iplayer.playMode {
          var playing := iplayer.IsPlaying();
          if playing {
            playerid := iplayer.objectIdentifier;
            return false, playerid;
          }
          StopOne(it, it in works);
        }
      }
      return true, playerid;
    }

    // The answer to the caller: started, refused in favour of `holder`, or refused outright.
    method Play(id: int, urlOk: bool, secure: bool, works: set<int>) returns (ok: bool, holder: int)
      requires Valid()
      modifies objectMap.Values
      ensures Valid() && Now() == Do(old(Now()), Step.Play(id, urlOk, secure, works))
      ensures id !in objectMap || !urlOk ==> !ok && holder == id
      ensures id in objectMap && urlOk ==>
        SameMode(old(Sessions()), objectMap.Keys, id, works).1 == if ok then Granted else Held(holder)
    {
      holder := id;
      if id !in objectMap || !urlOk {
        return false, holder;
      }
      var player := objectMap[id];
      assert Sessions().Keys == objectMap.Keys;
      ok, holder := SameModeNotPlaying(player, id, works);
      if ok {
        label Playing:
        player.Play(secure, id in works);
        OneChanged@Playing(id);
      }
    }

    method Pause(id: int) returns (ok: bool)
      requires Valid()
      modifies objectMap.Values
      ensures Valid() && Now() == Do(old(Now()), Step.Pause(id))
      ensures ok == (id in objectMap && old(Sessions())[id].CanPause())
    {
      if id !in objectMap {
        return false;
      }
      ok := objectMap[id].Pause();
      OneChanged(id);
    }

    method Resume(id: int) returns (ok: bool)
      requires Valid()
      modifies objectMap.Values
      ensures Valid() && Now() == Do(old(Now()), Step.Resume(id))
      ensures ok == (id in objectMap && old(Sessions())[id].CanResume())
    {
      if id !in objectMap {
        return false;
      }
      ok := objectMap[id].Resume();
      OneChanged(id);
    }

    method Stop(id: int, made: bool) returns (ok: bool)
      requires Valid()
      modifies objectMap.Values
      ensures Valid() && Now() == Do(old(Now()), Step.Stop(id, made)) && ok == (id in objectMap)
    {
      if id !in objectMap {
        return false;
      }
      StopOne(id, made);
      return true;
    }
  }
}
