# Concurrency, state and text of the entertainment services, in Dafny

This project models the parts of the repository where state is shared, ordered or encoded, and
proves what they keep. `dafny verify dfyconfig.toml` checks all of it.

| files | what they are about |
|---|---|
| `QueueMachine`, `QueueDrain`, `QueueFates`, `QueueCode` | the bounded buffer queue of the system audio player, one semaphore, mutex or queue operation a step, any number of threads; the chunking feeder on top of it; the same as methods over fields |
| `Pipeline`, `Speaker`, `SpeakerLife`, `SpeakerOutcome`, `SpeakerPauses`, `SpeakerFlags`, `SpeakerPasses`, `SpeakerRace`, `SpeakerCode`, `Watchdog` | the text-to-speech speaker: its worker, its callers and the bus over shared variables, the pipeline methods that call each other, the loop that waits for the end of an utterance |
| `AudioPlayers`, `AudioLife`, `AudioPlayerCode` | the table of audio sessions and the one that may use the hardware of a play mode |
| `JsonRpc`, `JsonRpcCode` | concurrent JSON-RPC requests and the map of promises that responses go through |
| `TtsManager`, `TtsRuns`, `TtsManagerCode` | settings in memory, their persisted copy, the flag between the two, and the voice-changed event |
| `Sanitizer`, `SanitizerCode` | the in-place clean-up of text for the speech endpoint |
| `Base64` | the base64 encoder with its carried bits |
| `CasDispatch`, `CasListeners`, `CasDispatchCode` | reference-counted listeners and events dispatched without the lock |
| `Settings`, `SettingsCode` | the `key=value` settings file, its printer and its parser |

Each component has a step function or a specification function, theorems about every run or every
input, and, in the files that end in `Code`, the methods of the source over fields, tied to it. A run
is a sequence of steps in any order that is possible; a theorem about runs quantifies over all of them. A method
in a `Code` file is one call that no other thread interleaves; what interleaving adds is what the runs are for.

## What is one step

- Queue: every `sem_wait`, `sem_post`, `sem_getvalue`, lock, unlock and queue operation. `atomicDrain` is
  the variant in which lines 99 and 101 of `BufferQueue.cpp` are one step.
- Speaker: each API call, each bus message, and each stretch of the worker between two waits. `cancelSpeech`
  takes no lock; it is one step (`Cancel`) or two (`CancelTest`, `CancelSet`), and theorems that need it whole
  say so with `AtomicCancels`. The worker's test that the queue is not empty and the dequeue after it are one step.
- Audio sessions: each API call and each bus message; in between a pipeline moves and posts what it did. The bus
  is flushed when a pipeline is set to NULL.
- JSON-RPC: each stretch under `responseMutex_` and each call made without it.
- CAS listeners: each stretch under the lock; the call of a sink begins in one step and returns in another.

## Where the code does not do what one might expect

Each of these has a theorem that says exactly when it happens; a run or an input that is named beside it shows that it does.

- `clear()` can sleep for ever with the mutex in hand (`QueueDrain.ClearCanDeadlock`, `QueueDrain.StuckForever`); it
  sleeps exactly when removers took all the tokens it saw at line 99 and all posted since.
- A `cancelSpeech` overtaken between its test and its write interrupts the next utterance, and that one is not even
  announced if it was about to be (`SpeakerRace.SplitCancelHitsTheNext`, `SpeakerLife.InterruptedExactlyWhenLanded`,
  `SpeakerLife.AnnouncedExactlyOnce`).
- The limit of failed attempts is cut to eight bits: a number from the environment that 256 divides means no attempt at
  all while nothing is queued (`SpeakerPasses.NoAttemptExactly`).
- Smart volume control, switched on for a session that has reached PLAYING and does not count as playing yet, leaves it
  with an idle pipeline and, after its first packet, keeping others of its mode out
  (`AudioPlayers.SmartVolumeLeavesAPhantom`, `AudioPlayers.PhantomsExactly`). `m_audioCutter` is never set to true, so every
  call that switches it on rebuilds the pipeline.
- A configuration call that fails for want of a local voice has changed the voice and tells nobody, and neither does
  the retry (`TtsManager.UntoldExactly`, `TtsManager.SecondTryTellsNobody`, `TtsManager.VoiceChangesUntold`).
- A second response to the same registration makes `set_value` throw (`JsonRpc.ThrowsExactlyOnTheSecond`).
- The punctuation pass reads past the end exactly at a double quote it reaches in the last place (`Sanitizer.CleanDefined`),
  and behind a deleted quote it passes characters over (`Sanitizer.QuotesSpoilIt`, `Sanitizer.CleanSoundExactly`).
- A value with an equals sign comes back from the settings file under another key (`Settings.EqualsSignMovesTheKey`).
- The watchdog gives up without a look at position or duration when its thread is held up for a whole timeout
  (`Watchdog.HeldUpLeavesUnlooked`, and the last two cases of `Watchdog.TimesOutOnlyWhenIdle`).

## Model

| member | source | states |
|---|---|---|
| QueueMachine.SlotsAndWakeups | SystemAudioPlayer/impl/BufferQueue.cpp:63-143 | every step of every interleaving keeps the mutex discipline, the number of slots, and the bounds on the wake-ups in circulation |
| QueueMachine.ConservationFromStart | SystemAudioPlayer/impl/BufferQueue.cpp:63-143 | in every run: queue + free slots + adders past their wait + pops not yet posted = size; tokens, removers holding one and pushes not posted cover the queue; the excess is at most consumers + preDelete posts; the queue never exceeds its size |
| QueueMachine.MutexStep | SystemAudioPlayer/impl/BufferQueue.cpp:69-143 | a thread is inside a critical section exactly while it holds the mutex |
| QueueMachine.OnlyTheHolder | SystemAudioPlayer/impl/BufferQueue.cpp:88-105 | at most one thread at a time has an unposted push, an unposted pop or an unsettled clear |
| QueueDrain.SleepsWithMutexExactlyWhenOvertaken | SystemAudioPlayer/impl/BufferQueue.cpp:88-105 | in every run a thread sleeps on a semaphore with the mutex in hand if and only if it is a clear at line 101 and removers took every token it saw at line 99 and every one posted since; all of them wait for its mutex |
| QueueDrain.AtomicDrainNeverSleepsWithMutex | SystemAudioPlayer/impl/BufferQueue.cpp:99-101 | with lines 99 and 101 in one step the holder of the mutex can always move |
| QueueDrain.StuckForever | SystemAudioPlayer/impl/BufferQueue.cpp:88-105 | once clear sleeps with no preDelete about to post, it sleeps in every continuation and the queue never changes again |
| QueueDrain.OnlyPreDeleteWakes | SystemAudioPlayer/impl/BufferQueue.cpp:63-67 | a step makes a token for a sleeping clear if and only if it is the post of a preDelete |
| QueueDrain.ClearCanDeadlock | SystemAudioPlayer/impl/BufferQueue.cpp:88-143 | the stuck state is reachable with one add, one remove and one clear |
| QueueDrain.ClearFinishes | SystemAudioPlayer/impl/BufferQueue.cpp:88-105 | under any interleaving a clear that gets four moves an item and one more has emptied the queue and reached its unlock |
| QueueDrain.RankStep | SystemAudioPlayer/impl/BufferQueue.cpp:93-103 | every move of a clear lowers its measure and no move of another thread changes it |
| QueueFates.ExactlyOneFate | SystemAudioPlayer/impl/BufferQueue.cpp:69-143 | in every run each buffer is exactly one of pending, queued, removed or cleared, leaves at most once, and buffers leave in the order of arrival |
| QueueFates.ByteStream | SystemAudioPlayer/impl/AudioPlayer.cpp:416-484 | with one feeder: pushed chunks, then the chunks of what is in hand, are the chunks of the removed buffers in order, each of 1 to 131072 bytes; without a clear, pushed + in hand + queued is all that was accepted |
| QueueFates.ChunksRebuild | SystemAudioPlayer/impl/AudioPlayer.cpp:440-477 | cutting a buffer into chunks loses no byte, and all chunks but the last have 131072 bytes |
| QueueFates.SoleProducerNeverSleeps | SystemAudioPlayer/impl/AudioPlayer.cpp:519-527 | with a single producer the add after isFull() = false does not sleep on its semaphore, in every run |
| QueueCode.PathIsRun | SystemAudioPlayer/impl/BufferQueue.cpp:63-143 | the states an object goes through are those of a run of the machine |
| QueueCode.BufferQueue.constructor | SystemAudioPlayer/impl/BufferQueue.cpp:50-55 | an empty queue with all slots free, in an initial state of the machine |
| QueueCode.BufferQueue.Reached | SystemAudioPlayer/impl/BufferQueue.cpp:63-143 | the object is always where a run of the machine leads |
| QueueCode.BufferQueue.PushData | SystemAudioPlayer/impl/AudioPlayer.cpp:519-527 | a full queue drops the data and changes nothing; else it is one more buffer at the end, one token more and one slot fewer |
| QueueCode.BufferQueue.Add | SystemAudioPlayer/impl/BufferQueue.cpp:69-76 | with a free slot the buffer goes to the end and a slot becomes a token; with none the thread sleeps at its wait and nothing changes |
| QueueCode.BufferQueue.Clear | SystemAudioPlayer/impl/BufferQueue.cpp:88-105 | empties the queue, frees one slot an item, and takes a token an item as long as there are any |
| QueueCode.BufferQueue.PreDelete | SystemAudioPlayer/impl/BufferQueue.cpp:63-67 | as clear, and one token more |
| QueueCode.BufferQueue.Remove | SystemAudioPlayer/impl/BufferQueue.cpp:130-143 | with a token the front buffer and a freed slot, or nothing when the token had no buffer behind it; with none the thread sleeps at its wait and nothing changes |
| QueueCode.BufferQueue.FeedOnce | SystemAudioPlayer/impl/AudioPlayer.cpp:416-484 | one turn of the feeder pushes exactly the chunks of the front buffer, or sleeps when there is no token |
| QueueCode.BufferQueue.PushChunks | SystemAudioPlayer/impl/AudioPlayer.cpp:440-477 | the chunk loop pushes exactly the chunks of its buffer and leaves the queue alone |
| Pipeline.ResetOutcome | TextToSpeech/impl/TTSSpeaker.cpp:787-811 | after a reset every flag is clear, nothing leaks, at most one attempt was made, and the pipeline is missing if and only if it had to be rebuilt and was not wanted or could not be |
| Pipeline.CreateOutcome | TextToSpeech/impl/TTSSpeaker.cpp:668-785 | skipped when not wanted or there; otherwise one attempt, two exactly when the first is built under a pending error; present if and only if the last attempt was not lost |
| Pipeline.CreateWhenQuiet | TextToSpeech/impl/TTSSpeaker.cpp:668-785 | without a pending error: one attempt, and the failure counter goes up by one modulo 256 or to zero |
| Pipeline.DestroyOutcome | TextToSpeech/impl/TTSSpeaker.cpp:813-827 | pipelines made minus unreferenced is one if one is set and else zero |
| Pipeline.SpeakerPipeline.CreatePipeline | TextToSpeech/impl/TTSSpeaker.cpp:668-785 | ends from every state, by error flag, missing pipeline and method in that order, and leaves the pipeline, the flags and the counters as Create has them, for every answer of the media framework |
| Pipeline.SpeakerPipeline.Build | TextToSpeech/impl/TTSSpeaker.cpp:680-781 | one attempt: true exactly when the pipeline is in place; a lost one is unreferenced and counted as a failure |
| Pipeline.SpeakerPipeline.ResetPipeline | TextToSpeech/impl/TTSSpeaker.cpp:787-811 | ends from every state; an errored pipeline is replaced and not reused |
| Pipeline.SpeakerPipeline.DestroyPipeline | TextToSpeech/impl/TTSSpeaker.cpp:813-827 | no pipeline, no failures counted, and the one there was is unreferenced |
| SpeakerLife.OnePlaceAndInOrder | TextToSpeech/impl/TTSSpeaker.cpp:608-626 | in every run, at all times, each utterance is in exactly one of flushed, ended, in hand and queued, ends at most once, and utterances end in the order in which they were queued |
| SpeakerLife.LineMoves | TextToSpeech/impl/TTSSpeaker.cpp:988-1076 | a step appends to the line of utterances, drops its queued part, or leaves it alone; it moves one forward exactly when it takes or fails one |
| SpeakerLife.InterruptedExactlyWhenLanded | TextToSpeech/impl/TTSSpeaker.cpp:546-556 | in every run, cancelSpeech split or not, an utterance that ended was interrupted if and only if the write of a cancel landed while the worker had it |
| SpeakerLife.InterruptedExactlyWhenCancelled | TextToSpeech/impl/TTSSpeaker.cpp:546-606 | with whole cancels: interrupted if and only if a cancelSpeech for it or for all returned true while it was current, and the flag never carries over to the next utterance |
| SpeakerLife.NamedExactlyWhenCancelled | TextToSpeech/impl/TTSSpeaker.cpp:546-556 | the recorded names are exactly the utterances for which some cancel of the run returned true |
| SpeakerLife.AnnouncedExactlyOnce | TextToSpeech/impl/TTSSpeaker.cpp:1036-1069 | in every run, cancelSpeech split or not, each spoke and networkerror has exactly one earlier willSpeak of the same id, and so has each interrupted, but for none if and only if a cancel wrote its flag while the worker was about to announce the utterance |
| SpeakerLife.AtomicNeverEarly | TextToSpeech/impl/TTSSpeaker.cpp:546-556 | with whole cancels no flag is written that early |
| SpeakerLife.EarlyExactly | TextToSpeech/impl/TTSSpeaker.cpp:1038-1041 | the recorded early writes are exactly those of the run |
| SpeakerLife.KeepAfterFlush | TextToSpeech/impl/TTSSpeaker.cpp:614-617 | a flush drops exactly what is queued and leaves the order of the rest |
| SpeakerOutcome.OutcomeFollowsFaults | TextToSpeech/impl/TTSSpeaker.cpp:1053-1069 | whatever goes on, second try included: an utterance in hand is reported as interrupted if cancelled, else as a network error exactly if a fault of the network came after the last renewal of the pipeline, as a playback error exactly if only other faults did or the pipeline is gone, and as spoke exactly if neither |
| SpeakerOutcome.UnderwayStep | TextToSpeech/impl/TTSSpeaker.cpp:1083-1109 | until the report only a fault raises the error flags, and only a renewal of the pipeline clears them |
| SpeakerOutcome.FaultSinceMeans | TextToSpeech/impl/TTSSpeaker.cpp:1083-1109 | there is a fault since the last renewal if and only if some step is a fault with no renewal after it, or an older one lasts |
| SpeakerPauses.PausedExactly | TextToSpeech/impl/TTSSpeaker.cpp:546-593 | in every run the pause flag is up if and only if a pause that a caller asked for stands: asked for in some step, with no cancel, resumption or reset of the pipeline in a later one; it is on the utterance in hand |
| SpeakerPauses.PauseEvents | TextToSpeech/impl/TTSSpeaker.cpp:1150-1175 | in every run a start of the pipeline is reported as resumed if such a pause stands and as started otherwise, a stop as paused if and only if one stands, each with the utterance that plays; nothing else is reported as any of the three |
| SpeakerPauses.WantedAsLastAsked | TextToSpeech/impl/TTSSpeaker.cpp:468-473 | a pipeline is wanted if and only if the last ensurePipeline said so |
| SpeakerFlags.FlagExactly | TextToSpeech/impl/TTSSpeaker.cpp:1083-1121 | in every run each flag is up if and only if some step raised it and no later one lowered it: the error flags until the pipeline is reset, the cancellation until the worker reports or takes the next one |
| SpeakerFlags.TriesExactly | TextToSpeech/impl/TTSSpeaker.cpp:1044-1052 | a try plays if and only if the utterance is not cancelled and there is a pipeline; a second one follows if and only if, besides, the remote endpoint failed since the last reset |
| SpeakerFlags.ReportExactly | TextToSpeech/impl/TTSSpeaker.cpp:1053-1069 | the report over runs from the start: cancelled, network error, playback error or spoke, each by the steps |
| SpeakerFlags.CancelHits | TextToSpeech/impl/TTSSpeaker.cpp:546-556 | in every run a cancel hits if and only if an utterance plays that it names, or it names all |
| SpeakerFlags.RestsExactly | TextToSpeech/impl/TTSSpeaker.cpp:1014-1019 | the worker rests if and only if nothing is queued and the pipeline is as wanted or has failed too often |
| SpeakerPasses.OnePerPass | TextToSpeech/impl/TTSSpeaker.cpp:995-1073 | a pass that begins with work, with the pipeline flag and the queue left alone by callers, takes exactly one utterance, whatever pipeline creation does |
| SpeakerPasses.DrainsInOrder | TextToSpeech/impl/TTSSpeaker.cpp:995-1073 | after k passes exactly the first k queued utterances have ended, in order |
| SpeakerPasses.AttemptsBounded | TextToSpeech/impl/TTSSpeaker.cpp:887-890 | with nothing to say and construction always failing, in every run without new work, whatever flushes, cancels and messages there are: attempts never exceed what the counter is short of the limit; the worker is asleep if and only if it has made three moves for each, and then they have all been made |
| SpeakerPasses.GivesUp | TextToSpeech/impl/TTSSpeaker.cpp:887-890 | from every such state the worker alone comes to rest |
| SpeakerPasses.NoAttemptExactly | TextToSpeech/impl/TTSSpeaker.h:199-200 | with a clear counter and nothing queued no attempt at all is made, in any run without new work, if and only if 256 divides the limit that the environment gives |
| SpeakerPasses.AttemptsFromEnvironment | TextToSpeech/impl/TTSSpeaker.cpp:427-427 | otherwise the failed attempts before the worker sleeps are that number modulo 256, less the counter |
| SpeakerRace.SplitCancelHitsTheNext | TextToSpeech/impl/TTSSpeaker.cpp:546-556 | a run in which an utterance is interrupted that no cancel ever decided to cancel, and that was never announced |
| SpeakerCode.TTSSpeaker.constructor | TextToSpeech/impl/TTSSpeaker.cpp:402-437 | a new speaker is in an initial state of the machine, with the environment's limit in eight bits |
| SpeakerCode.TTSSpeaker.Reached | TextToSpeech/impl/TTSSpeaker.cpp:988-1076 | the object is always where a run of the machine from its initial state leads |
| SpeakerCode.TTSSpeaker.RunPass | TextToSpeech/impl/TTSSpeaker.cpp:995-1073 | a whole undisturbed pass: nothing ends with nothing queued; else exactly the first queued utterance does and the rest stays, with an unannounced playback error if the pipeline cannot be made, else announced, with the outcome of its tries, and with every flag of the pipeline clear after |
| SpeakerCode.OneTryOutcome | TextToSpeech/impl/TTSSpeaker.cpp:1053-1069 | the outcome of a pass with a sound pipeline and one try, by the messages that came in while it played |
| SpeakerCode.TTSSpeaker.QueueData | TextToSpeech/impl/TTSSpeaker.cpp:608-612 | one step of the machine: the utterance is last in the queue |
| SpeakerCode.TTSSpeaker.FlushQueue | TextToSpeech/impl/TTSSpeaker.cpp:614-617 | one step of the machine: all that is queued is dropped |
| SpeakerCode.TTSSpeaker.CancelSpeech | TextToSpeech/impl/TTSSpeaker.cpp:546-556 | true exactly when it names the current utterance or all of them while one is spoken; then the flag is up and a pause is lifted; one step of the machine |
| SpeakerCode.TTSSpeaker.EnsurePipeline | TextToSpeech/impl/TTSSpeaker.cpp:468-473 | one step of the machine: the pipeline is wanted or not |
| SpeakerCode.TTSSpeaker.PauseSpeech | TextToSpeech/impl/TTSSpeaker.cpp:566-579 | true exactly for the current utterance with a pipeline that is not paused yet |
| SpeakerCode.TTSSpeaker.ResumeSpeech | TextToSpeech/impl/TTSSpeaker.cpp:581-593 | true exactly for the current utterance with a pipeline that is paused; the flag stays up until the pipeline says that it plays |
| SpeakerCode.TTSSpeaker.HandleMessage | TextToSpeech/impl/TTSSpeaker.cpp:1083-1190 | errors, end of stream and the two state changes, each one step of the machine; a start is reported as resumed exactly when the speech was paused and as started otherwise, a stop as paused exactly then |
| SpeakerCode.TTSSpeaker.HandleError | TextToSpeech/impl/TTSSpeaker.cpp:1083-1100 | every error raises the pipeline error, and one of the HTTP source that of the remote endpoint if there is a local one, else that of the network |
| SpeakerCode.TTSSpeaker.DequeueData | TextToSpeech/impl/TTSSpeaker.cpp:619-626 | the head of the queue, with the flushed flag down |
| SpeakerCode.TTSSpeaker.UpdatePipeline | TextToSpeech/impl/TTSSpeaker.cpp:995-1010 | one step of the machine: the pipeline is made or unmade if it is due |
| SpeakerCode.TTSSpeaker.AfterCreation | TextToSpeech/impl/TTSSpeaker.cpp:1000-1006 | one step of the machine: a failed creation ends the first queued utterance with a playback error |
| SpeakerCode.TTSSpeaker.TakeNext | TextToSpeech/impl/TTSSpeaker.cpp:1012-1036 | one step of the machine: the next utterance is in hand, or a new pass begins |
| SpeakerCode.TTSSpeaker.Announce | TextToSpeech/impl/TTSSpeaker.cpp:1038-1041 | one step of the machine: willSpeak unless flushed meanwhile |
| SpeakerCode.TTSSpeaker.SpeakText | TextToSpeech/impl/TTSSpeaker.cpp:924-978 | one step of the machine: up to the wait for the end of the audio |
| SpeakerCode.TTSSpeaker.StopWaiting | TextToSpeech/impl/TTSSpeaker.cpp:956-961 | one step of the machine: nothing is current any more |
| SpeakerCode.TTSSpeaker.TryLocalEndpoint | TextToSpeech/impl/TTSSpeaker.cpp:1048-1052 | one step of the machine: a second try exactly after a remote error of an utterance not flushed |
| SpeakerCode.TTSSpeaker.Report | TextToSpeech/impl/TTSSpeaker.cpp:1057-1069 | one step of the machine: the outcome by flushed, network error, pipeline error, in this order, and the flag down |
| SpeakerCode.TTSSpeaker.FinishPass | TextToSpeech/impl/TTSSpeaker.cpp:1071-1073 | one step of the machine: the pipeline is reset before the next pass |
| SpeakerCode.TTSSpeaker.BeginPass | TextToSpeech/impl/TTSSpeaker.cpp:995-1010 | the pipeline is made or unmade if due, and the first queued utterance fails exactly if it is wanted and could not be made |
| SpeakerCode.TTSSpeaker.Try | TextToSpeech/impl/TTSSpeaker.cpp:1043-1052 | after both tries, if there are two, the report will say what PassOutcome says |
| SpeakerCode.HeardFlags | TextToSpeech/impl/TTSSpeaker.cpp:1083-1109 | after any messages each error flag is up if and only if it was or one of them raised it |
| Watchdog.TimesOutOnlyWhenIdle | TextToSpeech/impl/TTSSpeaker.cpp:829-885 | in every run the loop leaves for a timeout only after a whole timeout since the last sign of life, and its last turn found no pause, no known duration left (by the messages) and no position beyond the furthest it had looked at, unless the thread was held up that long |
| Watchdog.TimeoutRunsSince | TextToSpeech/impl/TTSSpeaker.cpp:829-885 | the timeout always runs from the start or from the last sign of life |
| Watchdog.HoldsWhatWasObserved | TextToSpeech/impl/TTSSpeaker.cpp:829-885 | in every turn that the loop reaches it holds the timeout, the duration and the position that the observations give, and it reaches exactly the turns before the first that is overdue, interrupted or at the end of the stream |
| Watchdog.KnownFromMessages | TextToSpeech/impl/TTSSpeaker.cpp:1125-1126 | the known duration is that of the last message, or zero once a turn since has found that one over |
| Watchdog.GoesOnWhileKnown | TextToSpeech/impl/TTSSpeaker.cpp:853-859 | a turn that is neither interrupted nor at the end of the stream, with the clock before the end of the known duration, goes on, and in time for the next one |
| Watchdog.NoTimeoutWithinTheDuration | TextToSpeech/impl/TTSSpeaker.cpp:853-859 | after a message of d, scheduled in time and with no other message since, the loop does not time out before start + d |
| Watchdog.IdleTurnIsTheLast | TextToSpeech/impl/TTSSpeaker.cpp:836-872 | a turn without a sign of life is the last one |
| Watchdog.PausedNeverLeaves | TextToSpeech/impl/TTSSpeaker.cpp:848-850 | while the speech is paused the loop does not time out |
| Watchdog.HeldUpLeavesUnlooked | TextToSpeech/impl/TTSSpeaker.cpp:836-872 | two sequences of turns in which it gives up despite a sign of life: before its first turn, and straight after a new timeout was set |
| Watchdog.WaitForAudioToFinish | TextToSpeech/impl/TTSSpeaker.cpp:829-885 | ends if from some turn on nothing pauses, no new duration comes in and the position is bounded; leaves in the first turn that is overdue, interrupted or at the end of the stream, and for a timeout exactly if it is overdue, all by the observations |
| AudioPlayers.OneActivePerMode | SystemAudioPlayer/SystemAudioPlayerImplementation.cpp:533-554 | in every run two sessions of a mode that are active or say they are playing are one |
| AudioPlayers.SameModeOutcome | SystemAudioPlayer/SystemAudioPlayerImplementation.cpp:533-554 | refused if and only if another session of the mode is playing; the named one is such a session and untouched; when granted all mates are stopped; nobody else changes |
| AudioPlayers.PlayOutcome | SystemAudioPlayer/SystemAudioPlayerImplementation.cpp:198-238 | a refused Play names the only active session of the mode and changes no active session; an accepted one stops every mate and starts this session |
| AudioPlayers.InactiveUntilPlayed | SystemAudioPlayer/impl/AudioPlayer.cpp:882-899 | a session that holds nothing cannot play or resume in any run that does not play it |
| AudioPlayers.PreemptedCannotResume | SystemAudioPlayer/impl/AudioPlayer.cpp:861-899 | a paused session that another one took over from can no longer resume |
| AudioPlayers.PhantomsExactly | SystemAudioPlayer/impl/AudioPlayer.cpp:1000-1046 | in a run no session would, once its first packet is through, say it is playing with an idle pipeline, if and only if smart volume control never rebuilt the pipeline of a session in PLAYING that did not count as playing |
| AudioPlayers.ThenPhantom | SystemAudioPlayer/impl/AudioPlayer.cpp:247-257 | of all steps on a session exactly such a call makes it one |
| AudioPlayers.PlayingMeansAsked | SystemAudioPlayer/impl/AudioPlayer.cpp:247-257 | in every run without such a call a session that says it is playing has a pipeline that was asked to |
| AudioPlayers.SmartVolumeLeavesAPhantom | SystemAudioPlayer/impl/AudioPlayer.cpp:1000-1046 | a run in which a session with an idle pipeline says it is playing |
| AudioPlayers.DeliverFollows | SystemAudioPlayer/impl/AudioPlayer.cpp:529-724 | no bus message makes a session hold the hardware that did not |
| AudioPlayers.StopFollows | SystemAudioPlayer/impl/AudioPlayer.cpp:726-881 | a stopped session holds nothing, also after an error or the end of the stream |
| AudioPlayers.IdsRepeat | SystemAudioPlayer/SystemAudioPlayerImplementation.cpp:307-314 | two calls give the same identifier if and only if they are a multiple of 2^32 - 1 calls apart |
| AudioLife.IdsFitAnInt | SystemAudioPlayer/SystemAudioPlayerImplementation.cpp:307-314 | an identifier as the int it is stored in: itself modulo 2^32, and never 0 |
| AudioLife.OpenExactly | SystemAudioPlayer/SystemAudioPlayerImplementation.cpp:504-575 | in every run a session is in the table if and only if some Open gave it its identifier, the n-th Open the n-th one, and no Close took it since |
| AudioLife.LetsGoExactly | SystemAudioPlayer/impl/AudioPlayer.cpp:541-576 | of all bus messages exactly the end of the stream and an error make a session let go of its hardware, and then it does not say it is playing |
| AudioLife.EndFreesTheMode | SystemAudioPlayer/impl/AudioPlayer.cpp:567-576 | in every run, after one of these Play of another session of the mode is granted if and only if no third one is playing |
| AudioLife.SaysWhatItDoes | SystemAudioPlayer/impl/AudioPlayer.cpp:606-700 | in every run a session whose pipeline is where it was asked to be, and that has heard everything, says it is playing or paused as its pipeline is; it can be paused exactly if it was last asked to play, resumed exactly if to pause |
| AudioLife.CallsTakeEffect | SystemAudioPlayer/impl/AudioPlayer.cpp:801-924 | left to its pipeline, a played session plays, a paused one can be resumed, a resumed one plays and can be paused again |
| AudioLife.ConnectsAsAsked | SystemAudioPlayer/impl/AudioPlayer.cpp:640-654 | a played websocket session gets the kind of connection that its url asks for |
| AudioLife.FallsBackExactly | SystemAudioPlayer/impl/AudioPlayer.cpp:486-517 | one whose connection is lost goes on with an unsecured one, and is changed by the loss if and only if the connection was secured |
| AudioPlayerCode.AudioPlayer.constructor | SystemAudioPlayer/impl/AudioPlayer.cpp:48-100 | a new session holds nothing |
| AudioPlayerCode.AudioPlayer.IsPlaying | SystemAudioPlayer/impl/AudioPlayer.cpp:247-257 | playing, and for a fed source past its first packet |
| AudioPlayerCode.AudioPlayer.ResetPipeline | SystemAudioPlayer/impl/AudioPlayer.cpp:726-749 | a pipeline at rest unless it could not be rebuilt, and not paused |
| AudioPlayerCode.AudioPlayer.Stop | SystemAudioPlayer/impl/AudioPlayer.cpp:861-881 | from every state: the pipeline at rest, or missing where it could not be rebuilt, READY, not paused, and for a fed source no connection and the first packet to come |
| AudioPlayerCode.AudioPlayer.Play | SystemAudioPlayer/impl/AudioPlayer.cpp:801-817 | whatever it did before is stopped and its pipeline is asked to play; without a pipeline only the url is taken |
| AudioPlayerCode.AudioPlayer.Pause | SystemAudioPlayer/impl/AudioPlayer.cpp:839-859 | true exactly for a playing session that is not fed and not paused |
| AudioPlayerCode.AudioPlayer.Resume | SystemAudioPlayer/impl/AudioPlayer.cpp:882-899 | true exactly for a session that is paused and has reached that state |
| AudioPlayerCode.AudioPlayer.Connect | SystemAudioPlayer/impl/AudioPlayer.cpp:644-668 | a websocket session is connected once, and falls back to an unsecured connection only after a secured one was lost |
| AudioPlayerCode.AudioPlayer.HandleMessage | SystemAudioPlayer/impl/AudioPlayer.cpp:529-724 | a message without a pipeline is refused; an error or the end of the stream stops the session, which is READY, not active and not connected after; a change of state is taken note of and leaves the pipeline alone |
| AudioPlayerCode.AudioPlayer.SetSmartVolControl | SystemAudioPlayer/impl/AudioPlayer.cpp:1000-1046 | refused while playing; else enabling rebuilds the pipeline and leaves the rest of the state |
| AudioPlayerCode.SystemAudioPlayerImplementation.NextId | SystemAudioPlayer/SystemAudioPlayerImplementation.cpp:307-314 | the next identifier, 1 after 2^32 - 1 |
| AudioPlayerCode.SystemAudioPlayerImplementation.Open | SystemAudioPlayer/SystemAudioPlayerImplementation.cpp:504-510 | one new session under its identifier, all others as they were |
| AudioPlayerCode.SystemAudioPlayerImplementation.Close | SystemAudioPlayer/SystemAudioPlayerImplementation.cpp:556-570 | exactly that session leaves the table |
| AudioPlayerCode.SystemAudioPlayerImplementation.SameModeNotPlaying | SystemAudioPlayer/SystemAudioPlayerImplementation.cpp:533-554 | the loop over the table in key order, updating the sessions in place, gives the outcome of SameMode |
| AudioPlayerCode.SystemAudioPlayerImplementation.Play | SystemAudioPlayer/SystemAudioPlayerImplementation.cpp:198-238 | one step of the model; the answer names the holder exactly when it is refused for one |
| AudioPlayerCode.SystemAudioPlayerImplementation.Pause | SystemAudioPlayer/SystemAudioPlayerImplementation.cpp:391-407 | one step of the model; true exactly when the session can pause |
| AudioPlayerCode.SystemAudioPlayerImplementation.Stop | SystemAudioPlayer/SystemAudioPlayerImplementation.cpp:270-287 | one step of the model; true exactly when there is such a session |
| AudioPlayerCode.SystemAudioPlayerImplementation.Resume | SystemAudioPlayer/SystemAudioPlayerImplementation.cpp:409-426 | one step of the model; true exactly when the session can resume |
| JsonRpc.OneOwnerEach | helpers/WebSockets/CommunicationInterface/JsonRpcInterface.h:72-103 | in every run each registered id belongs to exactly one caller, a caller between insertion and erasure owns its id, and with nobody there the map is empty |
| JsonRpc.RemovesItsOwn | helpers/WebSockets/CommunicationInterface/JsonRpcInterface.h:181-186 | every caller erases exactly the promise it registered |
| JsonRpc.LateResponsesDropped | helpers/WebSockets/CommunicationInterface/JsonRpcInterface.h:214-225 | a response changes a caller if and only if it has its id, a registered promise and no answer yet, and then only its answer |
| JsonRpc.TrueOnlyForItsOwn | helpers/WebSockets/CommunicationInterface/JsonRpcInterface.h:148-166 | a finished call returned true if and only if it was woken with an acceptable response |
| JsonRpc.FalseExactly | helpers/WebSockets/CommunicationInterface/JsonRpcInterface.h:73-187 | in every run a finished call has returned false if and only if in some step its id was taken, its request was not sent, its wait ended without an answer, or its answer was not acceptable |
| JsonRpc.TrueWasAnswered | helpers/WebSockets/CommunicationInterface/JsonRpcInterface.h:72-103 | behind every true there is one response of the run, routed to the caller's id while its promise was registered, and acceptable |
| JsonRpc.AnswerWasBrought | helpers/WebSockets/CommunicationInterface/JsonRpcInterface.h:214-225 | an answer came in a step of the run, to a caller that held its promise |
| JsonRpc.NoResponseTwice | helpers/WebSockets/CommunicationInterface/JsonRpcInterface.h:214-225 | no response answers two calls |
| JsonRpc.ThrowsExactlyOnTheSecond | helpers/WebSockets/CommunicationInterface/JsonRpcInterface.h:214-225 | set_value throws if and only if an earlier response reached the same registration |
| JsonRpc.AcceptedIsSuccess | helpers/WebSockets/JsonRpc/Response.cpp:74-110 | a response is accepted if and only if it has version 2.0, the id of the request, a result that says success, and no error |
| JsonRpcCode.JsonRpcInterface.Reached | helpers/WebSockets/CommunicationInterface/JsonRpcInterface.h:72-103 | the object is always where a run of the machine leads |
| JsonRpcCode.JsonRpcInterface.IsRequestProcessingOngoing | helpers/WebSockets/CommunicationInterface/JsonRpcInterface.h:188-193 | ongoing exactly when the id is in the map; one step of the machine |
| JsonRpcCode.JsonRpcInterface.CreateFutureResponse | helpers/WebSockets/CommunicationInterface/JsonRpcInterface.h:168-179 | inserted exactly when the id was free, and the map changes only then |
| JsonRpcCode.JsonRpcInterface.RemovePromise | helpers/WebSockets/CommunicationInterface/JsonRpcInterface.h:181-186 | the map without the id |
| JsonRpcCode.JsonRpcInterface.HandleResponse | helpers/WebSockets/CommunicationInterface/JsonRpcInterface.h:214-225 | one arrival of the machine; throws exactly on a second answer |
| JsonRpcCode.JsonRpcInterface.ProcessResponse | helpers/WebSockets/CommunicationInterface/JsonRpcInterface.h:227-264 | true exactly for an acceptable response |
| JsonRpcCode.JsonRpcInterface.WaitFor | helpers/WebSockets/CommunicationInterface/JsonRpcInterface.h:151-165 | ready exactly when an answer has been delivered |
| JsonRpcCode.JsonRpcInterface.GetAsyncResponse | helpers/WebSockets/CommunicationInterface/JsonRpcInterface.h:148-166 | true exactly when an acceptable value is there; the promise is erased either way |
| JsonRpcCode.JsonRpcInterface.Register | helpers/WebSockets/CommunicationInterface/JsonRpcInterface.h:75-87 | registered exactly when the id was free |
| JsonRpcCode.JsonRpcInterface.Receive | helpers/WebSockets/CommunicationInterface/JsonRpcInterface.h:214-225 | of the messages that come in, the first one routed to the id is the answer |
| JsonRpcCode.JsonRpcInterface.Exchange | helpers/WebSockets/CommunicationInterface/JsonRpcInterface.h:89-102 | true exactly when sent and answered acceptably; the promise is gone either way |
| JsonRpcCode.JsonRpcInterface.SendRequest | helpers/WebSockets/CommunicationInterface/JsonRpcInterface.h:72-103 | true if and only if the id was free, the request was sent, and the first response routed to it, before or after the sending, is acceptable; the map is as before |
| TtsManager.StoreNeverSilentlyOld | TextToSpeech/impl/TTSManager.cpp:59-71 | from the first enableTTS on, after any calls, the store equals the persisted settings or the flag is set |
| TtsManager.OkAfterAnyCalls | TextToSpeech/impl/TTSManager.cpp:190-339 | from the first enableTTS on, after any calls, failed ones included: a configuration call that returns OK leaves the store equal to the persisted settings and has told of the voice if and only if voice() changed |
| TtsManager.OkMeansStored | TextToSpeech/impl/TTSManager.cpp:265-339 | a configuration call that returns OK leaves the store equal to the persisted settings, and tells of the voice if and only if voice() changed |
| TtsManager.OkTakesEffect | TextToSpeech/impl/TTSManager.cpp:190-339 | a configuration call that returns OK has taken over what it was given, empty and out-of-range values ignored, and nothing else |
| TtsManager.FailsExactly | TextToSpeech/impl/TTSManager.cpp:190-263 | the two failures by conditions on the arguments; neither stores or tells; the first changes nothing that is stored, the second sets the language and the flag |
| TtsManager.UntoldExactly | TextToSpeech/impl/TTSManager.cpp:293-322 | a configuration call changes the voice untold if and only if it fails for want of a local voice and the voice it set is new |
| TtsManager.SecondTryTellsNobody | TextToSpeech/impl/TTSManager.cpp:265-339 | repeating that call returns OK, stores, and still tells nobody |
| TtsManager.VoiceChangesUntold | TextToSpeech/impl/TTSManager.cpp:307-317 | a concrete manager and request for which this happens |
| TtsManager.FinishStores | TextToSpeech/impl/TTSManager.cpp:325-338 | the end of a call brings the store up to date, with the fallback path cleared first when a download is due |
| TtsManager.EndPointsNotStored | TextToSpeech/TextToSpeechImplementation.cpp:956-981 | endpoints are not among what is persisted, and do not change the voice |
| TtsRuns.EnabledAsLastAsked | TextToSpeech/impl/TTSManager.cpp:59-71 | after any calls, failed ones included, speech is enabled exactly as the last enableTTS said, and the store says the same; but the very first one only stores what was in force |
| TtsRuns.EnableTellsOfAChange | TextToSpeech/impl/TTSManager.cpp:59-71 | from the second one on an enableTTS tells of its argument if and only if that was not in force already, and else tells nothing |
| TtsRuns.OthersTellNoState | TextToSpeech/impl/TTSManager.cpp:193-363 | no other call tells of a change of state |
| TtsRuns.SettingsAsLastGiven | TextToSpeech/impl/TTSManager.cpp:341-363 | after any calls the duck volume, the key and the fallback text are those of the last call that gave usable ones |
| TtsRuns.EndPointsTakenAnyway | TextToSpeech/impl/TTSManager.cpp:193-203 | a configuration call takes the endpoints it is given also when it fails; the local one goes out of use exactly for a new pair whose secure one is on this host |
| TtsRuns.VoicesListed | TextToSpeech/impl/TTSManager.cpp:89-129 | the voices of a language are those of its first entry, all voices those of all entries; the voice in force is the chosen one or the first of its language |
| TtsRuns.LocalVoicesListed | TextToSpeech/impl/TTSManager.cpp:175-188 | the same of local voices |
| TtsRuns.TakesTheFirstVoice | TextToSpeech/impl/TTSManager.cpp:205-235 | a configuration call with a language and no voice takes the first voice of that language, and the first local one if the language is new and the local endpoint in use |
| TtsRuns.RestartRestores | TextToSpeech/TextToSpeechImplementation.cpp:925-981 | after any calls that leave nothing to be stored, a new process that loads the store has the state, levels, language, voice and fallback that were in force |
| TtsManagerCode.TTSConfiguration.constructor | TextToSpeech/impl/TTSSpeaker.cpp:36-61 | the defaults of a new configuration |
| TtsManagerCode.TTSConfiguration.SetEndPoint | TextToSpeech/impl/TTSSpeaker.cpp:114-122 | an empty endpoint is ignored |
| TtsManagerCode.TTSConfiguration.SetSecureEndPoint | TextToSpeech/impl/TTSSpeaker.cpp:124-132 | an empty endpoint is ignored |
| TtsManagerCode.TTSConfiguration.SetApiKey | TextToSpeech/impl/TTSSpeaker.cpp:165-173 | an empty key is ignored |
| TtsManagerCode.TTSConfiguration.SetLanguage | TextToSpeech/impl/TTSSpeaker.cpp:195-203 | an empty language is ignored |
| TtsManagerCode.TTSConfiguration.SetLocalVoice | TextToSpeech/impl/TTSSpeaker.cpp:215-221 | an empty voice is ignored |
| TtsManagerCode.TTSConfiguration.SetVolume | TextToSpeech/impl/TTSSpeaker.cpp:223-231 | volumes outside 1 to 100 are ignored |
| TtsManagerCode.TTSConfiguration.SetRate | TextToSpeech/impl/TTSSpeaker.cpp:253-261 | rates outside 1 to 100 are ignored |
| TtsManagerCode.TTSConfiguration.SetUtteranceVolume | TextToSpeech/impl/TTSSpeaker.cpp:233-241 | volumes outside 0 to 1 are ignored, but for the value that means unspecified |
| TtsManagerCode.TTSConfiguration.SetUtteranceRate | TextToSpeech/impl/TTSSpeaker.cpp:263-271 | rates outside 0.1 to 10 are ignored, but for the value that means unspecified |
| TtsManagerCode.TTSConfiguration.SetPitch | TextToSpeech/impl/TTSSpeaker.cpp:243-251 | pitches outside 0 to 2 are ignored, but for the value that means unspecified |
| TtsManagerCode.TTSConfiguration.SetEnabled | TextToSpeech/impl/TTSSpeaker.cpp:291-294 | the field is the argument, nothing else changes, and it returns true exactly when that is a change |
| TtsManagerCode.TTSConfiguration.SetVoice | TextToSpeech/impl/TTSSpeaker.cpp:205-213 | returns true exactly when the configuration changed; the empty voice is ignored |
| TtsManagerCode.TTSConfiguration.SetSpeechRate | TextToSpeech/impl/TTSSpeaker.cpp:185-193 | a blank rate is ignored |
| TtsManagerCode.TTSConfiguration.SetPrimVolDuck | TextToSpeech/impl/TTSSpeaker.cpp:273-281 | bytes over 127 arrive negative and are ignored, as are those over 100 |
| TtsManagerCode.TTSConfiguration.SetFallBackText | TextToSpeech/impl/TTSSpeaker.cpp:386-398 | a new scenario or text replaces all three and enables the fallback; a new path alone is ignored |
| TtsManagerCode.TTSConfiguration.LoadFromConfigStore | TextToSpeech/TextToSpeechImplementation.cpp:925-953 | the stored settings go through the setters, each of which may ignore its own |
| TtsManagerCode.TTSConfiguration.VoiceNow | TextToSpeech/impl/TTSSpeaker.cpp:310-323 | the chosen voice, or the first one of the language |
| TtsManagerCode.TTSConfiguration.LocalVoiceNow | TextToSpeech/impl/TTSSpeaker.cpp:325-338 | the chosen local voice, or the first one of the language |
| TtsManagerCode.TTSManager.constructor | TextToSpeech/impl/TTSManager.cpp:30-40 | the flag is down and the store is whatever it was |
| TtsManagerCode.TTSManager.UpdateConfigStore | TextToSpeech/TextToSpeechImplementation.cpp:956-981 | the store equals the persisted settings, voice() and not the chosen voice among them |
| TtsManagerCode.TTSManager.EnableTTS | TextToSpeech/impl/TTSManager.cpp:59-71 | the first call takes what is in force, every other one its argument; it stores and tells on the first call and whenever that changes something, and else does neither |
| TtsManagerCode.TTSManager.ListVoices | TextToSpeech/impl/TTSManager.cpp:89-129 | the current voice and those of its language, those of one language, or all |
| TtsManagerCode.TTSManager.ListLocalVoices | TextToSpeech/impl/TTSManager.cpp:175-188 | the current local voice, or those of one language |
| TtsManagerCode.TTSManager.SetEndPoints | TextToSpeech/impl/TTSManager.cpp:193-203 | a new secure endpoint on this host puts the local one out of use |
| TtsManagerCode.TTSManager.SetVoiceAndLanguage | TextToSpeech/impl/TTSManager.cpp:205-223 | fails exactly for a language without a voice, changing nothing; else the flag is raised exactly when one of the two changed |
| TtsManagerCode.TTSManager.SetLocalVoice | TextToSpeech/impl/TTSManager.cpp:226-235 | fails exactly for a new language without a local voice, changing nothing |
| TtsManagerCode.TTSManager.SetLevels | TextToSpeech/impl/TTSManager.cpp:313-315 | the flag is raised exactly when a level changed |
| TtsManagerCode.TTSManager.FinishCall | TextToSpeech/impl/TTSManager.cpp:325-338 | tells of a new voice and brings the store up to date |
| TtsManagerCode.TTSManager.SetConfiguration | TextToSpeech/impl/TTSManager.cpp:265-339 | both configuration calls, early returns included: settings, flag, store and events after the call are those of Configured |
| TtsManagerCode.TTSManager.SetFallbackText | TextToSpeech/impl/TTSManager.cpp:341-345 | sets the flag exactly when the configuration changed |
| TtsManagerCode.TTSManager.SetPrimaryVolDuck | TextToSpeech/impl/TTSManager.cpp:347-351 | sets the flag exactly when the configuration changed |
| TtsManagerCode.TTSManager.SetAPIKey | TextToSpeech/impl/TTSManager.cpp:353-363 | sets the flag exactly when the key changed and a fallback text waits for its path |
| Sanitizer.SixPassesClean | TextToSpeech/impl/TTSURLConstructer.cpp:317-325 | no "://" is left and none of $ # & and the bar and the slash is isolated in the final text, though each pass judges a half-rewritten one |
| Sanitizer.NoneLeft | TextToSpeech/impl/TTSURLConstructer.cpp:260-273 | one pass leaves no isolated occurrence of its symbol |
| Sanitizer.IsolatesNothing | TextToSpeech/impl/TTSURLConstructer.cpp:260-273 | a pass makes no other symbol isolated |
| Sanitizer.SixPassesIdle | TextToSpeech/impl/TTSURLConstructer.cpp:317-325 | the passes leave a text alone if and only if no symbol is isolated in it |
| Sanitizer.SixPassesTwice | TextToSpeech/impl/TTSURLConstructer.cpp:317-325 | running the passes again changes nothing |
| Sanitizer.SymbolsReadAs | TextToSpeech/impl/TTSURLConstructer.cpp:320-325 | a symbol that stands alone is read as dollar, pound, and, bar or or, and nothing else is touched |
| Sanitizer.SchemeReadAs | TextToSpeech/impl/TTSURLConstructer.cpp:319-319 | "://" is read as colon slash slash, wherever it stands |
| Sanitizer.EarlierPassWins | TextToSpeech/impl/TTSURLConstructer.cpp:319-325 | of two symbols side by side only the one whose pass comes first is read out, whichever stands first |
| Sanitizer.Classes | TextToSpeech/impl/TTSURLConstructer.cpp:275-278 | which characters are punctuation, white space and silent punctuation |
| Sanitizer.CleanDefined | TextToSpeech/impl/TTSURLConstructer.cpp:280-303 | the loop reads past the end if and only if a double quote it looks at is the last character, by a three-state automaton on the text |
| Sanitizer.OverrunsOnlyAtAQuote | TextToSpeech/impl/TTSURLConstructer.cpp:283-289 | a text that does not end in a double quote gets through |
| Sanitizer.CleanDeletes | TextToSpeech/impl/TTSURLConstructer.cpp:280-303 | only quotes and silent punctuation are deleted, the rest stays in order |
| Sanitizer.CleanSettles | TextToSpeech/impl/TTSURLConstructer.cpp:291-298 | of a text without quotes no silent punctuation is left after punctuation, even across white space |
| Sanitizer.SettledMeans | TextToSpeech/impl/TTSURLConstructer.cpp:291-298 | the same by positions in the text |
| Sanitizer.CleanFixesExactly | TextToSpeech/impl/TTSURLConstructer.cpp:280-303 | the pass leaves a text alone if and only if it has no quotes and no silent punctuation after punctuation |
| Sanitizer.CleanSoundExactly | TextToSpeech/impl/TTSURLConstructer.cpp:280-303 | for any text that gets through, quotes included: the result is free of quotes and of silent punctuation after punctuation, and a second run is the identity, if and only if no such character is passed over behind an erased quote, read off the text by an automaton |
| Sanitizer.CleanTwice | TextToSpeech/impl/TTSURLConstructer.cpp:280-303 | of a text without quotes a second run is the identity |
| Sanitizer.QuotesSpoilIt | TextToSpeech/impl/TTSURLConstructer.cpp:283-289 | a text with a quote behind which silent punctuation is passed over |
| Sanitizer.SanitizedIsClean | TextToSpeech/impl/TTSURLConstructer.cpp:317-327 | the whole clean-up leaves no isolated symbol and no "://" |
| Sanitizer.SanitizedTwice | TextToSpeech/impl/TTSURLConstructer.cpp:317-327 | of a text without quotes the clean-up gets through, and doing it again changes nothing |
| Sanitizer.SanitizedTwiceExactly | TextToSpeech/impl/TTSURLConstructer.cpp:317-327 | for any text that gets through, doing it again changes nothing if and only if nothing was passed over |
| SanitizerCode.ReplaceIfIsolated | TextToSpeech/impl/TTSURLConstructer.cpp:260-273 | the find-and-replace loop with its moving position, for any search and replacement, equals the recursive replacement |
| SanitizerCode.ReplaceSuccesivePunctuation | TextToSpeech/impl/TTSURLConstructer.cpp:280-303 | the two nested erasing loops equal Clean, the read past the end included |
| SanitizerCode.SanitizeString | TextToSpeech/impl/TTSURLConstructer.cpp:317-327 | the seven passes in order |
| Base64.DecodeEncode | helpers/UtilsString.h:163-196 | decoding gives every byte string back, padded or not, as section 4 of RFC 4648 requires |
| Base64.EncodedLength | helpers/UtilsString.h:163-196 | 4*ceil(n/3) letters padded, ceil(4n/3) unpadded |
| Base64.ByteByByte | helpers/UtilsString.h:169-184 | carrying bits from byte to byte gives the groups of three of the RFC |
| Base64.BitForms | helpers/UtilsString.h:171-180 | the masks and shifts on bytes are the divisions and remainders of the model |
| Base64.LettersOfTheTable | helpers/UtilsString.h:157-159 | the letters are those of table 1 of RFC 4648, in its order |
| Base64.TestVectors | helpers/UtilsString.h:163-196 | three of the test vectors of section 10 of RFC 4648 |
| Base64.Take | helpers/UtilsString.h:169-184 | one byte appends exactly the groups that it completes and carries the bits that it leaves over |
| Base64.ImageEncoder | helpers/UtilsString.h:163-196 | the three-state loop appends exactly the RFC encoding to its result |
| CasDispatch.ReferencesBalance | UnifiedCASManagement/UnifiedCASManagementImplementation.cpp:193-274 | in every run references held on a sink = (1 if listed) + dispatches that have not released it |
| CasDispatch.CalledOnlyWhileHeld | UnifiedCASManagement/UnifiedCASManagementImplementation.cpp:263-271 | a sink is held from before its call until after, also when it unregisters itself meanwhile, and so is every sink still to be called |
| CasDispatch.NothingLeaks | UnifiedCASManagement/UnifiedCASManagementImplementation.cpp:193-274 | with no dispatch under way exactly the listed sinks are held, once each |
| CasDispatch.DeliversItsSnapshot | UnifiedCASManagement/UnifiedCASManagementImplementation.cpp:246-274 | a finished dispatch has called exactly the sinks listed when it began, once each, in order, with its payload |
| CasDispatch.DeliversAPrefix | UnifiedCASManagement/UnifiedCASManagementImplementation.cpp:263-271 | one under way has called the first of them |
| CasListeners.ListedExactly | UnifiedCASManagement/UnifiedCASManagementImplementation.cpp:193-243 | in every run a sink is listed if and only if the last Register or Unregister of it is a Register |
| CasListeners.ListedInOrder | UnifiedCASManagement/UnifiedCASManagementImplementation.cpp:193-243 | the list is in the order of the Registers that put its sinks there |
| CasListeners.CallsExactlyTheRegistered | UnifiedCASManagement/UnifiedCASManagementImplementation.cpp:246-274 | a finished dispatch has called a sink once, with its payload, if the last Register or Unregister of it before the dispatch was a Register, and else never |
| CasListeners.CallsWhoRegistered | UnifiedCASManagement/UnifiedCASManagementImplementation.cpp:246-274 | one begun after Register(k), with no Unregister(k) in between, has called k exactly once |
| CasListeners.CallsNobodyWhoLeft | UnifiedCASManagement/UnifiedCASManagementImplementation.cpp:246-274 | one begun after Unregister(k), with no Register(k) in between, has not called k |
| CasDispatchCode.UnifiedCASManagementImplementation.Reached | UnifiedCASManagement/UnifiedCASManagementImplementation.cpp:193-274 | the object is always where a run of the machine leads |
| CasDispatchCode.UnifiedCASManagementImplementation.Register | UnifiedCASManagement/UnifiedCASManagementImplementation.cpp:193-217 | refused exactly when the sink is listed; else it is last in the list and held once more; one step of the model |
| CasDispatchCode.UnifiedCASManagementImplementation.Unregister | UnifiedCASManagement/UnifiedCASManagementImplementation.cpp:219-243 | an error exactly when the sink is not listed; else it is off the list and held once less, and no other sink goes; one step of the model |
| CasDispatchCode.UnifiedCASManagementImplementation.Snapshot | UnifiedCASManagement/UnifiedCASManagementImplementation.cpp:255-261 | the copy is the list, and each sink on it is held once more |
| CasDispatchCode.UnifiedCASManagementImplementation.CallOne | UnifiedCASManagement/UnifiedCASManagementImplementation.cpp:265-270 | one call, whatever happens to the list meanwhile, and one release |
| CasDispatchCode.UnifiedCASManagementImplementation.EventData | UnifiedCASManagement/UnifiedCASManagementImplementation.cpp:246-274 | each sink of the list is called once, in order, with the payload, whatever the list goes through during the calls |
| Settings.ReadsBackExactly | helpers/cSettings.h:160-210 | reading what was written gives back exactly the settings with a value if and only if none has a newline or NUL in its key or a newline or equals sign in its value |
| Settings.LineReadsBack | helpers/cSettings.h:199-203 | a line gives its setting back if and only if the value has no equals sign |
| Settings.ReadIsGood | helpers/cSettings.h:189-210 | nothing that is read has a newline, a NUL in its key or an equals sign in its value |
| Settings.ReadAsLastGiven | helpers/cSettings.h:189-210 | from any file a key has the value that the last line mentioning it gives, and none if no line does; a line without an equals sign mentions none |
| Settings.EqualsSignMovesTheKey | helpers/cSettings.h:201-203 | a setting that comes back under another key |
| SettingsCode.CSettings.constructor | helpers/cSettings.h:41-54 | a new object holds what is read from its file; a missing file is created |
| SettingsCode.CSettings.Contains | helpers/cSettings.h:114-127 | true exactly for a setting with a value |
| SettingsCode.CSettings.SetValue | helpers/cSettings.h:79-83 | the setting is changed in memory whether or not it could be written; the file is all settings or as before |
| SettingsCode.CSettings.Remove | helpers/cSettings.h:134-154 | the setting is gone from what has a value, however the JSON object removes it |
| SettingsCode.CSettings.WriteToFile | helpers/cSettings.h:160-183 | the loop prints every setting with a value, in the given order |
| SettingsCode.CSettings.ReadFromFile | helpers/cSettings.h:189-210 | the loop over getline reads every line up to the end of the file |
| SettingsCode.LineReader.GetLine | helpers/cSettings.h:199-200 | the pieces between newlines come one by one, the last one also when it is empty |

## Left out

- QueueFates.ByteStream: one feeding thread, as each player has; with several, pushed chunks interleave. The test for an empty queue before each remove, which only raises an event, and the answer of appsrc are not modelled.
- JsonRpcCode.JsonRpcInterface.SendRequest: no other caller runs in between; JsonRpc has every interleaving.
- Watchdog.WaitForAudioToFinish: a speech that pauses for ever, or a position that grows for ever, keeps it going; times are whole nanoseconds of an abstract clock.
- SpeakerCode.TTSSpeaker.RunPass: disturbed only by what comes in while the utterance plays; every interleaving is in Speaker.
- SpeakerPasses.OnePerPass: passes in which a caller flushes the queue or changes the pipeline flag are excluded; they may take none.
- AudioPlayers.OneActivePerMode: about the sessions in the table; one that a repeated identifier pushes out of the table after 2^32 - 1 openings is no longer counted.
- AudioPlayers.IdsRepeat: `nextSpeechId` of TextToSpeech/TextToSpeechImplementation.cpp is the same function; the speaker's model takes distinct ids for granted.
- Speaker: its destructor and the end of its threads, `speechState`, the volume calls, the waits for a pipeline state, and `front()` on a list that a flush emptied between the worker's test and its dequeue.
- Pipeline: which kind of audio the pipeline is for; the answer that raw audio could not be set up is allowed for both kinds.
- `PlayBuffer`: it starts playback without the same-mode check.
- Audio sessions: the events raised to listeners, caps, mixer levels, urls beyond whether they are accepted and secured, and API calls that overlap.
- AudioLife.CallsTakeEffect: a pipeline that can be rebuilt, no end of the stream or error pending, and nobody interferes until it has come to rest.
- TtsRuns.RestartRestores: settings that the setters let through, loaded into the defaults of a new configuration, which choose no voice, rate of speech or fallback.
- Media elements and bus messages other than state changes, errors and the end of a stream; calls into the audio platform.
- `TTSDownloader`: it downloads, sleeps and stores its own snapshot of the configuration.
- Settings of the text-to-speech manager: floating-point numbers are reals, and the text they are stored as is not modelled; nor are RFC endpoints, access lists and `getVoices`.
- `curlSanitize`, the URLs built around the sanitised text, and the requests to the endpoint.
- Bytes outside the C locale's punctuation and white space count as neither, also those over 127.
- JSON parsing and printing, notifications, the transport below `send`, and the deferred state of a future, which the code calls impossible.
- The plugin shells, JSON-RPC registration, logging and the platform helpers.
