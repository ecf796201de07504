# revolt voice relay: turn tracking and playback, in Dafny

revolt is a browser voice chat. The browser streams microphone audio to a Node
relay. The relay forwards it to a live speech model and streams the model's
spoken answer back. This project models the two small state machines in the
middle and the sample codecs around them, and proves what they promise.

- **The relay's turn tracker** (`backend/server.js`). Each upstream message
  goes to the session's `onmessage` callback. That callback does three things:
  - it announces a new turn with `generation_start` when a model turn begins
    while nothing is generating;
  - it reports `interrupt` for the current turn;
  - it queues the message.
  `handleTurn` drains the queue first-in-first-out. It forwards `audio` for
  every message with data that is not flagged interrupted, and ends the turn at
  `turnComplete`.
  - State: the immutable `Server.Relay` record.
  - Transitions: `Server.OnMessage` and `Server.HandleMessage`. The
    `handleTurn` loop is `Server.HandleTurn`, written as a recursion over the
    queue.
  - Runs: `Server.Run` folds the callbacks and consumer steps over any
    interleaving.
  - Connection: `Server.Serve` models the handler, including the path where
    connecting upstream fails.
- **The browser's playback controller** (`frontend/src/App.js`). It keeps
  `currentTurnId`, the generating flag, `nextStartTime`, the set of started
  sources and the time of the last handled interrupt.
  - `Client.Dispatch` is `ws.onmessage`.
  - `Client.PlayAudioBuffer` schedules each chunk right after the previous one.
  - `Client.HandleInterruption` stops everything, debounced to once per 100 ms.
  - `Client.Receive` folds the dispatcher over a run of messages.
  - Inputs: the wall clock (`Date.now()`) and the output clock
    (`AudioContext.currentTime`) are parameters of each message.
  - Sources: modelled as abstract ids.
- **The codecs.**
  - `Pcm`: little-endian 16-bit PCM decoding and normalisation, and the
    microphone's float-to-int16 clamp.
  - `Base64`: the client's validation and cleaning of base64 payloads. `atob`
    is specified as the forgiving-base64 decode of the WHATWG Infra Standard.
    The encoder the payload comes from is the padded base64 of section 4 of
    RFC 4648.
- **`Scenarios`** runs a barge-in through the relay and the browser together.

Layout: `wrappers.dfy` (Option, Result), `wire.dfy` (the JSON messages the
relay sends), `server.dfy`, `pcm.dfy`, `base64.dfy`, `client.dfy`,
`scenarios.dfy`.

The model reproduces one behaviour of the code that its comments do not
intend. The stale-turn check in `playAudioBuffer` (App.js:93-97) is meant to
drop audio from interrupted turns. On the dispatch path, however, the chunk is
tagged with the turn that is current when it arrives (App.js:215), so the
check compares the current turn with itself and never fires.

- `Client.ReceivePlaysEveryChunk` proves that every decodable chunk is played,
  whatever interrupts come in between.
- `Scenarios.BargeInPlaysStaleAudio` shows a concrete run. The relay announces
  the new turn before its consumer reaches the interrupted turn's queued audio.
  The browser then plays that audio as part of the new turn.

Fixing this needs the relay to tag audio with its turn, which is a protocol
change, so the model keeps the code's behaviour.

## Model

| member | source | states |
|---|---|---|
| Server.OnMessage | backend/server.js:105-129 | every message is queued last. An `interrupted` message sends exactly one `interrupt`, first, naming the current turn, and clears only the generating flag, keeping the turn id. A model turn while not generating (or in the same message as an interruption) raises the flag, takes the fresh id and sends exactly one `generation_start` with it, last, after any `interrupt`. A model turn while generating sends nothing and keeps the id. No audio is ever sent here |
| Server.WaitMessage | backend/server.js:58-70 | dequeues the head of the queue, so that head + rest is the queue; it yields nothing exactly when the queue is empty (where the source keeps polling) |
| Server.HandleMessage | backend/server.js:77-92 | one loop iteration: sends one `audio` with the message's data iff it has data and is not flagged interrupted. `turnComplete` clears both the flag and the id. Otherwise the id is kept and the flag survives only if the message does not carry `generationComplete` |
| Server.StepEvent | backend/server.js:102-135 | `onopen` sends the status "Session opened", `onerror` an `error` carrying the error's message, and `onclose` the status "Session closed: " + reason, none of them touching the relay state. An arrival is `onmessage`. A consumer step on an empty queue does nothing; otherwise it is one `handleTurn` iteration on the head of the queue. Every step keeps the relay invariant that a generating relay has a turn id |
| Server.StepKeepsQueueOrder | backend/server.js:128 | after one step the queue is a suffix of the old queue followed by what arrived: messages are only appended at the back, and taken from the front by the `shift` at line 62 |
| Server.Run | backend/server.js:102-135 | any sequence of callbacks and consumer steps keeps the relay invariant that a generating relay has a turn id |
| Server.RunKeepsQueueOrder | backend/server.js:128 | after any run, the queue is a suffix of the old queue followed by every arrival in order, so nothing is reordered or invented |
| Server.HandleTurn | backend/server.js:73-95 | the returned list is exactly the consumed prefix of the queue, in order, and the rest stays queued. It stops exactly when the queue holds a `turnComplete`, which is then its last element and the only one. The audio sent is the reference `AudioOf` of the consumed messages. On completion the flag and id are cleared; otherwise the id is kept and the flag is cleared iff some consumed message had `generationComplete` |
| Server.AudioOfAppend | backend/server.js:80-82 | the forwarded audio of two stretches of messages is the audio of the first followed by that of the second |
| Server.StepForwardsInOrder | backend/server.js:62 | one callback or consumer step moves audio from arrived to queued or from queued to sent, keeping its order |
| Server.RunForwardsInOrder | backend/server.js:128 | for any interleaving of arrivals and consumer steps, the audio sent, followed by the audio still queued, is the forwardable audio of all arrivals in arrival order |
| Server.RunCoherent | backend/server.js:107-126 | while only callbacks run, a `generation_start` is sent only when no turn is generating, and every `interrupt` names the turn most recently announced |
| Server.Serve | backend/server.js:97-143 | a failed upstream connect sends exactly one `error`, closes the socket and registers no listener, so no `audio` or `generation_start` is sent. A successful connect listens, keeps the relay invariant and forwards audio in arrival order |
| Wire.AudioMessagesAppend | backend/server.js:81 | picking out the `audio` messages distributes over concatenation |
| Pcm.LittleEndian | frontend/src/App.js:132 | the two bytes an `Int16Array` stores for a sample read back as that sample with `getInt16(…, true)` |
| Pcm.LittleEndianOfInt16At | frontend/src/App.js:132 | reading two bytes as a little-endian sample and storing it again gives the same two bytes |
| Pcm.Int16s | frontend/src/App.js:127-132 | a buffer of n bytes holds n/2 samples, sample i being the little-endian signed value of bytes 2i and 2i+1 |
| Pcm.Int16sOfEncode16 | frontend/src/App.js:127-132 | decoding the bytes of a sample array gives the samples back |
| Pcm.Encode16OfInt16s | frontend/src/App.js:127-132 | encoding the samples of an even-length buffer gives the bytes back |
| Pcm.Normalize | frontend/src/App.js:134 | a sample divided by 32768 if negative and by 32767 otherwise lies in [-1, 1] and keeps its sign. It is -1 exactly for -32768 and 1 exactly for 32767, and multiplying back by the same divisor recovers the integer |
| Pcm.SamplesOfEncode16 | frontend/src/App.js:127-135 | the normalised samples of an `Int16Array`'s bytes are its samples, normalised, one for one |
| Pcm.DecodeAudioData | frontend/src/App.js:122-151 | decoding succeeds exactly for a non-empty even number of bytes. It then yields n/2 samples at 24 kHz, lasting (n/2)/24000 s, with sample i the normalised little-endian value of bytes 2i, 2i+1. An odd length fails (the last read runs off the end) and so does an empty buffer |
| Pcm.MicSample | frontend/src/App.js:268 | the result is a 16-bit sample: the largest integer not above x·32767, clamped to [-32768, 32767]. For x in [-1, 1] it is exactly floor(x·32767) |
| Pcm.MicSampleOfNormalize | frontend/src/App.js:134 | re-encoding a decoded sample with the microphone's scaling gives the sample back, except -32768, which comes back as -32767 |
| Pcm.MicFrame | frontend/src/App.js:265-269 | one little-endian sample per microphone value, sample i being the clamped value of input i |
| Base64.Encode | backend/server.js:150 | padded base64 is a multiple of four characters long and is non-empty for non-empty input |
| Base64.EncodeLength | backend/server.js:150 | every started group of three bytes becomes four characters |
| Base64.Atob | frontend/src/App.js:71 | the decoded string holds only codes below 256. Every failure is `InvalidCharacterError`, and a length of 1 mod 4 after white space removal always fails |
| Base64.DecodeUnpadded | frontend/src/App.js:71 | the sextet decoder inverts the unpadded encoder on every byte string |
| Base64.AtobEncode | frontend/src/App.js:71 | `atob` of the padded base64 of any bytes is the binary string of those bytes |
| Base64.RemoveSpaces | frontend/src/App.js:64 | the result is no longer than the input and contains no JavaScript white space |
| Base64.RemoveSpacesOne | frontend/src/App.js:64 | a single character is dropped exactly when it is JavaScript white space and kept otherwise |
| Base64.RemoveSpacesAll | frontend/src/App.js:64 | a run of white space is removed entirely |
| Base64.RemoveSpacesAppend | frontend/src/App.js:64 | removing white space distributes over concatenation |
| Base64.StripDataUrl | frontend/src/App.js:63 | the result is a suffix of the input, and when anything is removed it is a whole `data:<type>;base64,` head whose type is non-empty and free of `;`. So `data:;base64,` or `data:a;rate=1;base64,` is left whole |
| Base64.StripDataUrlOfPrefix | frontend/src/App.js:63 | a leading `data:<type>;base64,` with a non-empty type free of `;` is removed exactly |
| Base64.StripDataUrlNoPrefix | frontend/src/App.js:63 | a string not starting with `data:` is left alone |
| Base64.ToUint8Array | frontend/src/App.js:74-77 | one byte per character, byte i being character code i whenever that code fits a byte |
| Base64.Base64ToArrayBuffer | frontend/src/App.js:54-89 | a missing (`null` or `undefined`) payload, a non-string one that has a `slice` method, or the empty string fails with "Audio conversion failed: Invalid base64 string input". A payload without a `slice` method (a number, a boolean, a plain object) fails with the catch block's own TypeError at line 84 instead. Otherwise the cleaned payload goes to `atob`, whose failure is reported with the "Audio conversion failed: " prefix. Its success gives as many bytes as characters, byte i being character code i |
| Base64.Base64ToArrayBufferEncode | frontend/src/App.js:54-89 | the client recovers exactly the bytes of any non-empty padded base64 payload, and rejects the empty one |
| Base64.Base64ToArrayBufferDataUrl | frontend/src/App.js:62-77 | the same bytes come back when the payload carries a data-URL head |
| Base64.Base64ToArrayBufferSpaced | frontend/src/App.js:62-77 | the same bytes come back when a run of white space is inserted anywhere in the padded base64 |
| Client.Initial | frontend/src/App.js:19-24 | the mounted controller has no turn, no sources, and its next start time is the output clock. Its last interrupt time is 0, so the first interrupt that comes once the wall clock is past 100 ms is handled |
| Client.HandleInterruption | frontend/src/App.js:152-181 | within 100 ms of the last handled interrupt nothing changes, not even that time. Otherwise every started source is stopped, the set is emptied, `nextStartTime` becomes the output clock, the turn is cleared, generating is off and the interrupt time is `now`. The stopped and remaining sources partition the old set |
| Client.InterruptBurstHandledOnce | frontend/src/App.js:156-158 | a second interrupt less than 100 ms after a handled one changes nothing |
| Client.InterruptForgetsHistory | frontend/src/App.js:159-178 | a handled interrupt leads to the same state whatever the state before, apart from the source ids already used |
| Client.PlayAudioBuffer | frontend/src/App.js:92-119 | a chunk is skipped, with nothing changed, exactly when its tag is truthy and differs from the current turn. Otherwise it starts at max(`nextStartTime`, clock + 0.01) with a fresh source added to the set, and `nextStartTime` becomes its end. So `nextStartTime` never decreases and is at least clock + 0.01 + duration. A started source takes the next unused id |
| Client.DecodeChunk | frontend/src/App.js:209-212 | a chunk that decodes has at least one sample |
| Client.Dispatch | frontend/src/App.js:194-220 | `status` and `error` only update the page. `interrupt` is `HandleInterruption`. `generation_start` sets the turn and the generating flag. An `audio` message is played iff it has data that decodes, tagged with the current turn, so the stale-turn skip never happens here. A decode failure shows "Error handling message: " + its message and changes nothing. Any message but `interrupt` keeps `nextStartTime` from decreasing and stops nothing. A message shows at most one line, and a played chunk takes the next unused source id |
| Client.Receive | frontend/src/App.js:194-220 | over a run of messages, each message shows at most one line and plays at most one chunk, and the id counter advances by the number of chunks played |
| Client.ReceiveConsecutiveSources | frontend/src/App.js:100-115 | the chunks played over a run take consecutive source ids, starting from the next unused one |
| Client.ReceiveAccountsForSources | frontend/src/App.js:115 | over any run, the sources playing before plus those started are those still playing plus those stopped by interrupts, and source ids stay fresh |
| Client.BackToBackNoOverlap | frontend/src/App.js:110-114 | chunks scheduled back to back never overlap: each ends before any later one starts |
| Client.ReceivePlaysBackToBack | frontend/src/App.js:109-115 | without interrupts, every chunk starts no earlier than the previous one ends and no earlier than the start time reached before the run; that time never decreases, and nothing is stopped |
| Client.ReceiveNoOverlap | frontend/src/App.js:109-115 | without interrupts, no two scheduled chunks overlap |
| Client.ReceivePlaysEveryChunk | frontend/src/App.js:94 | over any run of messages, the buffers played are exactly the decodable audio chunks in arrival order |
| Client.ChunkOfEncodedPcm | frontend/src/App.js:209-212 | padded base64 of the bytes of some samples reaches playback as exactly those samples, normalised |
| Scenarios.RunAppend | backend/server.js:105-129 | running two stretches of relay events one after the other is running their concatenation |
| Scenarios.BargeInRelayed | backend/server.js:80-128 | in a barge-in, the relay sends `generation_start` t1, `interrupt` t1, `generation_start` t2, and only then the audio of t1 and of t2 |
| Scenarios.BargeInPlaysStaleAudio | frontend/src/App.js:93-97 | the browser, fed what the relay sent, plays the interrupted turn's audio, every sample intact, while its turn is t2 |

## Left out

- WebAudio objects are not modelled: `AudioContext` creation, gain nodes, `createBuffer`, `source.start` and `stop`. Sources are abstract ids and the output clock is a parameter.
- The removal of a source from the set when it ends (App.js:104-106) is left out, so sources leave the set only on an interrupt. It needs WebAudio's clock-driven callbacks.
- `source.start` throwing (App.js:116-118) is left out. It throws only for a negative start time, and the clock is never negative.
- `outputAudioContextRef.current` being null after `stopRecording` is left out. This is component lifecycle.
- The WebSocket transport, `JSON.parse` and `JSON.stringify`, `ws.onopen`, `ws.onerror` and `ws.onclose` on the browser are left out. So are the `@google/genai` SDK, `sendRealtimeInput`, the model config and the Express health endpoint. They are foreign I/O or static configuration.
- `Date.now()` turn ids and timestamps are parameters, because the code does not make them unique.
- `waitMessage`'s `setTimeout` polling is left out. Each inbound audio frame starts another `handleTurn` loop on the shared queue (server.js:145-175), and those loops are not modelled either: the model has a single sequential consumer, and a `handleTurn` that finds the queue empty stops where the source would keep polling.
- Server.HandleTurn: models one call on the queue as it stands; a queue that runs dry before `turnComplete` ends the call with `done` false.
- React state and UI are modelled only as status and error events. Device plumbing in `startRecording` and `stopRecording` is left out, apart from the int16 clamp.
- Pcm.Normalize: exact reals; the rounding of `Float32Array` is not modelled.
- Pcm.MicSample: exact reals; the input is taken as an exact real, not a 32-bit float.
- Pcm.DecodeAudioData: the error texts of `getInt16` and `createBuffer` are browser-specific; the model fixes one wording.
- Base64.Atob: the error text of `InvalidCharacterError` is browser-specific; the model fixes one wording.
- Base64.Base64ToArrayBuffer: payloads are grouped by how the code treats them (string, missing, has `slice`, lacks `slice`), not by JavaScript type. The TypeError text for a payload without `slice` is V8's wording; other engines word it differently.
- Server.Serve: assumes `ai.live.connect` rejects before the SDK calls any of the callbacks registered at server.js:101-136. If it ran one first, the browser would also see that callback's message.
- Pcm.LittleEndian: assumes a little-endian platform. An `Int16Array` stores samples in platform byte order (App.js:265, 274), and the browser reads them back as little-endian (App.js:132).
- Base64.Encode: the upstream model's own base64 encoder is assumed to be padded RFC 4648 base64, like `Buffer.toString('base64')`.
