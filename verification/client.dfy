/** The browser's playback controller (frontend/src/App.js): the `ws.onmessage`
    dispatch, `playAudioBuffer`'s gap-free scheduling of output chunks, and
    `handleInterruption`'s debounced reset.  WebAudio sources are abstract ids;
    the output clock (`AudioContext.currentTime`) and the wall clock
    (`Date.now()`) are parameters of each step. */
module Client {
  import opened Wrappers
  import opened Wire
  import opened Pcm
  import opened Base64

  /** `AudioContext.currentTime`, in seconds; it never goes below zero. */
  type Time = t: real | t >= 0.0

  type SourceId = nat

  /** The refs the controller keeps between messages; `generating` mirrors the
      `isAIGenerating` React state. */
  datatype Player = Player(
    currentTurnId: Option<string>,
    generating: bool,
    nextStartTime: real,
    sources: set<SourceId>,
    nextSource: SourceId,
    lastInterruptTime: int)

  /** Every scheduled source has an id below the next one to be handed out, so a new id is fresh. */
  predicate Valid(p: Player) {
    forall s :: s in p.sources ==> s < p.nextSource
  }

  /** The state after mounting: no turn, no sources, and `initAudio` has set the
      next start time to the output clock. */
  function Initial(clock: Time): (p: Player)
    ensures Valid(p) && p.sources == {} && p.currentTurnId == None && !p.generating
    ensures p.nextStartTime == clock
    ensures p.lastInterruptTime == 0
    // so the first interrupt is handled once the wall clock is past the debounce window
    ensures forall now :: now >= DebounceMs ==> !Debounced(p, now)
  {
    Player(None, false, clock, {}, 0, 0)
  }

  // ---------------------------------------------------------------------------
  // `handleInterruption`

  /** Interrupts closer together than this many milliseconds are handled once. */
  const DebounceMs := 100

  predicate Debounced(p: Player, now: int) {
    now - p.lastInterruptTime < DebounceMs
  }

  /** The state after an interrupt, and the sources it stopped. */
  datatype Handled = Handled(player: Player, stopped: set<SourceId>)

  function HandleInterruption(p: Player, now: int, clock: Time): (h: Handled)
    ensures Debounced(p, now) ==> h.player == p && h.stopped == {}
    ensures !Debounced(p, now) ==>
              h.stopped == p.sources && h.player.sources == {}
              && h.player.nextStartTime == clock
              && h.player.currentTurnId == None && !h.player.generating
              && h.player.lastInterruptTime == now
    ensures h.player.nextSource == p.nextSource
    ensures h.stopped + h.player.sources == p.sources && h.stopped * h.player.sources == {}
    ensures Valid(p) ==> Valid(h.player)
  {
    if Debounced(p, now) then Handled(p, {})
    else
      Handled(Player(None, false, clock, {}, p.nextSource, now), p.sources)
  }

  /** A second interrupt within the debounce window of one that was handled changes nothing. */
  lemma InterruptBurstHandledOnce(p: Player, t1: int, t2: int, c1: Time, c2: Time)
    requires !Debounced(p, t1)
    requires t1 <= t2 < t1 + DebounceMs
    ensures HandleInterruption(HandleInterruption(p, t1, c1).player, t2, c2)
            == Handled(HandleInterruption(p, t1, c1).player, {})
  {
  }

  /** An interrupt that is handled leaves the controller in the same state
      whatever it was before, apart from the source ids already used. */
  lemma InterruptForgetsHistory(p: Player, q: Player, now: int, clock: Time)
    requires !Debounced(p, now) && !Debounced(q, now)
    requires p.nextSource == q.nextSource
    ensures HandleInterruption(p, now, clock).player == HandleInterruption(q, now, clock).player
  {
  }

  // ---------------------------------------------------------------------------
  // `playAudioBuffer`

  /** How far ahead of the output clock a chunk is scheduled at the earliest, in seconds. */
  const Lead: real := 0.01

  /** JavaScript truthiness of a turn id: `null` and the empty string are falsy. */
  predicate Truthy(tag: Option<string>) {
    tag.Some? && tag.value != ""
  }

  /** A chunk tagged with another turn than the current one is not played. */
  predicate Stale(p: Player, tag: Option<string>) {
    Truthy(tag) && tag != p.currentTurnId
  }

  /** A source started on the output: its id, its start time and what it plays. */
  datatype Scheduled = Scheduled(source: SourceId, start: real, buffer: AudioBuffer) {
    function End(): real { start + buffer.Duration() }
  }

  datatype Played = Played(player: Player, scheduled: Option<Scheduled>)

  function PlayAudioBuffer(p: Player, buf: AudioBuffer, tag: Option<string>, clock: Time): (r: Played)
    ensures r.scheduled.None? <==> Stale(p, tag)
    ensures r.scheduled.None? ==> r.player == p
    ensures r.scheduled.Some? ==>
              var s := r.scheduled.value;
              s.buffer == buf
              && p.nextStartTime <= s.start && clock + Lead <= s.start
              && (s.start == p.nextStartTime || s.start == clock + Lead)
              && r.player.nextStartTime == s.End()
              && r.player.sources == p.sources + {s.source}
              && (Valid(p) ==> s.source !in p.sources)
    ensures r.player.nextStartTime >= p.nextStartTime
    ensures r.scheduled.Some? ==> r.player.nextStartTime >= clock + Lead + buf.Duration()
    ensures r.player.currentTurnId == p.currentTurnId && r.player.generating == p.generating
    ensures r.player.lastInterruptTime == p.lastInterruptTime
    // a started source takes the next id
    ensures r.scheduled.Some? ==> r.scheduled.value.source == p.nextSource && r.player.nextSource == p.nextSource + 1
    ensures r.scheduled.None? ==> r.player.nextSource == p.nextSource
    ensures Valid(p) ==> Valid(r.player)
  {
    if Stale(p, tag) then Played(p, None)
    else
      var start := if p.nextStartTime < clock + Lead then clock + Lead else p.nextStartTime;
      var s := Scheduled(p.nextSource, start, buf);
      Played(p.(nextStartTime := s.End(), sources := p.sources + {s.source}, nextSource := p.nextSource + 1), Some(s))
  }

  // ---------------------------------------------------------------------------
  // `ws.onmessage`

  /** What the page shows: `setStatus` and `setError`. */
  datatype Ui = ShowStatus(text: string) | ShowError(text: string)

  datatype Dispatched = Dispatched(player: Player, ui: seq<Ui>, stopped: set<SourceId>, scheduled: Option<Scheduled>)

  const HandlingFailed := "Error handling message: "

  /** The throwing part of the audio branch: `base64ToArrayBuffer` then `decodeAudioData`. */
  function DecodeChunk(data: string): (r: Result<AudioBuffer>)
    ensures r.Success? ==> |r.value.samples| > 0
  {
    var bytes :- Base64ToArrayBuffer(Text(data));
    DecodeAudioData(bytes)
  }

  /** One message from the server.  `now` is `Date.now()` and `clock` the output clock when it is handled. */
  function Dispatch(p: Player, m: Message, now: int, clock: Time): (d: Dispatched)
    ensures m.Status? ==> d == Dispatched(p, [ShowStatus(m.message)], {}, None)
    ensures m.Error? ==> d == Dispatched(p, [ShowError(m.message)], {}, None)
    ensures m.Interrupt? ==>
              d.ui == [] && d.scheduled.None?
              && Handled(d.player, d.stopped) == HandleInterruption(p, now, clock)
    ensures m.GenerationStart? ==>
              d.player.currentTurnId == Some(m.turnId) && d.player.generating
              && d.ui == [] && d.stopped == {} && d.scheduled.None?
              && d.player.nextStartTime == p.nextStartTime && d.player.sources == p.sources
    // the stale-turn guard never fires here: a chunk that decodes is always played
    ensures m.Audio? ==> (d.scheduled.Some? <==> m.data != "" && DecodeChunk(m.data).Success?)
    ensures m.Audio? && d.scheduled.Some? ==>
              d.scheduled.value.buffer == DecodeChunk(m.data).value && d.ui == []
    ensures m.Audio? && m.data != "" && DecodeChunk(m.data).Failure? ==>
              d.player == p && d.ui == [ShowError(HandlingFailed + DecodeChunk(m.data).error)]
    ensures m.Audio? && m.data == "" ==> d == Dispatched(p, [], {}, None)
    ensures !m.Interrupt? ==>
              d.stopped == {} && d.player.nextStartTime >= p.nextStartTime
              && p.sources <= d.player.sources
              && d.player.lastInterruptTime == p.lastInterruptTime
    ensures !m.Interrupt? && !m.GenerationStart? ==>
              d.player.currentTurnId == p.currentTurnId && d.player.generating == p.generating
    ensures d.scheduled.Some? ==> d.player.sources == p.sources + {d.scheduled.value.source}
    ensures d.scheduled.None? ==> d.player.sources + d.stopped == p.sources
    ensures d.scheduled.Some? ==>
              p.nextStartTime <= d.scheduled.value.start && d.player.nextStartTime == d.scheduled.value.End()
    ensures Valid(p) ==> Valid(d.player) && (d.scheduled.Some? ==> d.scheduled.value.source !in p.sources)
    ensures |d.ui| <= 1
    ensures d.scheduled.Some? ==> d.scheduled.value.source == p.nextSource && d.player.nextSource == p.nextSource + 1
    ensures d.scheduled.None? ==> d.player.nextSource == p.nextSource
  {
    match m
    case Status(text) => Dispatched(p, [ShowStatus(text)], {}, None)
    case Error(text) => Dispatched(p, [ShowError(text)], {}, None)
    case Interrupt(_, _) =>
      var h := HandleInterruption(p, now, clock);
      Dispatched(h.player, [], h.stopped, None)
    case GenerationStart(id) =>
      Dispatched(p.(currentTurnId := Some(id), generating := true), [], {}, None)
    case Audio(data) =>
      if data == "" then Dispatched(p, [], {}, None)
      else
        match DecodeChunk(data)
        case Failure(e) => Dispatched(p, [ShowError(HandlingFailed + e)], {}, None)
        case Success(buf) =>
          var r := PlayAudioBuffer(p, buf, p.currentTurnId, clock);
          Dispatched(r.player, [], {}, r.scheduled)
  }

  // ---------------------------------------------------------------------------
  // A run of messages

  /** A message with the two clocks read when it is handled. */
  datatype Frame = Frame(m: Message, now: int, clock: Time)

  /** Everything a run of messages did: the final state, what was shown, the
      sources started in order, and the sources stopped by interrupts. */
  datatype Session = Session(player: Player, ui: seq<Ui>, schedule: seq<Scheduled>, stopped: set<SourceId>)

  function OptionSeq<T>(o: Option<T>): seq<T> {
    if o.Some? then [o.value] else []
  }

  /** `ws.onmessage` over a run of messages: each message shows at most one
      line, and the chunks played take consecutive source ids. */
  function Receive(p: Player, fs: seq<Frame>): (s: Session)
    ensures |s.ui| <= |fs| && |s.schedule| <= |fs|
    ensures s.player.nextSource == p.nextSource + |s.schedule|
    decreases |fs|
  {
    if fs == [] then Session(p, [], [], {})
    else
      var d := Dispatch(p, fs[0].m, fs[0].now, fs[0].clock);
      var rest := Receive(d.player, fs[1..]);
      Session(rest.player, d.ui + rest.ui, OptionSeq(d.scheduled) + rest.schedule, d.stopped + rest.stopped)
  }

  lemma {:induction false} ReceiveConsecutiveSources(p: Player, fs: seq<Frame>)
    ensures forall i :: 0 <= i < |Receive(p, fs).schedule| ==> Receive(p, fs).schedule[i].source == p.nextSource + i
    decreases |fs|
  {
    if fs != [] {
      var d := Dispatch(p, fs[0].m, fs[0].now, fs[0].clock);
      ReceiveConsecutiveSources(d.player, fs[1..]);
      ConsecutiveCons(d.scheduled, Receive(d.player, fs[1..]).schedule, p.nextSource, d.player.nextSource);
    }
  }

  lemma ConsecutiveCons(first: Option<Scheduled>, rest: seq<Scheduled>, n: int, m: int)
    requires first.Some? ==> first.value.source == n && m == n + 1
    requires first.None? ==> m == n
    requires forall i :: 0 <= i < |rest| ==> rest[i].source == m + i
    ensures var all := OptionSeq(first) + rest;
      forall i :: 0 <= i < |all| ==> all[i].source == n + i
  {
    var all := OptionSeq(first) + rest;
    forall i | 0 <= i < |all| ensures all[i].source == n + i {
      if first.Some? && i > 0 {
        assert all[i] == rest[i - 1];
      } else if first.None? {
        assert all[i] == rest[i];
      }
    }
  }

  function Ids(schedule: seq<Scheduled>): set<SourceId> {
    set i | 0 <= i < |schedule| :: schedule[i].source
  }

  lemma IdsCons(s: Scheduled, rest: seq<Scheduled>)
    ensures Ids([s] + rest) == {s.source} + Ids(rest)
  {
    var all := [s] + rest;
    forall x | x in Ids(all) ensures x in {s.source} + Ids(rest) {
      var i :| 0 <= i < |all| && all[i].source == x;
      if i > 0 {
        assert rest[i - 1].source == x;
      }
    }
    forall x | x in Ids(rest) ensures x in Ids(all) {
      var i :| 0 <= i < |rest| && rest[i].source == x;
      assert all[i + 1].source == x;
    }
    assert all[0].source == s.source;
  }

  /** No source goes missing: every source that was playing or was started is
      still playing or was stopped by an interrupt, and nothing else is. */
  lemma {:induction false} ReceiveAccountsForSources(p: Player, fs: seq<Frame>)
    ensures p.sources + Ids(Receive(p, fs).schedule) == Receive(p, fs).player.sources + Receive(p, fs).stopped
    ensures Valid(p) ==> Valid(Receive(p, fs).player)
    decreases |fs|
  {
    if fs != [] {
      var d := Dispatch(p, fs[0].m, fs[0].now, fs[0].clock);
      var rest := Receive(d.player, fs[1..]);
      ReceiveAccountsForSources(d.player, fs[1..]);
      if d.scheduled.Some? {
        IdsCons(d.scheduled.value, rest.schedule);
      } else {
        assert OptionSeq(d.scheduled) + rest.schedule == rest.schedule;
      }
    }
  }

  /** The chunks play one after the other: each starts no earlier than `from`
      and no earlier than the previous one ends. */
  predicate BackToBack(schedule: seq<Scheduled>, from: real)
    decreases |schedule|
  {
    schedule == [] || (from <= schedule[0].start && BackToBack(schedule[1..], schedule[0].End()))
  }

  lemma {:induction false} BackToBackWeaken(schedule: seq<Scheduled>, from: real, earlier: real)
    requires BackToBack(schedule, from) && earlier <= from
    ensures BackToBack(schedule, earlier)
  {
  }

  lemma {:induction false} BackToBackAfter(schedule: seq<Scheduled>, from: real)
    requires BackToBack(schedule, from)
    ensures forall j :: 0 <= j < |schedule| ==> from <= schedule[j].start
    decreases |schedule|
  {
    if schedule != [] {
      BackToBackAfter(schedule[1..], schedule[0].End());
      forall j | 0 <= j < |schedule| ensures from <= schedule[j].start {
        if j > 0 {
          assert schedule[j] == schedule[1..][j - 1];
        }
      }
    }
  }

  /** Chunks that play back to back never overlap: each ends before any later one starts. */
  lemma {:induction false} BackToBackNoOverlap(schedule: seq<Scheduled>, from: real)
    requires BackToBack(schedule, from)
    ensures forall i, j :: 0 <= i < j < |schedule| ==> schedule[i].End() <= schedule[j].start
    decreases |schedule|
  {
    if schedule != [] {
      var tail := schedule[1..];
      BackToBackNoOverlap(tail, schedule[0].End());
      BackToBackAfter(tail, schedule[0].End());
      forall i, j | 0 <= i < j < |schedule| ensures schedule[i].End() <= schedule[j].start {
        assert schedule[j] == tail[j - 1];
        if i > 0 {
          assert schedule[i] == tail[i - 1];
        }
      }
    }
  }

  predicate NoInterrupts(fs: seq<Frame>) {
    forall i :: 0 <= i < |fs| ==> !fs[i].m.Interrupt?
  }

  /** Without interrupts the controller queues every chunk it plays after the
      previous one, never before the time it had already reached. */
  lemma {:induction false} ReceivePlaysBackToBack(p: Player, fs: seq<Frame>)
    requires NoInterrupts(fs)
    ensures BackToBack(Receive(p, fs).schedule, p.nextStartTime)
    ensures p.nextStartTime <= Receive(p, fs).player.nextStartTime
    ensures Receive(p, fs).stopped == {}
    decreases |fs|
  {
    if fs != [] {
      var d := Dispatch(p, fs[0].m, fs[0].now, fs[0].clock);
      var rest := Receive(d.player, fs[1..]);
      assert NoInterrupts(fs[1..]) by {
        forall i | 0 <= i < |fs[1..]| ensures !fs[1..][i].m.Interrupt? {
          assert fs[1..][i] == fs[i + 1];
        }
      }
      ReceivePlaysBackToBack(d.player, fs[1..]);
      if d.scheduled.Some? {
        assert ([d.scheduled.value] + rest.schedule)[1..] == rest.schedule;
      } else {
        BackToBackWeaken(rest.schedule, d.player.nextStartTime, p.nextStartTime);
        assert OptionSeq(d.scheduled) + rest.schedule == rest.schedule;
      }
    }
  }

  /** The chunks of an uninterrupted run never overlap. */
  lemma ReceiveNoOverlap(p: Player, fs: seq<Frame>)
    requires NoInterrupts(fs)
    ensures var sched := Receive(p, fs).schedule;
            forall i, j :: 0 <= i < j < |sched| ==> sched[i].End() <= sched[j].start
  {
    ReceivePlaysBackToBack(p, fs);
    BackToBackNoOverlap(Receive(p, fs).schedule, p.nextStartTime);
  }

  /** The buffers a schedule plays, in order. */
  function Buffers(schedule: seq<Scheduled>): (bs: seq<AudioBuffer>)
    ensures |bs| == |schedule|
    decreases |schedule|
  {
    if schedule == [] then [] else [schedule[0].buffer] + Buffers(schedule[1..])
  }

  /** The chunk an audio message carries, when it has data that decodes. */
  function Chunk(m: Message): Option<AudioBuffer> {
    if m.Audio? && m.data != "" && DecodeChunk(m.data).Success? then Some(DecodeChunk(m.data).value) else None
  }

  /** Reference definition: the decoded chunks of a run of messages, in arrival order. */
  function Chunks(fs: seq<Frame>): seq<AudioBuffer>
    decreases |fs|
  {
    if fs == [] then [] else OptionSeq(Chunk(fs[0].m)) + Chunks(fs[1..])
  }

  /** Every audio message that decodes is played, in the order it arrived, and
      nothing else is, whatever turns and interrupts come in between: on this
      path the stale-turn check compares the current turn with itself. */
  lemma {:induction false} ReceivePlaysEveryChunk(p: Player, fs: seq<Frame>)
    ensures Buffers(Receive(p, fs).schedule) == Chunks(fs)
    decreases |fs|
  {
    if fs != [] {
      var d := Dispatch(p, fs[0].m, fs[0].now, fs[0].clock);
      var rest := Receive(d.player, fs[1..]);
      ReceivePlaysEveryChunk(d.player, fs[1..]);
      if d.scheduled.Some? {
        assert ([d.scheduled.value] + rest.schedule)[1..] == rest.schedule;
      } else {
        assert OptionSeq(d.scheduled) + rest.schedule == rest.schedule;
      }
    }
  }

  // ---------------------------------------------------------------------------
  // End to end

  /** Padded base64 of the bytes of some samples decodes to those samples, normalised. */
  lemma ChunkOfEncodedPcm(vs: seq<Int16>)
    requires vs != []
    ensures Encode(Encode16(vs)) != ""
    ensures Chunk(Audio(Encode(Encode16(vs)))).Some?
    ensures var buf := Chunk(Audio(Encode(Encode16(vs)))).value;
            |buf.samples| == |vs| && forall i :: 0 <= i < |vs| ==> buf.samples[i] == Normalize(vs[i])
  {
    var bytes := Encode16(vs);
    Base64ToArrayBufferEncode(bytes);
    assert DecodeChunk(Encode(bytes)) == DecodeAudioData(bytes);
    SamplesOfEncode16(vs);
  }
}
