/** Whole runs through the relay and the browser together. */
module Scenarios {
  import opened Wrappers
  import opened Wire
  import opened Pcm
  import opened Base64
  import opened Server
  import opened Client

  function Content(modelTurn: bool, interrupted: bool): ServerContent {
    ServerContent(modelTurn, interrupted, false, false)
  }

  // ---------------------------------------------------------------------------
  // The relay's side of a barge-in

  /** The model's first chunk, which opens turn "t1". */
  function FirstChunk(a: string): UpstreamMsg { UpstreamMsg(a, Some(Content(true, false))) }
  /** The interruption, a message of its own without audio. */
  const Barge := UpstreamMsg("", Some(Content(false, true)))
  /** The first chunk of the new answer, which opens turn "t2". */
  function NextChunk(b: string): UpstreamMsg { UpstreamMsg(b, Some(Content(true, false))) }

  /** The upstream messages arrive before the consumer has dequeued any of them. */
  function Arrivals3(a: string, b: string): seq<Event> {
    [Arrived(FirstChunk(a), 1000, "t1")] + ([Arrived(Barge, 1500, "unused")] + [Arrived(NextChunk(b), 2000, "t2")])
  }

  function Consumes3(): seq<Event> {
    [Consume] + ([Consume] + [Consume])
  }

  /** The user barges in while the model is still answering: the model's first
      chunk is queued, the interruption arrives, and the model starts a new
      answer, all before the relay's consumer catches up. */
  function BargeIn(a: string, b: string): seq<Event> {
    Arrivals3(a, b) + Consumes3()
  }

  lemma RunSingle(r: Relay, e: Event)
    ensures Run(r, [e]) == StepEvent(r, e)
  {
    assert [e][1..] == [];
  }

  lemma RunCons(r: Relay, e: Event, es: seq<Event>)
    ensures Run(r, [e] + es)
            == Step(Run(StepEvent(r, e).relay, es).relay, StepEvent(r, e).sent + Run(StepEvent(r, e).relay, es).sent)
  {
    assert ([e] + es)[1..] == es;
  }

  /** Running two stretches of events one after the other. */
  lemma {:induction false} RunAppend(r: Relay, es1: seq<Event>, es2: seq<Event>)
    ensures Run(r, es1 + es2).relay == Run(Run(r, es1).relay, es2).relay
    ensures Run(r, es1 + es2).sent == Run(r, es1).sent + Run(Run(r, es1).relay, es2).sent
    decreases |es1|
  {
    if es1 != [] {
      var s1 := StepEvent(r, es1[0]);
      RunAppend(s1.relay, es1[1..], es2);
      RunCons(r, es1[0], es1[1..] + es2);
      assert es1 + es2 == [es1[0]] + (es1[1..] + es2);
      RunCons(r, es1[0], es1[1..]);
      assert es1 == [es1[0]] + es1[1..];
    } else {
      assert es1 + es2 == es2;
    }
  }

  /** Each arrival is acted on at once: the first chunk opens "t1", the
      interruption names "t1", and the next chunk opens "t2". */
  lemma ArrivalsSent(a: string, b: string)
    ensures Run(Fresh, Arrivals3(a, b))
            == Step(Relay(true, Some("t2"), [FirstChunk(a), Barge, NextChunk(b)]),
                    [GenerationStart("t1"), Interrupt(Some("t1"), 1500), GenerationStart("t2")])
  {
    var r1 := Relay(true, Some("t1"), [FirstChunk(a)]);
    var r2 := Relay(false, Some("t1"), [FirstChunk(a), Barge]);
    assert StepEvent(Fresh, Arrived(FirstChunk(a), 1000, "t1")) == Step(r1, [GenerationStart("t1")]);
    assert StepEvent(r1, Arrived(Barge, 1500, "unused")) == Step(r2, [Interrupt(Some("t1"), 1500)]);
    assert StepEvent(r2, Arrived(NextChunk(b), 2000, "t2"))
           == Step(Relay(true, Some("t2"), [FirstChunk(a), Barge, NextChunk(b)]), [GenerationStart("t2")]);
    RunSingle(r2, Arrived(NextChunk(b), 2000, "t2"));
    RunCons(r1, Arrived(Barge, 1500, "unused"), [Arrived(NextChunk(b), 2000, "t2")]);
    RunCons(Fresh, Arrived(FirstChunk(a), 1000, "t1"),
            [Arrived(Barge, 1500, "unused")] + [Arrived(NextChunk(b), 2000, "t2")]);
  }

  /** The consumer then forwards the queued audio in arrival order. */
  lemma ConsumesSent(a: string, b: string)
    requires a != "" && b != ""
    ensures Run(Relay(true, Some("t2"), [FirstChunk(a), Barge, NextChunk(b)]), Consumes3()).sent
            == [Audio(a), Audio(b)]
  {
    var r0 := Relay(true, Some("t2"), [FirstChunk(a), Barge, NextChunk(b)]);
    var r1 := Relay(true, Some("t2"), [Barge, NextChunk(b)]);
    var r2 := Relay(true, Some("t2"), [NextChunk(b)]);
    assert [FirstChunk(a), Barge, NextChunk(b)][1..] == [Barge, NextChunk(b)];
    assert [Barge, NextChunk(b)][1..] == [NextChunk(b)];
    assert StepEvent(r0, Consume) == Step(r1, [Audio(a)]);
    assert StepEvent(r1, Consume) == Step(r2, []);
    RunSingle(r2, Consume);
    RunCons(r1, Consume, [Consume]);
    RunCons(r0, Consume, [Consume] + [Consume]);
  }

  /** What the relay sends in the barge-in: both turns are announced and the
      interruption is reported at once, but the first turn's audio is only
      forwarded afterwards, when the consumer reaches it; the interruption is a
      message of its own, so the chunk before it is not flagged and goes out. */
  lemma BargeInRelayed(a: string, b: string)
    requires a != "" && b != ""
    ensures Run(Fresh, BargeIn(a, b)).sent
            == [GenerationStart("t1"), Interrupt(Some("t1"), 1500), GenerationStart("t2"), Audio(a), Audio(b)]
  {
    RunAppend(Fresh, Arrivals3(a, b), Consumes3());
    ArrivalsSent(a, b);
    ConsumesSent(a, b);
  }

  // ---------------------------------------------------------------------------
  // The browser's side

  /** The messages of a run of frames. */
  function Messages(fs: seq<Frame>): seq<Message>
    decreases |fs|
  {
    if fs == [] then [] else [fs[0].m] + Messages(fs[1..])
  }

  lemma MessagesCons(f: Frame, fs: seq<Frame>)
    ensures Messages([f] + fs) == [f.m] + Messages(fs)
  {
    assert ([f] + fs)[1..] == fs;
  }

  lemma ChunksCons(f: Frame, fs: seq<Frame>)
    ensures Chunks([f] + fs) == OptionSeq(Chunk(f.m)) + Chunks(fs)
  {
    assert ([f] + fs)[1..] == fs;
  }

  lemma ReceiveCons(p: Player, f: Frame, fs: seq<Frame>)
    ensures Receive(p, [f] + fs).player == Receive(Dispatch(p, f.m, f.now, f.clock).player, fs).player
  {
    assert ([f] + fs)[1..] == fs;
  }

  /** The browser's view of the barge-in, each message with its own clocks. */
  datatype Clocks = Clocks(c0: Time, c1: Time, c2: Time, c3: Time, c4: Time)

  function Frames(a: string, b: string, c: Clocks): seq<Frame> {
    [Frame(GenerationStart("t1"), 1000, c.c0)]
    + ([Frame(Interrupt(Some("t1"), 1500), 1500, c.c1)]
    + ([Frame(GenerationStart("t2"), 2000, c.c2)]
    + ([Frame(Audio(a), 2100, c.c3)]
    + ([Frame(Audio(b), 2200, c.c4)] + []))))
  }

  /** The browser receives exactly what the relay sent in the barge-in. */
  lemma BargeInFrames(a: string, b: string, c: Clocks)
    requires a != "" && b != ""
    ensures Run(Fresh, BargeIn(a, b)).sent == Messages(Frames(a, b, c))
  {
    BargeInRelayed(a, b);
    var f4 := Frame(Audio(b), 2200, c.c4);
    var f3 := Frame(Audio(a), 2100, c.c3);
    var f2 := Frame(GenerationStart("t2"), 2000, c.c2);
    var f1 := Frame(Interrupt(Some("t1"), 1500), 1500, c.c1);
    var f0 := Frame(GenerationStart("t1"), 1000, c.c0);
    MessagesCons(f4, []);
    MessagesCons(f3, [f4] + []);
    MessagesCons(f2, [f3] + ([f4] + []));
    MessagesCons(f1, [f2] + ([f3] + ([f4] + [])));
    MessagesCons(f0, [f1] + ([f2] + ([f3] + ([f4] + []))));
  }

  /** The chunks of the barge-in: only the two audio messages carry one. */
  lemma BargeInChunks(a: string, b: string, c: Clocks)
    requires Chunk(Audio(a)).Some? && Chunk(Audio(b)).Some?
    ensures Chunks(Frames(a, b, c)) == [Chunk(Audio(a)).value, Chunk(Audio(b)).value]
  {
    var f4 := Frame(Audio(b), 2200, c.c4);
    var f3 := Frame(Audio(a), 2100, c.c3);
    var f2 := Frame(GenerationStart("t2"), 2000, c.c2);
    var f1 := Frame(Interrupt(Some("t1"), 1500), 1500, c.c1);
    var f0 := Frame(GenerationStart("t1"), 1000, c.c0);
    ChunksCons(f4, []);
    ChunksCons(f3, [f4] + []);
    ChunksCons(f2, [f3] + ([f4] + []));
    ChunksCons(f1, [f2] + ([f3] + ([f4] + [])));
    ChunksCons(f0, [f1] + ([f2] + ([f3] + ([f4] + []))));
  }

  /** After the barge-in the browser is in the new turn. */
  lemma BargeInEndsInNewTurn(a: string, b: string, c: Clocks)
    ensures Receive(Initial(0.0), Frames(a, b, c)).player.currentTurnId == Some("t2")
  {
    var f4 := Frame(Audio(b), 2200, c.c4);
    var f3 := Frame(Audio(a), 2100, c.c3);
    var f2 := Frame(GenerationStart("t2"), 2000, c.c2);
    var f1 := Frame(Interrupt(Some("t1"), 1500), 1500, c.c1);
    var f0 := Frame(GenerationStart("t1"), 1000, c.c0);
    var p0 := Initial(0.0);
    var p1 := Dispatch(p0, f0.m, f0.now, f0.clock).player;
    var p2 := Dispatch(p1, f1.m, f1.now, f1.clock).player;
    var p3 := Dispatch(p2, f2.m, f2.now, f2.clock).player;
    var p4 := Dispatch(p3, f3.m, f3.now, f3.clock).player;
    ReceiveCons(p4, f4, []);
    ReceiveCons(p3, f3, [f4] + []);
    ReceiveCons(p2, f2, [f3] + ([f4] + []));
    ReceiveCons(p1, f1, [f2] + ([f3] + ([f4] + [])));
    ReceiveCons(p0, f0, [f1] + ([f2] + ([f3] + ([f4] + []))));
  }

  /** The interrupted turn's audio is played after the interruption, as part of
      the new turn: the browser tags it with the turn current when it arrives,
      so the stale-turn check passes it. */
  lemma BargeInPlaysStaleAudio(va: seq<Int16>, vb: seq<Int16>, c: Clocks)
    requires va != [] && vb != []
    ensures var a := Encode(Encode16(va));
            var b := Encode(Encode16(vb));
            Run(Fresh, BargeIn(a, b)).sent == Messages(Frames(a, b, c))
            && var s := Receive(Initial(0.0), Frames(a, b, c));
               |s.schedule| == 2
               && |s.schedule[0].buffer.samples| == |va|
               && (forall i :: 0 <= i < |va| ==> s.schedule[0].buffer.samples[i] == Normalize(va[i]))
               && s.player.currentTurnId == Some("t2")
  {
    var a := Encode(Encode16(va));
    var b := Encode(Encode16(vb));
    ChunkOfEncodedPcm(va);
    ChunkOfEncodedPcm(vb);
    BargeInFrames(a, b, c);
    BargeInChunks(a, b, c);
    BargeInEndsInNewTurn(a, b, c);
    ReceivePlaysEveryChunk(Initial(0.0), Frames(a, b, c));
    var s := Receive(Initial(0.0), Frames(a, b, c));
    assert Buffers(s.schedule)[0] == s.schedule[0].buffer;
  }
}
