/** The relay's per-connection turn tracker (backend/server.js).

    Three per-connection variables drive it: `isGenerating`, `currentTurnId`
    and the `responseQueue` of upstream messages.  The upstream `onmessage`
    callback decides when a turn starts or is interrupted and enqueues every
    message; `handleTurn` drains the queue first-in-first-out, forwarding audio
    and ending the turn on `turnComplete`.  Both are modelled as pure
    transitions on an immutable `Relay` record.  The turn id (`Date.now()` as a
    string) and the interrupt timestamp are parameters, since the code does not
    guarantee that successive ids differ. */
module Server {
  import opened Wrappers
  import opened Wire

  /** The `serverContent` part of an upstream message; an absent flag is `false`. */
  datatype ServerContent = ServerContent(
    modelTurn: bool,
    interrupted: bool,
    generationComplete: bool,
    turnComplete: bool)

  /** One upstream message.  `data` is the base64 inline audio, "" when there is none
      (both are falsy in JavaScript). */
  datatype UpstreamMsg = UpstreamMsg(data: string, content: Option<ServerContent>)

  predicate Interrupted(m: UpstreamMsg) { m.content.Some? && m.content.value.interrupted }
  predicate ModelTurn(m: UpstreamMsg) { m.content.Some? && m.content.value.modelTurn }
  predicate GenerationComplete(m: UpstreamMsg) { m.content.Some? && m.content.value.generationComplete }
  predicate TurnComplete(m: UpstreamMsg) { m.content.Some? && m.content.value.turnComplete }

  /** `handleTurn` forwards a message's audio when it has data and is not flagged interrupted. */
  predicate Forwarded(m: UpstreamMsg) { m.data != "" && !Interrupted(m) }

  datatype Relay = Relay(isGenerating: bool, currentTurnId: Option<string>, queue: seq<UpstreamMsg>)

  const Fresh := Relay(false, None, [])

  /** The flag is only ever raised together with a fresh turn id. */
  predicate Valid(r: Relay) {
    r.isGenerating ==> r.currentTurnId.Some?
  }

  /** A relay state together with the messages sent to the browser, in order. */
  datatype Step = Step(relay: Relay, sent: seq<Message>)

  /** Whether a message opens a new turn: it carries a model turn and, once any
      interruption it carries has been applied, the relay is not generating. */
  predicate Starts(r: Relay, m: UpstreamMsg) {
    ModelTurn(m) && (!r.isGenerating || Interrupted(m))
  }

  /** The upstream `onmessage` callback. */
  function OnMessage(r: Relay, m: UpstreamMsg, now: int, freshId: string): (s: Step)
    ensures s.relay.queue == r.queue + [m]
    ensures Valid(r) ==> Valid(s.relay)
    ensures |s.sent| == (if Interrupted(m) then 1 else 0) + (if Starts(r, m) then 1 else 0)
    ensures forall i :: 0 <= i < |s.sent| ==> !s.sent[i].Audio?
    // one interrupt exactly when the message is interrupted, sent first, naming the current turn
    ensures Interrupted(m) <==> |s.sent| > 0 && s.sent[0].Interrupt?
    ensures Interrupted(m) ==> s.sent[0] == Interrupt(r.currentTurnId, now)
    ensures forall i :: 0 <= i < |s.sent| && s.sent[i].Interrupt? ==> i == 0
    // one generation_start exactly when a turn opens, sent last, naming the new current turn
    ensures Starts(r, m) <==> |s.sent| > 0 && s.sent[|s.sent| - 1].GenerationStart?
    ensures forall i :: 0 <= i < |s.sent| && s.sent[i].GenerationStart? ==> i == |s.sent| - 1
    ensures Starts(r, m) ==>
              s.sent[|s.sent| - 1] == GenerationStart(freshId)
              && s.relay.currentTurnId == Some(freshId) && s.relay.isGenerating
    ensures !Starts(r, m) ==> s.relay.currentTurnId == r.currentTurnId
    ensures s.relay.isGenerating <==> ModelTurn(m) || (r.isGenerating && !Interrupted(m))
    // an interrupted message that also opens a model turn: the interrupt goes out first
    ensures Interrupted(m) && ModelTurn(m) ==>
              s.sent == [Interrupt(r.currentTurnId, now), GenerationStart(freshId)]
  {
    var (r1, out1) :=
      if Interrupted(m) then (r.(isGenerating := false), [Interrupt(r.currentTurnId, now)])
      else (r, []);
    var (r2, out2) :=
      if ModelTurn(m) && !r1.isGenerating
      then (r1.(isGenerating := true, currentTurnId := Some(freshId)), out1 + [GenerationStart(freshId)])
      else (r1, out1);
    Step(r2.(queue := r2.queue + [m]), out2)
  }

  /** `waitMessage`: take the oldest queued message, or `None` while the consumer
      still has to wait because the queue is empty. */
  function WaitMessage(q: seq<UpstreamMsg>): (r: Option<(UpstreamMsg, seq<UpstreamMsg>)>)
    ensures r.None? <==> q == []
    ensures r.Some? ==> [r.value.0] + r.value.1 == q
  {
    if q == [] then None else Some((q[0], q[1..]))
  }

  /** One iteration of `handleTurn`'s loop, applied to the message just dequeued. */
  function HandleMessage(r: Relay, m: UpstreamMsg): (s: Step)
    ensures s.relay.queue == r.queue
    ensures Valid(r) ==> Valid(s.relay)
    ensures s.sent == (if Forwarded(m) then [Audio(m.data)] else [])
    ensures TurnComplete(m) ==> !s.relay.isGenerating && s.relay.currentTurnId == None
    ensures !TurnComplete(m) ==>
              s.relay.currentTurnId == r.currentTurnId
              && (s.relay.isGenerating <==> r.isGenerating && !GenerationComplete(m))
  {
    var out := if m.data != "" && !Interrupted(m) then [Audio(m.data)] else [];
    var r1 := if GenerationComplete(m) then r.(isGenerating := false) else r;
    var r2 := if TurnComplete(m) then r1.(isGenerating := false, currentTurnId := None) else r1;
    Step(r2, out)
  }

  /** The audio `handleTurn` forwards for a run of consumed messages: a reference
      definition, one `audio` per forwarded message, in order. */
  function AudioOf(ms: seq<UpstreamMsg>): (r: seq<Message>)
    ensures |r| <= |ms|
  {
    if ms == [] then []
    else AudioOf(ms[..|ms| - 1])
         + (if Forwarded(ms[|ms| - 1]) then [Audio(ms[|ms| - 1].data)] else [])
  }

  lemma {:induction false} AudioOfAppend(a: seq<UpstreamMsg>, b: seq<UpstreamMsg>)
    ensures AudioOf(a + b) == AudioOf(a) + AudioOf(b)
    decreases |b|
  {
    if b == [] {
      assert a + b == a;
    } else {
      var b' := b[..|b| - 1];
      assert (a + b)[..|a + b| - 1] == a + b';
      AudioOfAppend(a, b');
    }
  }

  /** What one `handleTurn` call did: the messages it consumed, in order, the
      audio it forwarded, the relay afterwards, and whether it reached `turnComplete`. */
  datatype Turn = Turn(turns: seq<UpstreamMsg>, sent: seq<Message>, relay: Relay, done: bool)

  /** The promise of `handleTurn` from relay `r`: it takes the turn from the
      queue and updates the relay accordingly. */
  predicate Drains(r: Relay, t: Turn) {
    TakesTurn(r.queue, t.turns, t.relay.queue, t.done) && Updates(r, t)
  }

  /** `turns` is the prefix of queue `q` up to and including its first
      `turnComplete` (all of `q` when there is none, and then `done` is false),
      and `left` is what stays queued. */
  predicate TakesTurn(q: seq<UpstreamMsg>, turns: seq<UpstreamMsg>, left: seq<UpstreamMsg>, done: bool) {
    (done <==> exists k :: 0 <= k < |q| && TurnComplete(q[k]))
    && |turns| <= |q| && turns == q[..|turns|] && left == q[|turns|..]
    && (!done ==> turns == q)
    && (done ==> |turns| > 0 && TurnComplete(turns[|turns| - 1]))
    && (forall i :: 0 <= i < |turns| && (done ==> i < |turns| - 1) ==> !TurnComplete(turns[i]))
  }

  /** `sent` is the forwarded audio of the consumed messages; a completed turn
      clears the flag and the id, and otherwise the id is kept and the flag
      survives only if no consumed message carried `generationComplete`. */
  predicate Updates(r: Relay, t: Turn) {
    t.sent == AudioOf(t.turns)
    && (t.done ==> !t.relay.isGenerating && t.relay.currentTurnId == None)
    && (!t.done ==>
          t.relay.currentTurnId == r.currentTurnId
          && (t.relay.isGenerating <==> r.isGenerating && NoGenerationComplete(t.turns)))
    && (Valid(r) ==> Valid(t.relay))
  }

  predicate NoGenerationComplete(ms: seq<UpstreamMsg>) {
    forall i :: 0 <= i < |ms| ==> !GenerationComplete(ms[i])
  }

  /** `handleTurn`: consume queued messages in order, handling each, until one
      carries `turnComplete`.  When the queue runs dry first the call ends with
      `done` false, the point where the source's `waitMessage` keeps polling. */
  function HandleTurn(r: Relay): (t: Turn)
    ensures Drains(r, t)
    decreases |r.queue|
  {
    match WaitMessage(r.queue)
    case None => Turn([], [], r, false)
    case Some((m, rest)) =>
      var s := HandleMessage(r.(queue := rest), m);
      if TurnComplete(m) then
        DrainsLast(r, m, rest);
        Turn([m], s.sent, s.relay, true)
      else
        var t := HandleTurn(s.relay);
        TakesTurnCons(r.queue, m, rest, t.turns, t.relay.queue, t.done);
        UpdatesCons(r, m, rest, t);
        Turn([m] + t.turns, s.sent + t.sent, t.relay, t.done)
  }

  /** A `turnComplete` at the head of the queue ends the call after one message. */
  lemma DrainsLast(r: Relay, m: UpstreamMsg, rest: seq<UpstreamMsg>)
    requires r.queue == [m] + rest && TurnComplete(m)
    ensures var s := HandleMessage(r.(queue := rest), m);
            Drains(r, Turn([m], s.sent, s.relay, true))
  {
    AudioOfSingle(m);
    assert r.queue[0] == m;
    assert r.queue[..1] == [m];
  }

  /** Past a head that does not complete the turn, the turn taken from the queue
      is the head followed by the turn taken from the tail. */
  lemma TakesTurnCons(q: seq<UpstreamMsg>, m: UpstreamMsg, rest: seq<UpstreamMsg>,
                      turns: seq<UpstreamMsg>, left: seq<UpstreamMsg>, done: bool)
    requires q == [m] + rest && !TurnComplete(m)
    requires TakesTurn(rest, turns, left, done)
    ensures TakesTurn(q, [m] + turns, left, done)
  {
    var ts := [m] + turns;
    FirstTurnComplete(q, m, rest);
    PrefixCons(q, m, rest, turns);
    assert forall i :: 0 < i < |ts| ==> ts[i] == turns[i - 1];
  }

  /** Handling a head that does not complete the turn, then the rest of the
      turn, updates the relay as the whole turn promises. */
  lemma UpdatesCons(r: Relay, m: UpstreamMsg, rest: seq<UpstreamMsg>, t: Turn)
    requires !TurnComplete(m)
    requires Updates(HandleMessage(r.(queue := rest), m).relay, t)
    ensures var s := HandleMessage(r.(queue := rest), m);
            Updates(r, Turn([m] + t.turns, s.sent + t.sent, t.relay, t.done))
  {
    NoGenerationCompleteCons(m, t.turns);
    AudioOfAppend([m], t.turns);
    AudioOfSingle(m);
  }

  /** Extending a prefix of the tail by the head gives a prefix of the whole. */
  lemma PrefixCons<T>(q: seq<T>, m: T, rest: seq<T>, ts: seq<T>)
    requires q == [m] + rest && |ts| <= |rest| && ts == rest[..|ts|]
    ensures |[m] + ts| <= |q| && [m] + ts == q[..|ts| + 1] && q[|ts| + 1..] == rest[|ts|..]
  {
  }

  /** Past a head that does not complete the turn, the queue completes it iff its tail does. */
  lemma FirstTurnComplete(q: seq<UpstreamMsg>, m: UpstreamMsg, rest: seq<UpstreamMsg>)
    requires q == [m] + rest && !TurnComplete(m)
    ensures (exists k :: 0 <= k < |q| && TurnComplete(q[k]))
            <==> (exists k :: 0 <= k < |rest| && TurnComplete(rest[k]))
  {
    if exists k :: 0 <= k < |rest| && TurnComplete(rest[k]) {
      var k :| 0 <= k < |rest| && TurnComplete(rest[k]);
      assert q[k + 1] == rest[k];
    }
    if exists k :: 0 <= k < |q| && TurnComplete(q[k]) {
      var k :| 0 <= k < |q| && TurnComplete(q[k]);
      assert k > 0 && q[k] == rest[k - 1];
    }
  }

  lemma NoGenerationCompleteCons(m: UpstreamMsg, ms: seq<UpstreamMsg>)
    ensures NoGenerationComplete([m] + ms) <==> !GenerationComplete(m) && NoGenerationComplete(ms)
  {
    assert ([m] + ms)[0] == m;
    assert forall i :: 0 <= i < |ms| ==> ([m] + ms)[i + 1] == ms[i];
  }

  // ---------------------------------------------------------------------------
  // Folding the callbacks over a run of upstream events

  /** The upstream session's callbacks, plus `Consume` for one iteration of a
      `handleTurn` loop (dequeue one message if any and handle it). */
  datatype Event =
    | Opened
    | Arrived(m: UpstreamMsg, now: int, freshId: string)
    | UpstreamError(message: string)
    | UpstreamClosed(reason: string)
    | Consume

  /** One event.  The session's `onopen`, `onerror` and `onclose` callbacks each
      report one line to the browser and touch nothing else. */
  function StepEvent(r: Relay, e: Event): (s: Step)
    ensures e.Opened? ==> s == Step(r, [Status("Session opened")])
    ensures e.UpstreamError? ==> s == Step(r, [Error(e.message)])
    ensures e.UpstreamClosed? ==> s == Step(r, [Status("Session closed: " + e.reason)])
    ensures e.Arrived? ==> s == OnMessage(r, e.m, e.now, e.freshId)
    ensures e.Consume? && r.queue == [] ==> s == Step(r, [])
    ensures e.Consume? && r.queue != [] ==> s == HandleMessage(r.(queue := r.queue[1..]), r.queue[0])
    ensures Valid(r) ==> Valid(s.relay)
  {
    match e
    case Opened => Step(r, [Status("Session opened")])
    case Arrived(m, now, freshId) => OnMessage(r, m, now, freshId)
    case UpstreamError(msg) => Step(r, [Error(msg)])
    case UpstreamClosed(reason) => Step(r, [Status("Session closed: " + reason)])
    case Consume =>
      match WaitMessage(r.queue)
      case None => Step(r, [])
      case Some((m, rest)) => HandleMessage(r.(queue := rest), m)
  }

  /** One event takes from the front of the queue or adds at its back. */
  lemma StepKeepsQueueOrder(r: Relay, e: Event)
    ensures Suffix(StepEvent(r, e).relay.queue, r.queue + ArrivalOf(e))
  {
    if e.Consume? && r.queue != [] {
      assert r.queue[1..] == r.queue[|r.queue| - |r.queue[1..]|..];
    }
  }

  /** `a` is what is left of `b` once some of its front has been taken. */
  predicate Suffix<T(==)>(a: seq<T>, b: seq<T>) {
    |a| <= |b| && a == b[|b| - |a|..]
  }

  lemma SuffixAppend<T>(a: seq<T>, b: seq<T>, c: seq<T>)
    requires Suffix(a, b)
    ensures Suffix(a + c, b + c)
  {
    assert (b + c)[|b + c| - |a + c|..] == b[|b| - |a|..] + c;
  }

  lemma SuffixTrans<T>(a: seq<T>, b: seq<T>, c: seq<T>)
    requires Suffix(a, b) && Suffix(b, c)
    ensures Suffix(a, c)
  {
    assert c[|c| - |b|..][|b| - |a|..] == c[|c| - |a|..];
  }

  /** A run of events, with the messages sent in order. */
  function Run(r: Relay, es: seq<Event>): (s: Step)
    ensures Valid(r) ==> Valid(s.relay)
    decreases |es|
  {
    if es == [] then Step(r, [])
    else
      var s1 := StepEvent(r, es[0]);
      var s2 := Run(s1.relay, es[1..]);
      Step(s2.relay, s1.sent + s2.sent)
  }

  /** The consumer only ever takes from the front of the queue: after any run,
      what is still queued is a suffix of what was queued plus everything that
      arrived, in arrival order. */
  lemma {:induction false} RunKeepsQueueOrder(r: Relay, es: seq<Event>)
    ensures Suffix(Run(r, es).relay.queue, r.queue + Arrivals(es))
    decreases |es|
  {
    if es == [] {
      assert r.queue + Arrivals(es) == r.queue;
    } else {
      var s1 := StepEvent(r, es[0]);
      var q2 := Run(s1.relay, es[1..]).relay.queue;
      var later := Arrivals(es[1..]);
      RunKeepsQueueOrder(s1.relay, es[1..]);
      StepKeepsQueueOrder(r, es[0]);
      SuffixChain(q2, s1.relay.queue, r.queue + ArrivalOf(es[0]), later);
      ConcatAssoc3(r.queue, ArrivalOf(es[0]), later, Arrivals(es));
    }
  }

  lemma SuffixChain<T>(q2: seq<T>, q1: seq<T>, front: seq<T>, later: seq<T>)
    requires Suffix(q1, front) && Suffix(q2, q1 + later)
    ensures Suffix(q2, front + later)
  {
    SuffixAppend(q1, front, later);
    SuffixTrans(q2, q1 + later, front + later);
  }

  lemma ConcatAssoc3<T>(a: seq<T>, b: seq<T>, c: seq<T>, bc: seq<T>)
    requires bc == b + c
    ensures a + b + c == a + bc
  {
  }

  function ArrivalOf(e: Event): seq<UpstreamMsg> {
    if e.Arrived? then [e.m] else []
  }

  /** The upstream messages among a run of events, in arrival order. */
  function Arrivals(es: seq<Event>): seq<UpstreamMsg> {
    if es == [] then [] else ArrivalOf(es[0]) + Arrivals(es[1..])
  }

  lemma AudioMessagesNone(out: seq<Message>)
    requires forall i :: 0 <= i < |out| ==> !out[i].Audio?
    ensures AudioMessages(out) == []
  {
    if out != [] {
      AudioMessagesNone(out[..|out| - 1]);
    }
  }

  /** An event that sends no audio and leaves the queue alone keeps the audio in place. */
  lemma QuietStepKeepsAudio(r: Relay, s: Step, arrived: seq<UpstreamMsg>, later: seq<UpstreamMsg>)
    requires forall i :: 0 <= i < |s.sent| ==> !s.sent[i].Audio?
    requires s.relay.queue == r.queue + arrived
    ensures AudioMessages(s.sent) + AudioOf(s.relay.queue + later) == AudioOf(r.queue + arrived + later)
  {
    AudioMessagesNone(s.sent);
    assert s.relay.queue + later == r.queue + arrived + later;
  }

  lemma AudioOfSingle(m: UpstreamMsg)
    ensures AudioOf([m]) == if Forwarded(m) then [Audio(m.data)] else []
  {
    assert [m][..0] == [];
  }

  /** Handling a dequeued message moves its audio to the sent stream. */
  lemma HandleKeepsAudio(r: Relay, m: UpstreamMsg, tail: seq<UpstreamMsg>)
    ensures AudioMessages(HandleMessage(r, m).sent) + AudioOf(tail) == AudioOf([m] + tail)
  {
    var sent := HandleMessage(r, m).sent;
    AudioOfSingle(m);
    AudioOfAppend([m], tail);
    if Forwarded(m) {
      assert sent == [Audio(m.data)];
      AudioMessagesOfAudio(sent);
    } else {
      assert sent == [];
    }
  }

  /** A consumer step moves the oldest queued message's audio to the sent stream. */
  lemma ConsumeKeepsAudio(r: Relay, later: seq<UpstreamMsg>)
    requires r.queue != []
    ensures AudioMessages(StepEvent(r, Consume).sent) + AudioOf(StepEvent(r, Consume).relay.queue + later)
            == AudioOf(r.queue + later)
  {
    var m := r.queue[0];
    var r0 := r.(queue := r.queue[1..]);
    assert StepEvent(r, Consume) == HandleMessage(r0, m);
    HandleKeepsAudio(r0, m, r.queue[1..] + later);
    assert r.queue + later == [m] + (r.queue[1..] + later);
  }

  /** One event moves audio from "arrived" to "queued" or from "queued" to "sent",
      without touching its order. */
  lemma StepForwardsInOrder(r: Relay, e: Event, later: seq<UpstreamMsg>)
    ensures AudioMessages(StepEvent(r, e).sent) + AudioOf(StepEvent(r, e).relay.queue + later)
            == AudioOf(r.queue + ArrivalOf(e) + later)
  {
    if e.Consume? && r.queue != [] {
      assert ArrivalOf(e) == [];
      assert r.queue + ArrivalOf(e) == r.queue;
      ConsumeKeepsAudio(r, later);
    } else {
      QuietStepKeepsAudio(r, StepEvent(r, e), ArrivalOf(e), later);
    }
  }

  lemma ConcatAssoc<T>(a1: seq<T>, a2: seq<T>, t: seq<T>, mid: seq<T>, whole: seq<T>)
    requires a2 + t == mid
    requires a1 + mid == whole
    ensures (a1 + a2) + t == whole
  {
  }

  /** Splices the audio sent by one event in front of the audio the rest of a run sends. */
  lemma ChainAudio(sent1: seq<Message>, sent2: seq<Message>, q2: seq<UpstreamMsg>,
                   mid: seq<UpstreamMsg>, whole: seq<UpstreamMsg>)
    requires AudioMessages(sent2) + AudioOf(q2) == AudioOf(mid)
    requires AudioMessages(sent1) + AudioOf(mid) == AudioOf(whole)
    ensures AudioMessages(sent1 + sent2) + AudioOf(q2) == AudioOf(whole)
  {
    AudioMessagesAppend(sent1, sent2);
    ConcatAssoc(AudioMessages(sent1), AudioMessages(sent2), AudioOf(q2), AudioOf(mid), AudioOf(whole));
  }

  lemma RegroupArrivals(x: seq<Message>, q: seq<UpstreamMsg>, first: seq<UpstreamMsg>,
                        rest: seq<UpstreamMsg>, all: seq<UpstreamMsg>)
    requires all == first + rest
    requires x == AudioOf(q + first + rest)
    ensures x == AudioOf(q + all)
  {
    assert q + first + rest == q + all;
  }

  /** Audio is relayed in arrival order, never duplicated or reordered, whatever
      the interleaving of arrivals and consumer steps: the audio sent so far,
      followed by the audio still waiting in the queue, is exactly the audio of
      everything that was queued. */
  lemma {:induction false} RunForwardsInOrder(r: Relay, es: seq<Event>)
    ensures AudioMessages(Run(r, es).sent) + AudioOf(Run(r, es).relay.queue)
            == AudioOf(r.queue + Arrivals(es))
    decreases |es|
  {
    if es == [] {
      assert Arrivals(es) == [];
      assert r.queue + Arrivals(es) == r.queue;
      assert AudioMessages([]) == [];
    } else {
      var s1 := StepEvent(r, es[0]);
      var s2 := Run(s1.relay, es[1..]);
      var later := Arrivals(es[1..]);
      RunForwardsInOrder(s1.relay, es[1..]);
      StepForwardsInOrder(r, es[0], later);
      ChainAudio(s1.sent, s2.sent, s2.relay.queue, s1.relay.queue + later, r.queue + ArrivalOf(es[0]) + later);
      RegroupArrivals(AudioMessages(s1.sent + s2.sent) + AudioOf(s2.relay.queue), r.queue, ArrivalOf(es[0]), later, Arrivals(es));
    }
  }

  // ---------------------------------------------------------------------------
  // What the browser sees of turns

  /** A stream of outbound messages is coherent, starting from a relay that is
      (not) generating with turn `current`, when a `generation_start` is only
      sent while no turn is generating and every `interrupt` names the turn
      most recently started (or the one current at the outset). */
  predicate Coherent(out: seq<Message>, generating: bool, current: Option<string>)
    decreases |out|
  {
    if out == [] then true
    else match out[0]
      case GenerationStart(id) => !generating && Coherent(out[1..], true, Some(id))
      case Interrupt(t, _) => t == current && Coherent(out[1..], false, current)
      case _ => Coherent(out[1..], generating, current)
  }

  lemma StepCoherent(r: Relay, e: Event, rest: seq<Message>)
    requires !e.Consume?
    requires Coherent(rest, StepEvent(r, e).relay.isGenerating, StepEvent(r, e).relay.currentTurnId)
    ensures Coherent(StepEvent(r, e).sent + rest, r.isGenerating, r.currentTurnId)
  {
    var s := StepEvent(r, e);
    if e.Arrived? {
      var m := e.m;
      if |s.sent| == 2 {
        assert (s.sent + rest)[1..][1..] == rest;
      } else if |s.sent| == 1 {
        assert (s.sent + rest)[1..] == rest;
      } else {
        assert s.sent + rest == rest;
      }
    } else {
      assert (s.sent + rest)[1..] == rest;
    }
  }

  /** While no consumer step runs, the browser is told of turns coherently: a
      second `generation_start` is always preceded by an `interrupt`, and every
      `interrupt` names the turn the browser last saw start. */
  lemma {:induction false} RunCoherent(r: Relay, es: seq<Event>)
    requires forall i :: 0 <= i < |es| ==> !es[i].Consume?
    ensures Coherent(Run(r, es).sent, r.isGenerating, r.currentTurnId)
    decreases |es|
  {
    if es != [] {
      var s1 := StepEvent(r, es[0]);
      RunCoherent(s1.relay, es[1..]);
      StepCoherent(r, es[0], Run(s1.relay, es[1..]).sent);
    }
  }

  // ---------------------------------------------------------------------------
  // The connection handler

  /** The outcome of `ai.live.connect`: the SDK either opens a session or throws. */
  datatype Connect = Connected | ConnectFailed(reason: string)

  /** What one browser connection observes: the messages sent to it, whether the
      relay closed its socket, and whether the relay listens for its audio. */
  datatype Served = Served(sent: seq<Message>, socketClosed: bool, listening: bool, relay: Relay)

  /** The `connection` handler.  When connecting throws, the handler reports the
      error, closes the socket and returns before it registers the listener for
      inbound audio, so no upstream callback and no consumer ever runs. */
  function Serve(c: Connect, es: seq<Event>): (s: Served)
    ensures c.ConnectFailed? ==> s.sent == [Error(c.reason)] && s.socketClosed && !s.listening
    ensures c.ConnectFailed? ==> forall i :: 0 <= i < |s.sent| ==> !s.sent[i].Audio? && !s.sent[i].GenerationStart?
    ensures c.Connected? ==> s.listening && !s.socketClosed && Valid(s.relay)
    ensures c.Connected? ==>
              AudioMessages(s.sent) + AudioOf(s.relay.queue) == AudioOf(Arrivals(es))
  {
    match c
    case ConnectFailed(reason) => Served([Error(reason)], true, false, Fresh)
    case Connected =>
      var run := Run(Fresh, es);
      RunForwardsInOrder(Fresh, es);
      assert Fresh.queue + Arrivals(es) == Arrivals(es);
      Served(run.sent, false, true, run.relay)
  }
}
