/** The live voice session controller: a four-state connection machine, the
    interim/finalized transcript accumulator, and the playback watermark that
    schedules received audio chunks back to back. Every handler runs as one
    atomic step on an immutable `State`; the audio clock (`now`) and the
    browser's `atob` are parameters of the step. */
module LiveAssistant {
  import opened Wrappers
  import AudioCodec

  datatype ConnectionState = Disconnected | Connecting | Connected | Error

  /** One finished exchange, and also the shape of the interim pair. */
  datatype Turn = Turn(user: string, model: string)

  const EmptyTurn: Turn := Turn("", "")

  /** A started `AudioBufferSourceNode`: when it plays and for how long (seconds). */
  datatype Chunk = Chunk(id: nat, start: real, duration: real)

  /** Which of the component's refs are non-null. */
  datatype Refs = Refs(session: bool, inputContext: bool, outputContext: bool,
                       mediaSource: bool, processor: bool)

  const NoRefs: Refs := Refs(false, false, false, false, false)

  /** The component's state and refs.
      `captured` is the `currentInterim` value the message handler's closure
      sees: the one rendered when Start was clicked, never updated afterwards.
      `sent` lists the captured frames handed to the session. */
  datatype State = State(
    connection: ConnectionState,
    transcripts: seq<Turn>,
    interim: Turn,
    captured: Turn,
    refs: Refs,
    nextStart: real,
    playing: set<Chunk>,
    stopped: set<Chunk>,
    nextId: nat,
    sent: seq<seq<real>>)

  const Initial: State := State(Disconnected, [], EmptyTurn, EmptyTurn, NoRefs, 0.0, {}, {}, 0, [])

  /** Sample rate of the playback context and of received audio. */
  const OutputRate: nat := 24000

  /** A transcription delta; its `text` may be missing. */
  datatype Transcription = Transcription(text: Option<string>)

  /** The parts of a `LiveServerMessage` the handler reads; `audio` is the
      base64 data of the first part of the model turn. */
  datatype ServerMessage = ServerMessage(
    inputTranscription: Option<Transcription>,
    outputTranscription: Option<Transcription>,
    turnComplete: bool,
    audio: Option<string>,
    interrupted: bool)

  /** How the device request and session setup in `handleStart` end:
      everything succeeds; the device request is refused; or the device is
      granted, both audio contexts are created, and opening the session
      throws (no API key). */
  datatype StartOutcome = Launched | SetupFailed | DeviceDenied

  datatype Event =
    | Start(outcome: StartOutcome)
    | Open
    | Message(msg: ServerMessage, now: real)
    | Frame(samples: seq<real>)
    | SourceEnded(id: nat)
    | ConnError
    | Closed
    | Stop
    | Unmount

  function MaxReal(a: real, b: real): (r: real)
    ensures r >= a && r >= b && (r == a || r == b)
  {
    if a >= b then a else b
  }

  // ---------------------------------------------------------------------------
  // Connection machine
  // ---------------------------------------------------------------------------

  /** `cleanup`: disconnect the nodes, close both contexts and the session, and
      null every ref. Transcripts, connection state and sources are untouched. */
  function Cleanup(s: State): (r: State)
    ensures r.refs == NoRefs
    ensures r.(refs := s.refs) == s
  {
    s.(refs := NoRefs)
  }

  /** `handleStart`. Outside 'disconnected' it returns at once; otherwise it
      shows 'connecting', clears both transcript states, and either fails on
      the device request ('error'), opens both contexts and the session, or
      opens both contexts and then fails to open the session ('error'). */
  function HandleStart(s: State, outcome: StartOutcome): (r: State)
    ensures s.connection != Disconnected ==> r == s
    ensures s.connection == Disconnected ==>
      && r.transcripts == []
      && r.interim == EmptyTurn
      && r.captured == s.interim
      && r.connection == (if outcome == Launched then Connecting else Error)
      && r.sent == s.sent && r.playing == s.playing && r.stopped == s.stopped && r.nextId == s.nextId
    ensures s.connection == Disconnected && outcome != DeviceDenied ==>
      && r.refs.inputContext && r.refs.outputContext && r.nextStart == 0.0
      && (outcome == Launched ==> r.refs.session)
      && (outcome == SetupFailed ==> r.refs.session == s.refs.session)
      && r.refs.(session := s.refs.session, inputContext := s.refs.inputContext,
                 outputContext := s.refs.outputContext) == s.refs
    ensures outcome == DeviceDenied ==> r.refs == s.refs && r.nextStart == s.nextStart
  {
    if s.connection != Disconnected then s
    else
      var cleared := s.(connection := Connecting, transcripts := [], interim := EmptyTurn, captured := s.interim);
      var contexts := cleared.(refs := s.refs.(inputContext := true, outputContext := true), nextStart := 0.0);
      match outcome
      case DeviceDenied => cleared.(connection := Error)
      case SetupFailed => contexts.(connection := Error)
      case Launched => contexts.(refs := contexts.refs.(session := true))
  }

  /** `onopen`: 'connected', then the capture nodes are created on the input
      context (which throws, creating nothing, once cleanup has nulled it). */
  function HandleOpen(s: State): (r: State)
    ensures r.connection == Connected
    ensures s.refs.inputContext ==> r.refs == s.refs.(mediaSource := true, processor := true)
    ensures !s.refs.inputContext ==> r.refs == s.refs
    ensures r.(connection := s.connection, refs := s.refs) == s
  {
    var connected := s.(connection := Connected);
    if s.refs.inputContext then connected.(refs := s.refs.(mediaSource := true, processor := true))
    else connected
  }

  /** `onaudioprocess`: the frame reaches the session only while the session
      ref is set; the event itself fires only while the processor exists. */
  function HandleFrame(s: State, samples: seq<real>): (r: State)
    ensures r.sent == (if s.refs.processor && s.refs.session then s.sent + [samples] else s.sent)
    ensures r.(sent := s.sent) == s
  {
    if s.refs.processor && s.refs.session then s.(sent := s.sent + [samples]) else s
  }

  // ---------------------------------------------------------------------------
  // Messages: transcripts, then audio, then interruption
  // ---------------------------------------------------------------------------

  /** JavaScript's `a + b` with `b` possibly undefined. */
  function DeltaText(t: Transcription): string {
    t.text.GetOr("undefined")
  }

  function UserDelta(m: ServerMessage): string {
    if m.inputTranscription.Some? then DeltaText(m.inputTranscription.value) else ""
  }

  function ModelDelta(m: ServerMessage): string {
    if m.outputTranscription.Some? then DeltaText(m.outputTranscription.value) else ""
  }

  /** The transcription part of `onmessage`: extend the interim pair, and on
      turnComplete append the closure's captured pair and reset the interim. */
  function ApplyTranscripts(s: State, m: ServerMessage): (r: State)
    ensures m.turnComplete ==> r.transcripts == s.transcripts + [s.captured] && r.interim == EmptyTurn
    ensures !m.turnComplete ==> (r.transcripts == s.transcripts
      && r.interim == Turn(s.interim.user + UserDelta(m), s.interim.model + ModelDelta(m)))
    ensures r.(transcripts := s.transcripts, interim := s.interim) == s
  {
    var extended := Turn(s.interim.user + UserDelta(m), s.interim.model + ModelDelta(m));
    if m.turnComplete then s.(transcripts := s.transcripts + [s.captured], interim := EmptyTurn)
    else s.(interim := extended)
  }

  /** The base64 audio is present and non-empty (truthy). */
  predicate HasAudio(m: ServerMessage) {
    m.audio.Some? && m.audio.value != ""
  }

  /** Duration of the received audio, or why `decodeAudioData` throws. */
  function ChunkDuration(atob: string -> string, base64: string): (r: Result<real, AudioCodec.AudioError>)
    ensures r.Success? ==> r.value >= 0.0
  {
    var bytes := AudioCodec.BytesOf(atob(base64));
    match AudioCodec.DecodeAudioData(bytes, OutputRate, 1)
    case Failure(e) => Failure(e)
    case Success(buffer) => Success(AudioCodec.Duration(buffer))
  }

  /** The chunk a message schedules: it starts at the later of the watermark
      and the current time. None when there is no audio, no output context,
      or decoding throws. */
  function NewChunk(s: State, m: ServerMessage, now: real, atob: string -> string): (r: Option<Chunk>)
    ensures r.Some? <==> HasAudio(m) && s.refs.outputContext && ChunkDuration(atob, m.audio.value).Success?
    ensures r.Some? ==> (r.value.id == s.nextId && r.value.start >= now && r.value.start >= s.nextStart
      && r.value.start == MaxReal(s.nextStart, now)
      && r.value.duration == ChunkDuration(atob, m.audio.value).value)
  {
    if HasAudio(m) && s.refs.outputContext then
      match ChunkDuration(atob, m.audio.value)
      case Failure(_) => None
      case Success(d) => Some(Chunk(s.nextId, MaxReal(s.nextStart, now), d))
    else None
  }

  /** Stop and forget every playing source and reset the watermark. */
  function Interrupt(s: State): (r: State)
    ensures r.playing == {} && r.nextStart == 0.0
    ensures r.stopped == s.stopped + s.playing
    ensures r.(playing := s.playing, stopped := s.stopped, nextStart := s.nextStart) == s
  {
    s.(stopped := s.stopped + s.playing, playing := {}, nextStart := 0.0)
  }

  /** The whole of `onmessage`, as one atomic step. A decoding failure throws
      after the watermark was raised to `now` and before the interruption
      check, so it skips the rest of the handler. */
  function HandleMessage(s: State, m: ServerMessage, now: real, atob: string -> string): (r: State)
    ensures r.connection == s.connection && r.refs == s.refs && r.sent == s.sent && r.captured == s.captured
    ensures r.transcripts == ApplyTranscripts(s, m).transcripts && r.interim == ApplyTranscripts(s, m).interim
    ensures NewChunk(s, m, now, atob).Some? ==>
      var c := NewChunk(s, m, now, atob).value;
      && r.nextId == s.nextId + 1
      && (m.interrupted ==> r.playing == {} && r.stopped == s.stopped + s.playing + {c} && r.nextStart == 0.0)
      && (!m.interrupted ==> r.playing == s.playing + {c} && r.stopped == s.stopped && r.nextStart == c.start + c.duration)
    ensures NewChunk(s, m, now, atob).None? ==> r.nextId == s.nextId
    ensures NewChunk(s, m, now, atob).None? && HasAudio(m) && s.refs.outputContext ==>
      r.playing == s.playing && r.stopped == s.stopped && r.nextStart == MaxReal(s.nextStart, now)
    ensures NewChunk(s, m, now, atob).None? && !(HasAudio(m) && s.refs.outputContext) ==>
      if m.interrupted then r.playing == {} && r.stopped == s.stopped + s.playing && r.nextStart == 0.0
      else r.playing == s.playing && r.stopped == s.stopped && r.nextStart == s.nextStart
  {
    var t := ApplyTranscripts(s, m);
    if HasAudio(m) && s.refs.outputContext then
      var raised := t.(nextStart := MaxReal(t.nextStart, now));
      match NewChunk(s, m, now, atob)
      case None => raised
      case Some(c) =>
        var scheduled := raised.(playing := raised.playing + {c},
                                 nextStart := c.start + c.duration,
                                 nextId := raised.nextId + 1);
        if m.interrupted then Interrupt(scheduled) else scheduled
    else if m.interrupted then Interrupt(t)
    else t
  }

  /** A source's `ended` listener removes it from the set. */
  function HandleSourceEnded(s: State, id: nat): (r: State)
    ensures forall c :: c in r.playing <==> c in s.playing && c.id != id
    ensures r.(playing := s.playing) == s
  {
    s.(playing := set c | c in s.playing && c.id != id)
  }

  // ---------------------------------------------------------------------------
  // Events and traces
  // ---------------------------------------------------------------------------

  function Step(s: State, e: Event, atob: string -> string): (r: State)
    ensures e.ConnError? ==> r.connection == Error && r.refs == NoRefs
    ensures e.Closed? || e.Stop? ==> r.connection == Disconnected && r.refs == NoRefs
    ensures e.Unmount? ==> r.refs == NoRefs
    ensures e.Open? ==> r.connection == Connected
    ensures e.Start? && s.connection == Disconnected ==>
      r.connection == (if e.outcome == Launched then Connecting else Error)
    ensures e.Message? || e.Frame? || e.SourceEnded? || e.Unmount? || (e.Start? && s.connection != Disconnected) ==>
      r.connection == s.connection
  {
    match e
    case Start(outcome) => HandleStart(s, outcome)
    case Open => HandleOpen(s)
    case Message(m, now) => HandleMessage(s, m, now, atob)
    case Frame(samples) => HandleFrame(s, samples)
    case SourceEnded(id) => HandleSourceEnded(s, id)
    case ConnError => Cleanup(s.(connection := Error))
    case Closed => Cleanup(s.(connection := Disconnected))
    case Stop => Cleanup(s).(connection := Disconnected)
    case Unmount => Cleanup(s)
  }

  function Run(s: State, events: seq<Event>, atob: string -> string): State
    decreases |events|
  {
    if events == [] then s else Run(Step(s, events[0], atob), events[1..], atob)
  }

  /** Concatenation of a trace's input and output transcription deltas. */
  function UserDeltas(events: seq<Event>): string
    decreases |events|
  {
    if events == [] then ""
    else EventUserDelta(events[0]) + UserDeltas(events[1..])
  }

  function ModelDeltas(events: seq<Event>): string
    decreases |events|
  {
    if events == [] then ""
    else EventModelDelta(events[0]) + ModelDeltas(events[1..])
  }

  /** No event of the trace resets the interim pair. */
  predicate KeepsInterim(events: seq<Event>) {
    forall k :: 0 <= k < |events| ==>
      !events[k].Start? && !(events[k].Message? && events[k].msg.turnComplete)
  }

  /** The interim text a trace event contributes. */
  function EventUserDelta(e: Event): string {
    if e.Message? then UserDelta(e.msg) else ""
  }

  function EventModelDelta(e: Event): string {
    if e.Message? then ModelDelta(e.msg) else ""
  }

  /** A step that does not reset the interim pair appends the event's deltas to it. */
  lemma StepExtendsInterim(s: State, e: Event, atob: string -> string)
    requires !e.Start? && !(e.Message? && e.msg.turnComplete)
    ensures Step(s, e, atob).interim == Turn(s.interim.user + EventUserDelta(e), s.interim.model + EventModelDelta(e))
  {
    if e.Message? {
      assert HandleMessage(s, e.msg, e.now, atob).interim == ApplyTranscripts(s, e.msg).interim;
    } else {
      assert s.interim.user + "" == s.interim.user;
      assert s.interim.model + "" == s.interim.model;
    }
  }

  /** The first event of a non-resetting trace does not reset, and neither
      does the rest of the trace. */
  lemma KeepsInterimTail(events: seq<Event>)
    requires events != [] && KeepsInterim(events)
    ensures !events[0].Start? && !(events[0].Message? && events[0].msg.turnComplete)
    ensures KeepsInterim(events[1..])
  {
    forall k | 0 <= k < |events[1..]|
      ensures !events[1..][k].Start? && !(events[1..][k].Message? && events[1..][k].msg.turnComplete)
    {
      assert events[1..][k] == events[k + 1];
    }
  }

  /** Between resets, the interim pair is the in-order concatenation of the
      transcription deltas. */
  lemma {:induction false} InterimIsConcatenation(s: State, events: seq<Event>, atob: string -> string)
    requires KeepsInterim(events)
    ensures Run(s, events, atob).interim == Turn(s.interim.user + UserDeltas(events),
                                                 s.interim.model + ModelDeltas(events))
    decreases |events|
  {
    if events != [] {
      KeepsInterimTail(events);
      var t := Step(s, events[0], atob);
      StepExtendsInterim(s, events[0], atob);
      InterimIsConcatenation(t, events[1..], atob);
      AppendAssoc(s.interim.user, EventUserDelta(events[0]), UserDeltas(events[1..]));
      AppendAssoc(s.interim.model, EventModelDelta(events[0]), ModelDeltas(events[1..]));
    }
  }

  lemma AppendAssoc(a: string, b: string, c: string)
    ensures a + b + c == a + (b + c)
  {
  }

  // ---------------------------------------------------------------------------
  // The finished turn: as written and corrected
  // ---------------------------------------------------------------------------

  /** A message carrying only an input transcription delta. */
  function UserSays(text: string): ServerMessage {
    ServerMessage(Some(Transcription(Some(text))), None, false, None, false)
  }

  /** A message carrying only the turnComplete flag. */
  const TurnDone: ServerMessage := ServerMessage(None, None, true, None, false)

  /** As written, the finished turn is the pair captured when Start was
      clicked, not the one accumulated since: after the deltas "hel" and "lo"
      the interim shows "hello", yet turnComplete appends an empty pair. */
  lemma StaleTurnAppended(atob: string -> string)
    ensures var before := Run(Initial, [Start(Launched), Open, Message(UserSays("hel"), 0.0),
                                        Message(UserSays("lo"), 0.0)], atob);
      && before.interim == Turn("hello", "")
      && Step(before, Message(TurnDone, 0.0), atob).transcripts == [EmptyTurn]
  {
    var s1 := Step(Initial, Start(Launched), atob);
    assert s1.captured == EmptyTurn && s1.interim == EmptyTurn;
    var s2 := Step(s1, Open, atob);
    var s3 := Step(s2, Message(UserSays("hel"), 0.0), atob);
    assert s3.interim == Turn("hel", "");
    var s4 := Step(s3, Message(UserSays("lo"), 0.0), atob);
    assert s4.interim == Turn("hello", "");
    assert s4.captured == EmptyTurn && s4.transcripts == [];
    assert Run(Initial, [Start(Launched), Open, Message(UserSays("hel"), 0.0), Message(UserSays("lo"), 0.0)], atob) == s4 by {
      assert Run(s4, [], atob) == s4;
      assert Run(s3, [Message(UserSays("lo"), 0.0)], atob) == s4;
      assert Run(s2, [Message(UserSays("hel"), 0.0), Message(UserSays("lo"), 0.0)], atob) == s4;
      assert Run(s1, [Open, Message(UserSays("hel"), 0.0), Message(UserSays("lo"), 0.0)], atob) == s4;
    }
  }

  /** The transcription step as evidently intended: turnComplete appends the
      pair accumulated so far, this message's deltas included. */
  function ApplyTranscriptsCorrected(s: State, m: ServerMessage): (r: State)
    ensures var extended := Turn(s.interim.user + UserDelta(m), s.interim.model + ModelDelta(m));
      && (m.turnComplete ==> r.transcripts == s.transcripts + [extended] && r.interim == EmptyTurn)
      && (!m.turnComplete ==> r.transcripts == s.transcripts && r.interim == extended)
    ensures r.(transcripts := s.transcripts, interim := s.interim) == s
  {
    var extended := Turn(s.interim.user + UserDelta(m), s.interim.model + ModelDelta(m));
    if m.turnComplete then s.(transcripts := s.transcripts + [extended], interim := EmptyTurn)
    else s.(interim := extended)
  }

  /** The corrected transcription steps over a sequence of messages. */
  function TranscribeCorrected(s: State, msgs: seq<ServerMessage>): State
    decreases |msgs|
  {
    if msgs == [] then s else TranscribeCorrected(ApplyTranscriptsCorrected(s, msgs[0]), msgs[1..])
  }

  /** Concatenation of the messages' input and output deltas. */
  function MessagesUser(msgs: seq<ServerMessage>): string
    decreases |msgs|
  {
    if msgs == [] then "" else UserDelta(msgs[0]) + MessagesUser(msgs[1..])
  }

  function MessagesModel(msgs: seq<ServerMessage>): string
    decreases |msgs|
  {
    if msgs == [] then "" else ModelDelta(msgs[0]) + MessagesModel(msgs[1..])
  }

  /** Corrected: a turn ending in turnComplete appends exactly the in-order
      concatenation of its deltas (after whatever was already interim), and
      leaves the interim pair empty. */
  lemma {:induction false} CorrectedTurnIsConcatenation(s: State, msgs: seq<ServerMessage>)
    requires |msgs| > 0 && msgs[|msgs| - 1].turnComplete
    requires forall k :: 0 <= k < |msgs| - 1 ==> !msgs[k].turnComplete
    ensures var r := TranscribeCorrected(s, msgs);
      && r.transcripts == s.transcripts + [Turn(s.interim.user + MessagesUser(msgs),
                                                s.interim.model + MessagesModel(msgs))]
      && r.interim == EmptyTurn
    decreases |msgs|
  {
    var t := ApplyTranscriptsCorrected(s, msgs[0]);
    if |msgs| == 1 {
      assert msgs[1..] == [];
      assert TranscribeCorrected(s, msgs) == t;
      assert MessagesUser(msgs) == UserDelta(msgs[0]) + "" == UserDelta(msgs[0]);
      assert MessagesModel(msgs) == ModelDelta(msgs[0]) + "" == ModelDelta(msgs[0]);
    } else {
      assert !msgs[0].turnComplete;
      assert forall k :: 0 <= k < |msgs[1..]| - 1 ==> !msgs[1..][k].turnComplete by {
        forall k | 0 <= k < |msgs[1..]| - 1 ensures !msgs[1..][k].turnComplete {
          assert msgs[1..][k] == msgs[k + 1];
        }
      }
      assert msgs[1..][|msgs[1..]| - 1] == msgs[|msgs| - 1];
      CorrectedTurnIsConcatenation(t, msgs[1..]);
      AppendAssoc(s.interim.user, UserDelta(msgs[0]), MessagesUser(msgs[1..]));
      AppendAssoc(s.interim.model, ModelDelta(msgs[0]), MessagesModel(msgs[1..]));
    }
  }

  /** Once the session ref is null, frames are dropped until a new session is
      launched: no trace without a Start sends anything. */
  lemma {:induction false} NoFramesWithoutSession(s: State, events: seq<Event>, atob: string -> string)
    requires !s.refs.session
    requires forall k :: 0 <= k < |events| ==> !events[k].Start?
    ensures Run(s, events, atob).sent == s.sent
    ensures !Run(s, events, atob).refs.session
    decreases |events|
  {
    if events != [] {
      var t := Step(s, events[0], atob);
      assert !t.refs.session && t.sent == s.sent;
      assert forall k :: 0 <= k < |events[1..]| ==> !events[1..][k].Start? by {
        forall k | 0 <= k < |events[1..]| ensures !events[1..][k].Start? {
          assert events[1..][k] == events[k + 1];
        }
      }
      NoFramesWithoutSession(t, events[1..], atob);
    }
  }

  /** Cleanup is idempotent, and a frame after it is dropped. */
  lemma CleanupIdempotent(s: State, samples: seq<real>)
    ensures Cleanup(Cleanup(s)) == Cleanup(s)
    ensures HandleFrame(Cleanup(s), samples) == Cleanup(s)
  {
  }

  /** From 'error' (and from 'connecting'/'connected') Start is shown or not,
      but clicking it changes nothing, however often it is clicked. */
  lemma {:induction false} StartOnlyFromDisconnected(s: State, outcomes: seq<StartOutcome>, atob: string -> string)
    requires s.connection != Disconnected
    ensures Run(s, seq(|outcomes|, k requires 0 <= k < |outcomes| => Start(outcomes[k])), atob) == s
    decreases |outcomes|
  {
    var events := seq(|outcomes|, k requires 0 <= k < |outcomes| => Start(outcomes[k]));
    if outcomes != [] {
      assert Step(s, events[0], atob) == s;
      assert events[1..] == seq(|outcomes[1..]|, k requires 0 <= k < |outcomes[1..]| => Start(outcomes[1..][k]));
      StartOnlyFromDisconnected(s, outcomes[1..], atob);
    }
  }

  // ---------------------------------------------------------------------------
  // Playback watermark
  // ---------------------------------------------------------------------------

  /** Every playing chunk ends no later than the watermark. */
  predicate WatermarkCoversPlaying(s: State) {
    forall c :: c in s.playing ==> c.start + c.duration <= s.nextStart
  }

  /** Messages keep the watermark at or past the end of every playing chunk,
      so a newly scheduled chunk never overlaps one already playing. */
  lemma MessageKeepsWatermark(s: State, m: ServerMessage, now: real, atob: string -> string)
    requires WatermarkCoversPlaying(s)
    ensures WatermarkCoversPlaying(HandleMessage(s, m, now, atob))
    ensures NewChunk(s, m, now, atob).Some? ==>
      forall c :: c in s.playing ==> c.start + c.duration <= NewChunk(s, m, now, atob).value.start
  {
  }

  /** With the watermark still ahead of the clock, the chunk of the next
      message starts exactly where the previous one ended. */
  lemma ConsecutiveChunksAbut(s: State, m1: ServerMessage, now1: real, m2: ServerMessage, now2: real,
                              atob: string -> string)
    requires NewChunk(s, m1, now1, atob).Some? && !m1.interrupted
    requires var s1 := HandleMessage(s, m1, now1, atob);
      NewChunk(s1, m2, now2, atob).Some? && now2 <= s1.nextStart
    ensures var c1 := NewChunk(s, m1, now1, atob).value;
      var c2 := NewChunk(HandleMessage(s, m1, now1, atob), m2, now2, atob).value;
      c2.start == c1.start + c1.duration && c2.id == c1.id + 1
  {
  }

  /** An interruption, whether or not its message carries audio, empties the
      set and resets the watermark, so the next chunk starts at the
      then-current time. Only a decode failure skips the interruption. */
  lemma InterruptRestartsAtNow(s: State, m1: ServerMessage, now1: real, m2: ServerMessage, now2: real,
                               atob: string -> string)
    requires m1.interrupted
    requires NewChunk(s, m1, now1, atob).Some? || !(HasAudio(m1) && s.refs.outputContext)
    requires now2 >= 0.0
    requires NewChunk(HandleMessage(s, m1, now1, atob), m2, now2, atob).Some?
    ensures HandleMessage(s, m1, now1, atob).playing == {}
    ensures NewChunk(HandleMessage(s, m1, now1, atob), m2, now2, atob).value.start == now2
  {
  }
}
