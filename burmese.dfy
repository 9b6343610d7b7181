/** The synchronous voice pipeline of the Burmese example: `googleSTT` (lines 266-356),
    `callOpenAI` (lines 363-474), `googleTTS` (lines 480-552) and the turn loop
    `conversationLoop` (lines 589-640). Each service call takes its outcome as an input;
    what is sent to the robot and to the services is the `Robot` trace. */
module BurmeseAssistant {
  import opened Common
  import opened Effects
  import opened History
  import Utf8
  import JsonEscape
  import Json
  import Base64
  import Fields
  import Messages
  import Capture
  import Playback

  const MaxHistory: nat := 5

  const TranscriptMarker: string := "\"transcript\": \""
  const ContentMarker: string := "\"content\": \""
  const AudioMarker: string := "\"audioContent\": \""

  const CurlInitError: string := "Error: CURL init failed"
  const SttRequestError: string := "Error: STT request failed"
  /** The apologies of lines 421 and 428, as the UTF-8 bytes the source file holds:
      "တောင်းပန်ပါတယ်။" ("I am sorry.") and "ဖြစ်နေပါတယ်။" ("has happened.") around
      the English error name. */
  const Apology: string := "\U{e1}\U{80}\U{90}\U{e1}\U{80}\U{b1}\U{e1}\U{80}\U{ac}\U{e1}\U{80}\U{84}\U{e1}\U{80}\U{ba}\U{e1}\U{80}\U{b8}\U{e1}\U{80}\U{95}\U{e1}\U{80}\U{94}\U{e1}\U{80}\U{ba}\U{e1}\U{80}\U{95}\U{e1}\U{80}\U{ab}\U{e1}\U{80}\U{90}\U{e1}\U{80}\U{9a}\U{e1}\U{80}\U{ba}\U{e1}\U{81}\U{8b}"
  const ErrorHappened: string := "\U{e1}\U{80}\U{96}\U{e1}\U{80}\U{bc}\U{e1}\U{80}\U{85}\U{e1}\U{80}\U{ba}\U{e1}\U{80}\U{94}\U{e1}\U{80}\U{b1}\U{e1}\U{80}\U{95}\U{e1}\U{80}\U{ab}\U{e1}\U{80}\U{90}\U{e1}\U{80}\U{9a}\U{e1}\U{80}\U{ba}\U{e1}\U{81}\U{8b}"
  const NetworkApology: string := Apology + " Network error " + ErrorHappened
  const ResponseApology: string := Apology + " Response error " + ErrorHappened
  /** The English phrase of line 634, spoken with speaker 1 when no Burmese audio came. */
  const FallbackPhrase: string := "Sorry, Burmese voice is not available."

  // ---------------------------------------------------------------------------
  // googleSTT
  // ---------------------------------------------------------------------------

  /** Every `\u` the transcript reader meets has four hex digits behind it. */
  predicate SttReadable(outcome: Transport)
  {
    outcome.Received? && Behind(outcome.body, TranscriptMarker).Some? ==>
      Fields.TranscriptHex(Behind(outcome.body, TranscriptMarker).value)
  }

  /** What `googleSTT` returns for the recorded bytes `audio`. */
  function SttTranscript(audio: seq<byte>, outcome: Transport): string
    requires SttReadable(outcome)
  {
    if |audio| == 0 then ""
    else match outcome
      case InitFailed => CurlInitError
      case RequestFailed(_) => SttRequestError
      case Received(body) =>
        match Behind(body, TranscriptMarker)
        case None => ""
        case Some(t) => Fields.Transcript(t)
  }

  /** The request `googleSTT` sends: the audio in base64. */
  function SttEvents(audio: seq<byte>, outcome: Transport): seq<Event>
  {
    if |audio| == 0 || outcome.InitFailed? then [] else [Post(SpeechToText, Base64.EncodeSpec(audio))]
  }

  method GoogleStt(robot: Robot, audio_data: seq<byte>, outcome: Transport) returns (transcript: string)
    requires SttReadable(outcome)
    modifies robot
    ensures transcript == SttTranscript(audio_data, outcome)
    ensures robot.log == old(robot.log) + SttEvents(audio_data, outcome)
  {
    if |audio_data| == 0 {
      return "";
    }
    if outcome.InitFailed? {
      return CurlInitError;
    }
    var audio_base64 := Base64.Encode(audio_data);
    robot.Send(SpeechToText, audio_base64);
    if outcome.RequestFailed? {
      return SttRequestError;
    }
    var response_string := outcome.body;
    var pos := Find(response_string, TranscriptMarker);
    if pos.None? {
      return "";
    }
    transcript := Fields.ReadTranscript(response_string, pos.value + |TranscriptMarker|);
  }

  // ---------------------------------------------------------------------------
  // callOpenAI
  // ---------------------------------------------------------------------------

  /** Every `\u` the reply reader meets has four hex digits behind it. */
  predicate ChatReadable(outcome: Transport)
  {
    outcome.Received? && Behind(outcome.body, ContentMarker).Some? ==>
      Fields.ReplyHex(Behind(outcome.body, ContentMarker).value)
  }

  /** A reply was received and holds the marker: the only case that updates the history. */
  predicate ChatAnswered(outcome: Transport)
  {
    outcome.Received? && Behind(outcome.body, ContentMarker).Some?
  }

  /** What `callOpenAI` returns. */
  function ChatReply(outcome: Transport): string
    requires ChatReadable(outcome)
  {
    match outcome
    case InitFailed => CurlInitError
    case RequestFailed(_) => NetworkApology
    case Received(body) =>
      match Behind(body, ContentMarker)
      case None => ResponseApology
      case Some(t) => Fields.Reply(t)
  }

  /** The request `callOpenAI` sends: the messages array built from the history. */
  function ChatEvents(h: seq<Turn>, user_message: string, outcome: Transport): seq<Event>
  {
    if outcome.InitFailed? then []
    else [Post(Chat, Messages.ArrayText(Messages.BurmeseMessages(h, user_message)))]
  }

  /** The turn `callOpenAI` records: the message and the reply, when one came back. */
  function ChatAnswer(user_message: string, outcome: Transport): seq<Turn>
    requires ChatReadable(outcome)
  {
    if ChatAnswered(outcome) then [Turn(user_message, ChatReply(outcome))] else []
  }

  /** The history after `callOpenAI`. */
  function ChatHistory(h: seq<Turn>, user_message: string, outcome: Transport): seq<Turn>
    requires ChatReadable(outcome)
  {
    if ChatAnswered(outcome) then Push(h, Turn(user_message, ChatReply(outcome)), MaxHistory) else h
  }

  method CallOpenAI(robot: Robot, history: ConversationHistory, user_message: string, outcome: Transport)
    returns (content: string)
    requires history.Valid() && history.capacity == MaxHistory && ChatReadable(outcome)
    modifies robot, history
    ensures history.Valid()
    ensures content == ChatReply(outcome)
    ensures history.turns == ChatHistory(old(history.turns), user_message, outcome)
    ensures robot.log == old(robot.log) + ChatEvents(old(history.turns), user_message, outcome)
    ensures history.recorded == old(history.recorded) + ChatAnswer(user_message, outcome)
  {
    if outcome.InitFailed? {
      return CurlInitError;
    }
    var messages_json := Messages.BuildBurmeseMessages(history.turns, user_message);
    robot.Send(Chat, messages_json);
    if outcome.RequestFailed? {
      return NetworkApology;
    }
    var found;
    content, found := ParseResponse(outcome.body);
    if found {
      history.Record(user_message, content);
    }
  }

  /** The reply read out of a response body (lines 424-464), and whether the body held
      the `"content": "` marker. */
  method ParseResponse(response_string: string) returns (content: string, found: bool)
    requires ChatReadable(Received(response_string))
    ensures found == ChatAnswered(Received(response_string))
    ensures content == ChatReply(Received(response_string))
  {
    var pos := Find(response_string, ContentMarker);
    if pos.None? {
      return ResponseApology, false;
    }
    var start := pos.value + |ContentMarker|;
    assert response_string[start - 1] == response_string[pos.value..start][|ContentMarker| - 1];
    content := Fields.ReadReply(response_string, start);
    found := true;
  }

  // ---------------------------------------------------------------------------
  // googleTTS
  // ---------------------------------------------------------------------------

  /** What `googleTTS` returns: the bytes of the base64 text behind the marker. */
  function TtsAudio(outcome: Transport): seq<byte>
  {
    match outcome
    case InitFailed => []
    case RequestFailed(_) => []
    case Received(body) =>
      match Behind(body, AudioMarker)
      case None => []
      case Some(t) => Base64.DecodeSpec(Fields.AudioField(t))
  }

  /** The request `googleTTS` sends: the escaped text. */
  function TtsEvents(text: string, outcome: Transport): seq<Event>
  {
    if outcome.InitFailed? then [] else [Post(TextToSpeech, JsonEscape.Escape(text, JsonEscape.Speech))]
  }

  method GoogleTts(robot: Robot, text: string, outcome: Transport) returns (result: seq<byte>)
    modifies robot
    ensures result == TtsAudio(outcome)
    ensures robot.log == old(robot.log) + TtsEvents(text, outcome)
  {
    if outcome.InitFailed? {
      return [];
    }
    var escaped_text := JsonEscape.EscapeSpeech(text);
    robot.Send(TextToSpeech, escaped_text);
    if outcome.RequestFailed? {
      return [];
    }
    var response_string := outcome.body;
    var pos := Find(response_string, AudioMarker);
    if pos.None? {
      return [];
    }
    var audio_base64 := Fields.AudioField(response_string[pos.value + |AudioMarker|..]);
    result := Base64.Decode(audio_base64);
  }

  // ---------------------------------------------------------------------------
  // conversationLoop
  // ---------------------------------------------------------------------------

  /** Everything one turn of the loop depends on: the microphone (see `Capture`), the
      three service outcomes, and the stream id the clock would give. `stop == Some(k)`
      says that the shutdown signal arrives while this turn records, at the latest once
      `k` datagrams have been received; the check of line 597 then sees it and the loop
      ends. A signal later in a turn ends the loop after that turn, which is the end of the
      input. */
  datatype TurnInput = TurnInput(
    bound: bool, datagrams: seq<seq<byte>>, stop: Option<nat>,
    stt: Transport, chat: Transport, tts: Transport, stream_id: string)

  predicate Readable(inp: TurnInput)
  {
    SttReadable(inp.stt) && ChatReadable(inp.chat)
  }

  function TurnAudio(inp: TurnInput): seq<byte>
  {
    Capture.Recording(inp.bound, inp.datagrams, inp.stop, Capture.RecordSeconds)
  }

  /** Lines 629-636: play the synthesized audio, or say the fallback phrase and wait
      three seconds. */
  function SpeechEvents(tts_audio: seq<byte>, stream_id: string): seq<Event>
  {
    if |tts_audio| > 0 then Playback.PlaybackEvents(tts_audio, stream_id)
    else [TtsMaker(FallbackPhrase, 1), Sleep(3)]
  }

  /** Lines 617-636: the chat request, the green LED, the speech request, and the
      playback or the fallback. */
  function ReplyEvents(h: seq<Turn>, user_text: string, chat: Transport, tts: Transport, stream_id: string)
    : seq<Event>
    requires ChatReadable(chat)
  {
    ChatEvents(h, user_text, chat) + [Speaking] + TtsEvents(ChatReply(chat), tts)
    + SpeechEvents(TtsAudio(tts), stream_id)
  }

  /** Lines 602-636, for a recording that got past line 597. */
  function HeardEvents(h: seq<Turn>, audio: seq<byte>, inp: TurnInput): seq<Event>
    requires Readable(inp)
  {
    var user_text := SttTranscript(audio, inp.stt);
    [Processing] + SttEvents(audio, inp.stt)
    + if |user_text| == 0 then [] else ReplyEvents(h, user_text, inp.chat, inp.tts, inp.stream_id)
  }

  /** The turn gets past line 597. */
  predicate Heard(inp: TurnInput)
  {
    |TurnAudio(inp)| > 0 && inp.stop.None?
  }

  /** The text handed to `callOpenAI`, or the empty text when the turn stops before. */
  function UserText(inp: TurnInput): string
    requires Readable(inp)
  {
    if Heard(inp) then SttTranscript(TurnAudio(inp), inp.stt) else ""
  }

  /** Everything one turn sends, after the history `h`. */
  function TurnEvents(h: seq<Turn>, inp: TurnInput): seq<Event>
    requires Readable(inp)
  {
    [Listening] + if Heard(inp) then HeardEvents(h, TurnAudio(inp), inp) else []
  }

  /** The history after one turn. */
  function TurnHistory(h: seq<Turn>, inp: TurnInput): seq<Turn>
    requires Readable(inp)
  {
    if |UserText(inp)| == 0 then h else ChatHistory(h, UserText(inp), inp.chat)
  }

  /** Lines 617-636, once there is a text to answer. */
  method Respond(robot: Robot, history: ConversationHistory, user_text: string,
                 chat: Transport, tts: Transport, stream_id: string)
    requires history.Valid() && history.capacity == MaxHistory && ChatReadable(chat)
    modifies robot, history
    ensures history.Valid()
    ensures history.turns == ChatHistory(old(history.turns), user_text, chat)
    ensures robot.log == old(robot.log) + ReplyEvents(old(history.turns), user_text, chat, tts, stream_id)
    ensures history.recorded == old(history.recorded) + ChatAnswer(user_text, chat)
  {
    ghost var log0, h0 := robot.log, history.turns;
    var ai_response := CallOpenAI(robot, history, user_text, chat);
    ghost var c := ChatEvents(h0, user_text, chat);
    assert robot.log == log0 + c;
    robot.Led(0, 255, 0);
    var tts_audio := GoogleTts(robot, ai_response, tts);
    ghost var t := TtsEvents(ai_response, tts);
    assert robot.log == log0 + c + [Speaking] + t;
    Speak(robot, tts_audio, stream_id);
    Regroup(log0, c, [Speaking], t, SpeechEvents(tts_audio, stream_id));
  }

  /** Lines 629-636: play the synthesized audio, or fall back to the robot's own voice. */
  method Speak(robot: Robot, tts_audio: seq<byte>, stream_id: string)
    modifies robot
    ensures robot.log == old(robot.log) + SpeechEvents(tts_audio, stream_id)
  {
    if |tts_audio| > 0 {
      Playback.PlayAudio(robot, tts_audio, stream_id);
    } else {
      robot.Speak(FallbackPhrase, 1);
      robot.Pause(3);
      assert robot.log == old(robot.log) + [TtsMaker(FallbackPhrase, 1)] + [Sleep(3)];
    }
  }

  /** One pass of the `while (g_running)` body (lines 591-638). */
  method ConversationTurn(robot: Robot, history: ConversationHistory, inp: TurnInput)
    requires history.Valid() && history.capacity == MaxHistory && Readable(inp)
    modifies robot, history
    ensures history.Valid()
    ensures history.turns == TurnHistory(old(history.turns), inp)
    ensures robot.log == old(robot.log) + TurnEvents(old(history.turns), inp)
    ensures history.recorded == old(history.recorded) + TurnAnswer(inp)
  {
    ghost var log0 := robot.log;
    robot.Led(0, 0, 255);
    var audio := Capture.RecordAudio(inp.bound, inp.datagrams, inp.stop, Capture.RecordSeconds);
    if |audio| == 0 || inp.stop.Some? {
      assert [Listening] + [] == [Listening];
      assert history.recorded + [] == history.recorded;
      return;
    }
    robot.Led(255, 165, 0);
    var user_text := GoogleStt(robot, audio, inp.stt);
    ghost var s := SttEvents(audio, inp.stt);
    ghost var log1 := robot.log;
    if |user_text| == 0 {
      assert log1 == log0 + [Listening] + [Processing] + s;
      assert history.recorded + [] == history.recorded;
    } else {
      Respond(robot, history, user_text, inp.chat, inp.tts, inp.stream_id);
    }
    ghost var r := if |user_text| == 0 then [] else ReplyEvents(old(history.turns), user_text, inp.chat, inp.tts, inp.stream_id);
    assert robot.log == log0 + [Listening] + [Processing] + s + r;
    RegroupTurn(log0, [Listening], [Processing], s, r);
  }

  /** The turn one pass records: the user's text and the reply, once the chat call was
      answered. */
  function TurnAnswer(inp: TurnInput): seq<Turn>
    requires Readable(inp)
  {
    if |UserText(inp)| == 0 then [] else ChatAnswer(UserText(inp), inp.chat)
  }

  /** The history after the loop over the turns `ts`, starting from the history `h`. */
  function LoopHistory(h: seq<Turn>, ts: seq<TurnInput>): seq<Turn>
    requires forall i :: 0 <= i < |ts| ==> Readable(ts[i])
    decreases |ts|
  {
    if |ts| == 0 then h
    else if ts[0].stop.Some? then TurnHistory(h, ts[0])
    else LoopHistory(TurnHistory(h, ts[0]), ts[1..])
  }

  /** Every turn the loop over `ts` records, in order. */
  function LoopAnswers(ts: seq<TurnInput>): seq<Turn>
    requires forall i :: 0 <= i < |ts| ==> Readable(ts[i])
    decreases |ts|
  {
    if |ts| == 0 then []
    else TurnAnswer(ts[0]) + if ts[0].stop.Some? then [] else LoopAnswers(ts[1..])
  }

  /** Everything the loop sends over the turns `ts`, starting from the history `h`. */
  function LoopEvents(h: seq<Turn>, ts: seq<TurnInput>): seq<Event>
    requires forall i :: 0 <= i < |ts| ==> Readable(ts[i])
    decreases |ts|
  {
    if |ts| == 0 then []
    else TurnEvents(h, ts[0]) + if ts[0].stop.Some? then [] else LoopEvents(TurnHistory(h, ts[0]), ts[1..])
  }

  /** `conversationLoop` over the turns `turns`: the loop ends when a turn sees the
      shutdown at line 597, or when the turns run out. */
  method ConversationLoop(robot: Robot, history: ConversationHistory, turns: seq<TurnInput>)
    requires history.Valid() && history.capacity == MaxHistory
    requires forall i :: 0 <= i < |turns| ==> Readable(turns[i])
    modifies robot, history
    ensures history.Valid() && |history.turns| <= MaxHistory
    ensures history.turns == LoopHistory(old(history.turns), turns)
    ensures history.recorded == old(history.recorded) + LoopAnswers(turns)
    ensures robot.log == old(robot.log) + LoopEvents(old(history.turns), turns)
  {
    var running := true;
    var i := 0;
    while running && i < |turns|
      invariant i <= |turns| && history.Valid() && history.capacity == MaxHistory
      invariant running ==>
        old(robot.log) + LoopEvents(old(history.turns), turns) == robot.log + LoopEvents(history.turns, turns[i..])
      invariant running ==> LoopHistory(old(history.turns), turns) == LoopHistory(history.turns, turns[i..])
      invariant running ==> old(history.recorded) + LoopAnswers(turns) == history.recorded + LoopAnswers(turns[i..])
      invariant !running ==> robot.log == old(robot.log) + LoopEvents(old(history.turns), turns)
      invariant !running ==> history.turns == LoopHistory(old(history.turns), turns)
      invariant !running ==> history.recorded == old(history.recorded) + LoopAnswers(turns)
      decreases |turns| - i
    {
      ghost var log0, h0, rec0 := robot.log, history.turns, history.recorded;
      ConversationTurn(robot, history, turns[i]);
      running := turns[i].stop.None?;
      LoopStep(log0, h0, turns, i);
      LoopHistoryStep(h0, rec0, turns, i);
      i := i + 1;
    }
    assert !running || turns[i..] == [];
    assert !running || history.recorded + LoopAnswers(turns[i..]) == history.recorded;
    assert |history.turns| == Min(|history.recorded|, MaxHistory);
  }

  /** One round of the loop: the turn's events, then the rest of the loop unless the
      turn saw the shutdown. */
  lemma LoopStep(log0: seq<Event>, h0: seq<Turn>, ts: seq<TurnInput>, i: nat)
    requires i < |ts| && forall j :: 0 <= j < |ts| ==> Readable(ts[j])
    ensures log0 + LoopEvents(h0, ts[i..])
      == (log0 + TurnEvents(h0, ts[i]))
         + (if ts[i].stop.None? then LoopEvents(TurnHistory(h0, ts[i]), ts[i + 1..]) else [])
  {
    assert ts[i..][1..] == ts[i + 1..];
    ConcatAssoc(log0, TurnEvents(h0, ts[i]),
      if ts[i].stop.None? then LoopEvents(TurnHistory(h0, ts[i]), ts[i + 1..]) else []);
  }

  /** One round of the loop, for the history and the turns recorded. */
  lemma LoopHistoryStep(h0: seq<Turn>, rec0: seq<Turn>, ts: seq<TurnInput>, i: nat)
    requires i < |ts| && forall j :: 0 <= j < |ts| ==> Readable(ts[j])
    ensures LoopHistory(h0, ts[i..]) ==
      if ts[i].stop.None? then LoopHistory(TurnHistory(h0, ts[i]), ts[i + 1..]) else TurnHistory(h0, ts[i])
    ensures rec0 + LoopAnswers(ts[i..]) ==
      (rec0 + TurnAnswer(ts[i])) + if ts[i].stop.None? then LoopAnswers(ts[i + 1..]) else []
  {
    assert ts[i..][1..] == ts[i + 1..];
    ConcatAssoc(rec0, TurnAnswer(ts[i]), if ts[i].stop.None? then LoopAnswers(ts[i + 1..]) else []);
  }

  // ---------------------------------------------------------------------------
  // Properties of a turn
  // ---------------------------------------------------------------------------

  /** Regrouping a trace appended to step by step. */
  lemma Regroup<T>(a: seq<T>, b: seq<T>, c: seq<T>, d: seq<T>, e: seq<T>)
    ensures a + b + c + d + e == a + (b + c + d + e)
  {
    ConcatAssoc(a, b, c);
    ConcatAssoc(a, b + c, d);
    ConcatAssoc(a, b + c + d, e);
  }

  lemma RegroupTurn<T>(a: seq<T>, b: seq<T>, c: seq<T>, d: seq<T>, e: seq<T>)
    ensures a + b + c + d + e == a + (b + (c + d + e))
  {
    Regroup(a, b, c, d, e);
    ConcatAssoc(b, c + d, e);
    ConcatAssoc(b, c, d);
  }

  /** A request to `service` is in the trace. */
  predicate Sends(events: seq<Event>, service: Service)
  {
    exists i :: 0 <= i < |events| && events[i].Post? && events[i].service == service
  }

  /** Only requests. */
  predicate AllPosts(events: seq<Event>)
  {
    forall i :: 0 <= i < |events| ==> events[i].Post?
  }

  /** No LED command. */
  predicate NoLed(events: seq<Event>)
  {
    forall i :: 0 <= i < |events| ==> !events[i].LedControl?
  }

  lemma RequestsArePosts(h: seq<Turn>, user_text: string, audio: seq<byte>, text: string, inp: TurnInput)
    ensures AllPosts(SttEvents(audio, inp.stt)) && NoLed(SttEvents(audio, inp.stt))
    ensures AllPosts(ChatEvents(h, user_text, inp.chat)) && NoLed(ChatEvents(h, user_text, inp.chat))
    ensures AllPosts(TtsEvents(text, inp.tts)) && NoLed(TtsEvents(text, inp.tts))
  {
  }

  /** Silence or shutdown: the turn lights the LED blue and does nothing else, so the
      recording never reaches `googleSTT`; the history stays as it was. */
  lemma SilenceSkipsTurn(h: seq<Turn>, inp: TurnInput)
    requires Readable(inp)
    ensures !Heard(inp) <==> TurnEvents(h, inp) == [Listening]
    ensures !Heard(inp) ==> TurnHistory(h, inp) == h
  {
    if Heard(inp) {
      var rest := HeardEvents(h, TurnAudio(inp), inp);
      assert |rest| > 0 by {
        assert rest[0] == Processing;
      }
      assert |TurnEvents(h, inp)| == 1 + |rest|;
    } else {
      assert [Listening] + [] == [Listening];
    }
  }

  /** An empty transcript ends the turn after the speech request: no chat request, no
      speech request, no history update. */
  lemma EmptyTranscriptSkipsChat(h: seq<Turn>, inp: TurnInput)
    requires Readable(inp) && Heard(inp) && UserText(inp) == ""
    ensures TurnEvents(h, inp) == [Listening, Processing] + SttEvents(TurnAudio(inp), inp.stt)
    ensures !Sends(TurnEvents(h, inp), Chat) && !Sends(TurnEvents(h, inp), TextToSpeech)
    ensures TurnHistory(h, inp) == h
  {
    var s := SttEvents(TurnAudio(inp), inp.stt);
    assert HeardEvents(h, TurnAudio(inp), inp) == [Processing] + s + [];
    assert [Listening] + ([Processing] + s + []) == [Listening, Processing] + s;
    var evs := [Listening, Processing] + s;
    forall i | 0 <= i < |evs| && evs[i].Post?
      ensures evs[i].service == SpeechToText
    {
      assert evs[i] == s[i - 2];
    }
  }

  /** A turn with a text to answer: blue, orange, the speech request, then the reply. */
  lemma AnsweredTurn(h: seq<Turn>, inp: TurnInput)
    requires Readable(inp) && Heard(inp) && UserText(inp) != ""
    ensures TurnEvents(h, inp) == [Listening, Processing] + SttEvents(TurnAudio(inp), inp.stt)
      + ReplyEvents(h, UserText(inp), inp.chat, inp.tts, inp.stream_id)
    ensures TurnHistory(h, inp) == ChatHistory(h, UserText(inp), inp.chat)
  {
    var s := SttEvents(TurnAudio(inp), inp.stt);
    var r := ReplyEvents(h, UserText(inp), inp.chat, inp.tts, inp.stream_id);
    assert HeardEvents(h, TurnAudio(inp), inp) == [Processing] + s + r;
    ConcatAssoc([Listening], [Processing] + s, r);
    ConcatAssoc([Listening], [Processing], s);
    assert [Listening] + [Processing] == [Listening, Processing];
  }

  /** A failed speech request still yields a non-empty text, the error message, and
      that message is what the turn sends to the chat service as the user's words. */
  lemma SttErrorReachesChat(h: seq<Turn>, inp: TurnInput)
    requires Readable(inp) && Heard(inp) && (inp.stt.InitFailed? || inp.stt.RequestFailed?)
    requires !inp.chat.InitFailed?
    ensures UserText(inp) == (if inp.stt.InitFailed? then CurlInitError else SttRequestError)
    ensures Post(Chat, Messages.ArrayText(Messages.BurmeseMessages(h, UserText(inp)))) in TurnEvents(h, inp)
  {
    var text := UserText(inp);
    assert text == (if inp.stt.InitFailed? then CurlInitError else SttRequestError);
    AnsweredTurn(h, inp);
    var pre := [Listening, Processing] + SttEvents(TurnAudio(inp), inp.stt);
    var x := Post(Chat, Messages.ArrayText(Messages.BurmeseMessages(h, text)));
    var r := ReplyEvents(h, text, inp.chat, inp.tts, inp.stream_id);
    var tail := [Speaking] + TtsEvents(ChatReply(inp.chat), inp.tts) + SpeechEvents(TtsAudio(inp.tts), inp.stream_id);
    assert ChatEvents(h, text, inp.chat) == [x];
    assert r == [x] + [Speaking] + TtsEvents(ChatReply(inp.chat), inp.tts) + SpeechEvents(TtsAudio(inp.tts), inp.stream_id);
    ConcatAssoc([x], [Speaking], TtsEvents(ChatReply(inp.chat), inp.tts));
    ConcatAssoc([x], [Speaking] + TtsEvents(ChatReply(inp.chat), inp.tts), SpeechEvents(TtsAudio(inp.tts), inp.stream_id));
    assert r == [x] + tail;
    assert (pre + r)[|pre|] == x;
  }

  /** Neither a speech call nor a stream call. */
  predicate Quiet(e: Event)
  {
    e.LedControl? || e.Post?
  }

  /** Everything a turn sends before its last step is an LED command or a request. */
  lemma AnsweredTurnPrefix(h: seq<Turn>, inp: TurnInput)
    requires Readable(inp) && Heard(inp) && UserText(inp) != ""
    ensures var pre := [Listening, Processing] + SttEvents(TurnAudio(inp), inp.stt)
        + ChatEvents(h, UserText(inp), inp.chat) + [Speaking] + TtsEvents(ChatReply(inp.chat), inp.tts);
      TurnEvents(h, inp) == pre + SpeechEvents(TtsAudio(inp.tts), inp.stream_id) &&
      forall i :: 0 <= i < |pre| ==> Quiet(pre[i])
  {
    AnsweredTurn(h, inp);
    var s := SttEvents(TurnAudio(inp), inp.stt);
    var c := ChatEvents(h, UserText(inp), inp.chat);
    var t := TtsEvents(ChatReply(inp.chat), inp.tts);
    var p := SpeechEvents(TtsAudio(inp.tts), inp.stream_id);
    RequestsArePosts(h, UserText(inp), TurnAudio(inp), ChatReply(inp.chat), inp);
    Regroup([Listening, Processing] + s, c, [Speaking], t, p);
    QuietPrefix([Listening, Processing], s, c, t);
  }

  lemma QuietPrefix(leds: seq<Event>, s: seq<Event>, c: seq<Event>, t: seq<Event>)
    requires forall i :: 0 <= i < |leds| ==> leds[i].LedControl?
    requires AllPosts(s) && AllPosts(c) && AllPosts(t)
    ensures var pre := leds + s + c + [Speaking] + t;
      forall i :: 0 <= i < |pre| ==> Quiet(pre[i])
  {
  }

  /** A quiet prefix followed by the fallback phrase and its pause. */
  lemma FallbackEnd(pre: seq<Event>)
    requires forall i :: 0 <= i < |pre| ==> Quiet(pre[i])
    ensures var evs := pre + [TtsMaker(FallbackPhrase, 1), Sleep(3)];
      |evs| >= 2 && evs[|evs| - 2..] == [TtsMaker(FallbackPhrase, 1), Sleep(3)] &&
      (forall i :: 0 <= i < |evs| ==> !evs[i].PlayStream? && !evs[i].PlayStop?) &&
      (forall i :: 0 <= i < |evs| - 2 ==> !evs[i].TtsMaker?)
  {
    var evs := pre + [TtsMaker(FallbackPhrase, 1), Sleep(3)];
    assert evs[|evs| - 2..] == [TtsMaker(FallbackPhrase, 1), Sleep(3)];
  }

  /** A quiet prefix followed by calls that are neither the fallback phrase nor an LED. */
  lemma PlayedEnd(pre: seq<Event>, p: seq<Event>)
    requires forall i :: 0 <= i < |pre| ==> Quiet(pre[i])
    requires forall i :: 0 <= i < |p| ==> p[i].PlayStream? || p[i].Sleep? || p[i].PlayStop?
    ensures var evs := pre + p;
      |p| <= |evs| && evs[|evs| - |p|..] == p && forall i :: 0 <= i < |evs| ==> !evs[i].TtsMaker?
  {
    var evs := pre + p;
    assert evs[|evs| - |p|..] == p;
    forall i | 0 <= i < |evs|
      ensures !evs[i].TtsMaker?
    {
      if i >= |pre| {
        assert evs[i] == p[i - |pre|];
      }
    }
  }

  /** When the speech service gives no audio, the turn says the fallback phrase once,
      waits three seconds, and streams nothing. */
  lemma NoSpeechFallback(h: seq<Turn>, inp: TurnInput)
    requires Readable(inp) && Heard(inp) && UserText(inp) != "" && TtsAudio(inp.tts) == []
    ensures var evs := TurnEvents(h, inp);
      |evs| >= 2 && evs[|evs| - 2..] == [TtsMaker(FallbackPhrase, 1), Sleep(3)] &&
      (forall i :: 0 <= i < |evs| ==> !evs[i].PlayStream? && !evs[i].PlayStop?) &&
      (forall i :: 0 <= i < |evs| - 2 ==> !evs[i].TtsMaker?)
  {
    AnsweredTurnPrefix(h, inp);
    var pre := [Listening, Processing] + SttEvents(TurnAudio(inp), inp.stt)
        + ChatEvents(h, UserText(inp), inp.chat) + [Speaking] + TtsEvents(ChatReply(inp.chat), inp.tts);
    FallbackEnd(pre);
  }

  /** When the speech service gives audio, the turn ends with its playback and never
      uses the fallback phrase. */
  lemma SpeechIsPlayed(h: seq<Turn>, inp: TurnInput)
    requires Readable(inp) && Heard(inp) && UserText(inp) != "" && |TtsAudio(inp.tts)| > 0
    ensures var evs, p := TurnEvents(h, inp), Playback.PlaybackEvents(TtsAudio(inp.tts), inp.stream_id);
      |p| <= |evs| && evs[|evs| - |p|..] == p && forall i :: 0 <= i < |evs| ==> !evs[i].TtsMaker?
  {
    AnsweredTurnPrefix(h, inp);
    var pre := [Listening, Processing] + SttEvents(TurnAudio(inp), inp.stt)
        + ChatEvents(h, UserText(inp), inp.chat) + [Speaking] + TtsEvents(ChatReply(inp.chat), inp.tts);
    PlaybackKinds(TtsAudio(inp.tts), inp.stream_id);
    PlayedEnd(pre, Playback.PlaybackEvents(TtsAudio(inp.tts), inp.stream_id));
  }

  /** Every call of a playback is a `PlayStream`, a pause or the `PlayStop`. */
  lemma PlaybackKinds(a: seq<byte>, stream_id: string)
    ensures forall i :: 0 <= i < |Playback.PlaybackEvents(a, stream_id)| ==>
      Playback.PlaybackEvents(a, stream_id)[i].PlayStream? ||
      Playback.PlaybackEvents(a, stream_id)[i].Sleep? ||
      Playback.PlaybackEvents(a, stream_id)[i].PlayStop?
  {
    Playback.PlaybackOrder(a, stream_id);
  }

  lemma SpeechNoLed(tts_audio: seq<byte>, stream_id: string)
    ensures NoLed(SpeechEvents(tts_audio, stream_id))
  {
    if |tts_audio| > 0 {
      PlaybackKinds(tts_audio, stream_id);
    }
  }

  lemma {:induction false} NoLeds(events: seq<Event>)
    requires NoLed(events)
    ensures Leds(events) == []
    decreases |events|
  {
    if |events| > 0 {
      NoLeds(events[1..]);
    }
  }

  lemma LedsAfterNone(a: seq<Event>, x: seq<Event>)
    requires NoLed(x)
    ensures Leds(a + x) == Leds(a)
  {
    LedsAppend(a, x);
    NoLeds(x);
    assert Leds(a) + [] == Leds(a);
  }

  lemma LedsAfterLed(a: seq<Event>, e: Event)
    requires e.LedControl?
    ensures Leds(a + [e]) == Leds(a) + [e]
  {
    LedsAppend(a, [e]);
    assert Leds([e]) == [e] + Leds([]);
  }

  /** The LED commands of a trace made of LED-free parts around the three colours. */
  lemma LedsOfParts(s: seq<Event>, c: seq<Event>, t: seq<Event>, p: seq<Event>)
    requires NoLed(s) && NoLed(c) && NoLed(t) && NoLed(p)
    ensures Leds([Listening, Processing] + s) == [Listening, Processing]
    ensures Leds([Listening, Processing] + s + c + [Speaking] + t + p) == [Listening, Processing, Speaking]
  {
    var lp := [Listening, Processing];
    assert Leds(lp) == lp by {
      LedsAfterLed([Listening], Processing);
      LedsAfterLed([], Listening);
      assert [] + [Listening] == [Listening];
    }
    LedsAfterNone(lp, s);
    LedsAfterNone(lp + s, c);
    LedsAfterLed(lp + s + c, Speaking);
    LedsAfterNone(lp + s + c + [Speaking], t);
    LedsAfterNone(lp + s + c + [Speaking] + t, p);
  }

  /** The LED goes blue, then orange once the turn has heard something, then green once
      there is a text to answer, and changes no more in the turn. */
  lemma LedSequence(h: seq<Turn>, inp: TurnInput)
    requires Readable(inp)
    ensures Leds(TurnEvents(h, inp)) ==
      if !Heard(inp) then [Listening]
      else if UserText(inp) == "" then [Listening, Processing]
      else [Listening, Processing, Speaking]
  {
    if !Heard(inp) {
      SilenceSkipsTurn(h, inp);
      assert Leds([Listening]) == [Listening] + Leds([]);
      return;
    }
    var s := SttEvents(TurnAudio(inp), inp.stt);
    var c := ChatEvents(h, UserText(inp), inp.chat);
    var t := TtsEvents(ChatReply(inp.chat), inp.tts);
    var p := SpeechEvents(TtsAudio(inp.tts), inp.stream_id);
    RequestsArePosts(h, UserText(inp), TurnAudio(inp), ChatReply(inp.chat), inp);
    SpeechNoLed(TtsAudio(inp.tts), inp.stream_id);
    LedsOfParts(s, c, t, p);
    if UserText(inp) == "" {
      EmptyTranscriptSkipsChat(h, inp);
    } else {
      AnsweredTurnPrefix(h, inp);
    }
  }

  // ---------------------------------------------------------------------------
  // Properties of the service calls
  // ---------------------------------------------------------------------------

  /** A failed or unreadable chat reply leaves the history as it was; a reply updates it
      with the user's text and the reply, keeping the last `MAX_HISTORY` turns. */
  lemma ChatHistoryUpdate(ts: seq<Turn>, user_message: string, outcome: Transport)
    requires ChatReadable(outcome)
    ensures !ChatAnswered(outcome) ==> ChatHistory(Window(ts, MaxHistory), user_message, outcome) == Window(ts, MaxHistory)
    ensures ChatAnswered(outcome) ==>
      ChatHistory(Window(ts, MaxHistory), user_message, outcome) == Window(ts + [Turn(user_message, ChatReply(outcome))], MaxHistory)
    ensures |ChatHistory(Window(ts, MaxHistory), user_message, outcome)| <= MaxHistory
  {
    PushWindow(ts, Turn(user_message, ChatReply(outcome)), MaxHistory);
  }

  /** One turn maps the window of the turns recorded so far to the window of those and
      the turn it records. */
  lemma TurnHistoryWindow(earlier: seq<Turn>, inp: TurnInput)
    requires Readable(inp)
    ensures TurnHistory(Window(earlier, MaxHistory), inp) == Window(earlier + TurnAnswer(inp), MaxHistory)
  {
    if |UserText(inp)| == 0 || !ChatAnswered(inp.chat) {
      assert earlier + [] == earlier;
    }
    if |UserText(inp)| > 0 {
      ChatHistoryUpdate(earlier, UserText(inp), inp.chat);
    }
  }

  /** After the loop the history is the last `MAX_HISTORY` of all turns recorded, those
      from before the loop included, oldest first. */
  lemma {:induction false} LoopHistoryIsWindow(earlier: seq<Turn>, ts: seq<TurnInput>)
    requires forall i :: 0 <= i < |ts| ==> Readable(ts[i])
    ensures LoopHistory(Window(earlier, MaxHistory), ts) == Window(earlier + LoopAnswers(ts), MaxHistory)
    decreases |ts|
  {
    if |ts| == 0 {
      assert earlier + [] == earlier;
    } else {
      var a := TurnAnswer(ts[0]);
      TurnHistoryWindow(earlier, ts[0]);
      if ts[0].stop.Some? {
        assert LoopAnswers(ts) == a + [];
      } else {
        assert forall i :: 0 <= i < |ts[1..]| ==> Readable(ts[1..][i]);
        LoopHistoryIsWindow(earlier + a, ts[1..]);
        ConcatAssoc(earlier, a, LoopAnswers(ts[1..]));
      }
    }
  }

  /** Without a usable reply `callOpenAI` answers with a fixed text of its own. */
  lemma ChatFailureReplies(outcome: Transport)
    requires ChatReadable(outcome) && !ChatAnswered(outcome)
    ensures ChatReply(outcome) == if outcome.InitFailed? then CurlInitError
      else if outcome.RequestFailed? then NetworkApology else ResponseApology
  {
  }

  /** A transcript the service wrote as a JSON string is read back as its UTF-8 bytes. */
  lemma SttReadsWrittenTranscript(audio: seq<byte>, body: string, t: string, rest: string)
    requires |audio| > 0 && Utf8.IsBmp(t)
    requires Behind(body, TranscriptMarker) == Some(Json.Write(t) + "\"" + rest)
    ensures SttReadable(Received(body))
    ensures SttTranscript(audio, Received(body)) == Utf8.EncodeText(t)
  {
    Fields.TranscriptOfWritten(t, rest);
  }

  /** A reply without backslashes written as a JSON string is read back as its UTF-8
      bytes. */
  lemma ChatReadsWrittenReply(body: string, t: string, rest: string)
    requires Utf8.IsBmp(t) && '\\' !in t
    requires Behind(body, ContentMarker) == Some(Json.Write(t) + "\"" + rest)
    ensures ChatReadable(Received(body)) && ChatAnswered(Received(body))
    ensures ChatReply(Received(body)) == Utf8.EncodeText(t)
  {
    Fields.ReplyOfWritten(t, rest);
  }

  /** Base64 text never holds a quote, so the audio field is all of it, and decoding
      gives the audio back. */
  lemma TtsReadsEncodedAudio(body: string, x: seq<byte>, rest: string)
    requires Behind(body, AudioMarker) == Some(Base64.EncodeSpec(x) + "\"" + rest)
    ensures TtsAudio(Received(body)) == x
  {
    var e := Base64.EncodeSpec(x);
    Base64.EncodeShape(x);
    Base64.QuoteNotSymbol();
    assert '"' !in e by {
      forall i | 0 <= i < |e|
        ensures e[i] != '"'
      {
        if i < |e| - Base64.PadCount(|x|) {
          assert e[i] in Base64.Alphabet;
        }
      }
    }
    assert (e + "\"" + rest)[|e|] == '"';
    assert Fields.AudioField(e + "\"" + rest) == e;
    Base64.RoundTrip(x);
  }
}
