/** The event-driven pipeline of the OpenAI example: the ASR callback `asr_handler`
    (lines 190-203) queues what the robot heard, and `conversation_thread` (lines 223-272)
    takes one message at a time from the queue, asks the chat service with `callOpenAI`
    (lines 80-184), and speaks the reply with the robot's own `TtsMaker` in the voice that
    `detectLanguage` (lines 209-217) picks.

    Whether an API key is available (compiled in, or in the `OPENAI_API_KEY` environment
    variable) is the input `has_key`; each chat call's outcome is an input as well. */
module OpenAiAssistant {
  import opened Common
  import opened Effects
  import opened History
  import JsonEscape
  import Utf8
  import Fields
  import Messages

  const MaxHistory: nat := 10

  /** The marker of line 142, without a space after the colon. */
  const ContentMarker: string := "\"content\":\""

  const KeyMissingError: string :=
    "Error: OpenAI API key not configured. Please set OPENAI_API_KEY environment variable."
  const CurlInitError: string := "Error: Failed to initialize CURL"
  /** Followed by `curl_easy_strerror` of the failure. */
  const NetworkErrorPrefix: string := "Error: Network request failed - "
  const ApiError: string := "Error: API returned an error. Please check your API key."
  const ParseError: string := "Error: Could not parse response"

  // ---------------------------------------------------------------------------
  // callOpenAI
  // ---------------------------------------------------------------------------

  /** A reply was received and holds the marker: the only case that updates the history. */
  predicate ChatAnswered(has_key: bool, outcome: Transport)
  {
    has_key && outcome.Received? && Behind(outcome.body, ContentMarker).Some?
  }

  /** What `callOpenAI` makes of a response body (lines 140-175). */
  function BodyReply(body: string): string
  {
    match Behind(body, ContentMarker)
    case None => if Contains(body, "error") then ApiError else ParseError
    case Some(t) => Fields.OpenAiReply(t)
  }

  /** What `callOpenAI` returns. */
  function ChatReply(has_key: bool, outcome: Transport): string
  {
    if !has_key then KeyMissingError
    else match outcome
      case InitFailed => CurlInitError
      case RequestFailed(reason) => NetworkErrorPrefix + reason
      case Received(body) => BodyReply(body)
  }

  /** The request `callOpenAI` sends: the verbatim messages array built from the history. */
  function ChatEvents(has_key: bool, h: seq<Turn>, user_message: string, outcome: Transport): seq<Event>
  {
    if !has_key || outcome.InitFailed? then []
    else [Post(Chat, Messages.ArrayText(Messages.OpenAiMessages(h, user_message)))]
  }

  /** The history after `callOpenAI`. */
  function ChatHistory(has_key: bool, h: seq<Turn>, user_message: string, outcome: Transport): seq<Turn>
  {
    if ChatAnswered(has_key, outcome) then Push(h, Turn(user_message, ChatReply(has_key, outcome)), MaxHistory)
    else h
  }

  method CallOpenAI(robot: Robot, history: ConversationHistory, has_key: bool, user_message: string,
                    outcome: Transport)
    returns (content: string)
    requires history.Valid() && history.capacity == MaxHistory
    modifies robot, history
    ensures history.Valid()
    ensures content == ChatReply(has_key, outcome)
    ensures history.turns == ChatHistory(has_key, old(history.turns), user_message, outcome)
    ensures robot.log == old(robot.log) + ChatEvents(has_key, old(history.turns), user_message, outcome)
  {
    if !has_key {
      return KeyMissingError;
    }
    if outcome.InitFailed? {
      return CurlInitError;
    }
    var messages_json := Messages.BuildOpenAiMessages(history.turns, user_message);
    robot.Send(Chat, messages_json);
    if outcome.RequestFailed? {
      return NetworkErrorPrefix + outcome.reason;
    }
    var found;
    content, found := ParseResponse(outcome.body);
    if found {
      history.Record(user_message, content);
    }
  }

  /** Lines 140-175: the content behind the marker, or the error text for a body without
      it; `found` tells which. */
  method ParseResponse(response_string: string) returns (content: string, found: bool)
    ensures content == BodyReply(response_string)
    ensures found == Behind(response_string, ContentMarker).Some?
  {
    var content_pos := Find(response_string, ContentMarker);
    if content_pos.None? {
      if Find(response_string, "error").Some? {
        return ApiError, false;
      }
      return ParseError, false;
    }
    var start := content_pos.value + |ContentMarker|;
    content := Fields.ReadOpenAiReply(response_string, start);
    found := true;
  }

  // ---------------------------------------------------------------------------
  // detectLanguage and the wait time
  // ---------------------------------------------------------------------------

  /** Some byte of `text` is above 127. */
  predicate HasHighByte(text: string)
  {
    exists i :: 0 <= i < |text| && text[i] as int > 127
  }

  /** The `TtsMaker` speaker for `text`: 0 (Chinese) when some byte is not ASCII,
      1 (English) otherwise. */
  function LanguageOf(text: string): int
  {
    if HasHighByte(text) then 0 else 1
  }

  /** The scan of lines 211-216, returning at the first byte above 127. */
  method DetectLanguage(text: string) returns (language: int)
    ensures language == 0 <==> exists i :: 0 <= i < |text| && text[i] as int > 127
    ensures language == 0 || language == 1
  {
    for i := 0 to |text|
      invariant forall j :: 0 <= j < i ==> text[j] as int <= 127
    {
      if text[i] as int > 127 {
        return 0;
      }
    }
    return 1;
  }

  /** `std::max(3, length / 10)` of line 262: seconds to wait for the speech to end. */
  function WaitTime(length: nat): (w: nat)
    ensures w >= 3 && w >= length / 10
    ensures w == 3 || w == length / 10
  {
    if 3 < length / 10 then length / 10 else 3
  }

  // ---------------------------------------------------------------------------
  // One message of conversation_thread
  // ---------------------------------------------------------------------------

  /** Speaking the reply: green, `TtsMaker`, the wait, blue. */
  function SpeechEvents(reply: string): seq<Event>
  {
    [Speaking, TtsMaker(reply, LanguageOf(reply)), Sleep(WaitTime(|reply|)), Listening]
  }

  /** Everything sent while one message is handled (lines 238-266). */
  function ProcessEvents(has_key: bool, h: seq<Turn>, user_message: string, outcome: Transport): seq<Event>
  {
    [Processing] + ChatEvents(has_key, h, user_message, outcome) + SpeechEvents(ChatReply(has_key, outcome))
  }

  lemma Assemble<T>(a: seq<T>, p: T, c: seq<T>, s: T, t: T, w: T, l: T)
    ensures a + [p] + c + [s] + [t] + [w] + [l] == a + ([p] + c + [s, t, w, l])
  {
    assert a + [p] + c + [s] + [t] + [w] + [l] == a + [p] + c + [s, t, w, l];
    ConcatAssoc(a + [p], c, [s, t, w, l]);
    ConcatAssoc(a, [p], c + [s, t, w, l]);
    ConcatAssoc([p], c, [s, t, w, l]);
  }

  method ProcessMessage(robot: Robot, history: ConversationHistory, has_key: bool, user_message: string,
                        outcome: Transport)
    requires history.Valid() && history.capacity == MaxHistory
    modifies robot, history
    ensures history.Valid()
    ensures history.turns == ChatHistory(has_key, old(history.turns), user_message, outcome)
    ensures robot.log == old(robot.log) + ProcessEvents(has_key, old(history.turns), user_message, outcome)
  {
    ghost var log0, h0 := robot.log, history.turns;
    robot.Led(255, 165, 0);
    var ai_response := CallOpenAI(robot, history, has_key, user_message, outcome);
    ghost var c := ChatEvents(has_key, h0, user_message, outcome);
    var language := DetectLanguage(ai_response);
    assert language == LanguageOf(ai_response);
    robot.Led(0, 255, 0);
    robot.Speak(ai_response, language);
    var wait_time := WaitTime(|ai_response|);
    robot.Pause(wait_time);
    robot.Led(0, 0, 255);
    assert robot.log == log0 + [Processing] + c + [Speaking] + [TtsMaker(ai_response, language)]
      + [Sleep(wait_time)] + [Listening];
    Assemble(log0, Processing, c, Speaking, TtsMaker(ai_response, language), Sleep(wait_time), Listening);
  }

  // ---------------------------------------------------------------------------
  // The message queue
  // ---------------------------------------------------------------------------

  /** No queued message is empty. */
  predicate NoEmpty(q: seq<string>)
  {
    forall i :: 0 <= i < |q| ==> q[i] != ""
  }

  /** `g_message_queue`, a `std::queue<std::string>`, oldest first. */
  class MessageQueue {
    var items: seq<string>

    ghost predicate Valid()
      reads this
    {
      NoEmpty(items)
    }

    constructor ()
      ensures Valid() && items == []
    {
      items := [];
    }

    /** `push`: at the tail. */
    method Push(text: string)
      modifies this
      ensures items == old(items) + [text]
    {
      items := items + [text];
    }

    /** Lines 232-237: `front` and `pop` when the queue is not empty, else nothing and
        the empty string. */
    method TakeMessage() returns (user_message: string)
      modifies this
      ensures old(items) == [] ==> user_message == "" && items == []
      ensures old(items) != [] ==> user_message == old(items)[0] && items == old(items)[1..]
    {
      user_message := "";
      if items != [] {
        user_message := items[0];
        items := items[1..];
      }
    }
  }

  /** The queue after the ASR callback heard `text`. */
  function Enqueue(q: seq<string>, text: string): seq<string>
  {
    if text == "" then q else q + [text]
  }

  /** `asr_handler`: an empty text is dropped, anything else goes to the tail. */
  method AsrHandler(queue: MessageQueue, user_text: string)
    requires queue.Valid()
    modifies queue
    ensures queue.Valid()
    ensures queue.items == Enqueue(old(queue.items), user_text)
  {
    if user_text == "" {
      return;
    }
    queue.Push(user_text);
  }

  // ---------------------------------------------------------------------------
  // conversation_thread
  // ---------------------------------------------------------------------------

  /** What happens between two observations: the ASR callback runs with a heard text, or
      the conversation thread goes once round its loop, using `outcome` if it calls the
      chat service. Both take `g_mutex` for the queue, so they happen one after another. */
  datatype Step = Deliver(text: string) | Poll(outcome: Transport)

  datatype State = State(queue: seq<string>, turns: seq<Turn>)

  /** The message a poll takes: the head, or the empty string. */
  function Head(q: seq<string>): string
  {
    if q == [] then "" else q[0]
  }

  function StepState(has_key: bool, s: State, step: Step): State
  {
    match step
    case Deliver(text) => State(Enqueue(s.queue, text), s.turns)
    case Poll(outcome) =>
      var m := Head(s.queue);
      State(if s.queue == [] then [] else s.queue[1..],
            if m == "" then s.turns else ChatHistory(has_key, s.turns, m, outcome))
  }

  function StepEvents(has_key: bool, s: State, step: Step): seq<Event>
  {
    match step
    case Deliver(_) => []
    case Poll(outcome) =>
      var m := Head(s.queue);
      if m == "" then [] else ProcessEvents(has_key, s.turns, m, outcome)
  }

  /** The queue and history after the steps. */
  function Run(has_key: bool, s: State, steps: seq<Step>): State
    decreases |steps|
  {
    if |steps| == 0 then s
    else StepState(has_key, Run(has_key, s, steps[..|steps| - 1]), steps[|steps| - 1])
  }

  /** Everything sent to the robot and to the chat service during the steps. */
  function RunEvents(has_key: bool, s: State, steps: seq<Step>): seq<Event>
    decreases |steps|
  {
    if |steps| == 0 then []
    else
      var init := steps[..|steps| - 1];
      RunEvents(has_key, s, init) + StepEvents(has_key, Run(has_key, s, init), steps[|steps| - 1])
  }

  /** The loop of lines 226-271 together with the ASR callbacks between its rounds; it
      ends when `g_running` is cleared, after the last step. */
  method ConversationThread(robot: Robot, history: ConversationHistory, queue: MessageQueue, has_key: bool,
                            steps: seq<Step>)
    requires history.Valid() && history.capacity == MaxHistory && queue.Valid()
    modifies robot, history, queue
    ensures history.Valid() && queue.Valid()
    ensures State(queue.items, history.turns)
      == Run(has_key, State(old(queue.items), old(history.turns)), steps)
    ensures robot.log
      == old(robot.log) + RunEvents(has_key, State(old(queue.items), old(history.turns)), steps)
  {
    ghost var s0 := State(queue.items, history.turns);
    ghost var log0 := robot.log;
    assert steps[..0] == [];
    for k := 0 to |steps|
      invariant history.Valid() && history.capacity == MaxHistory && queue.Valid()
      invariant State(queue.items, history.turns) == Run(has_key, s0, steps[..k])
      invariant robot.log == log0 + RunEvents(has_key, s0, steps[..k])
    {
      ghost var s, r := State(queue.items, history.turns), RunEvents(has_key, s0, steps[..k]);
      assert steps[..k + 1][..k] == steps[..k];
      if steps[k].Deliver? {
        AsrHandler(queue, steps[k].text);
      } else {
        var user_message := queue.TakeMessage();
        if user_message != "" {
          ProcessMessage(robot, history, has_key, user_message, steps[k].outcome);
        }
      }
      ConcatAssoc(log0, r, StepEvents(has_key, s, steps[k]));
    }
    assert steps[..|steps|] == steps;
  }

  // ---------------------------------------------------------------------------
  // Properties of callOpenAI
  // ---------------------------------------------------------------------------

  /** Without a usable reply `callOpenAI` answers with an error text of its own and leaves
      the history as it was; it sends no request at all when the key is missing or CURL
      could not be set up. */
  lemma ChatFailureReplies(has_key: bool, h: seq<Turn>, user_message: string, outcome: Transport)
    requires !ChatAnswered(has_key, outcome)
    ensures ChatHistory(has_key, h, user_message, outcome) == h
    ensures ChatReply(has_key, outcome) ==
      if !has_key then KeyMissingError
      else if outcome.InitFailed? then CurlInitError
      else if outcome.RequestFailed? then NetworkErrorPrefix + outcome.reason
      else if Contains(outcome.body, "error") then ApiError
      else ParseError
    ensures ChatEvents(has_key, h, user_message, outcome) == [] <==> !has_key || outcome.InitFailed?
  {
  }

  /** A reply updates the history with the user's text and the reply, keeping the last
      `MAX_HISTORY` turns. */
  lemma ChatHistoryUpdate(ts: seq<Turn>, has_key: bool, user_message: string, outcome: Transport)
    requires ChatAnswered(has_key, outcome)
    ensures ChatHistory(has_key, Window(ts, MaxHistory), user_message, outcome)
      == Window(ts + [Turn(user_message, ChatReply(has_key, outcome))], MaxHistory)
    ensures |ChatHistory(has_key, Window(ts, MaxHistory), user_message, outcome)| <= MaxHistory
  {
    PushWindow(ts, Turn(user_message, ChatReply(has_key, outcome)), MaxHistory);
  }

  /** A reply whose content the service wrote escaping only `"`, `\` and newline is read
      back as the text, with each newline turned into a space. */
  lemma ChatReadsEscapedReply(body: string, s: string, rest: string)
    requires Behind(body, ContentMarker) == Some(JsonEscape.Escape(s, JsonEscape.Message) + "\"" + rest)
    ensures ChatAnswered(true, Received(body))
    ensures ChatReply(true, Received(body)) == JsonEscape.SpaceNewlines(s)
  {
    Fields.OpenAiReplyOfEscaped(s, rest);
  }

  // ---------------------------------------------------------------------------
  // Properties of detectLanguage
  // ---------------------------------------------------------------------------

  lemma HighByteAppend(a: string, b: string)
    ensures HasHighByte(a + b) <==> HasHighByte(a) || HasHighByte(b)
  {
    if HasHighByte(a + b) {
      var i :| 0 <= i < |a + b| && (a + b)[i] as int > 127;
      if i < |a| {
        assert a[i] == (a + b)[i];
      } else {
        assert b[i - |a|] == (a + b)[i];
      }
    }
    if HasHighByte(a) {
      var i :| 0 <= i < |a| && a[i] as int > 127;
      assert (a + b)[i] == a[i];
    }
    if HasHighByte(b) {
      var i :| 0 <= i < |b| && b[i] as int > 127;
      assert (a + b)[|a| + i] == b[i];
    }
  }

  /** The UTF-8 form of a code point has a byte above 127 exactly when it is not ASCII. */
  lemma HighByteOfCodepoint(cp: nat)
    requires cp < 0x10000
    ensures HasHighByte(Utf8.EncodeCodepoint(cp)) <==> cp >= 0x80
  {
    if cp >= 0x80 {
      assert Utf8.EncodeCodepoint(cp)[0] as int > 127;
    }
  }

  /** A text sent as UTF-8 is spoken with the Chinese voice exactly when some character of
      it is not ASCII, whichever script that character belongs to. */
  lemma {:induction false} EncodedLanguage(t: string)
    requires Utf8.IsBmp(t)
    ensures LanguageOf(Utf8.EncodeText(t)) == 0 <==> exists i :: 0 <= i < |t| && t[i] as int >= 0x80
    decreases |t|
  {
    if |t| > 0 {
      var rest := t[1..];
      EncodedLanguage(rest);
      HighByteAppend(Utf8.EncodeCodepoint(t[0] as int), Utf8.EncodeText(rest));
      HighByteOfCodepoint(t[0] as int);
      if exists i :: 0 <= i < |t| && t[i] as int >= 0x80 {
        var i :| 0 <= i < |t| && t[i] as int >= 0x80;
        if i > 0 {
          assert rest[i - 1] == t[i];
        }
      }
      if exists i :: 0 <= i < |rest| && rest[i] as int >= 0x80 {
        var i :| 0 <= i < |rest| && rest[i] as int >= 0x80;
        assert t[i + 1] == rest[i];
      }
    }
  }

  // ---------------------------------------------------------------------------
  // Properties of one message
  // ---------------------------------------------------------------------------

  /** While a message is handled the LED goes orange, green, blue, in that order and once
      each; the reply is spoken between green and the wait of at least three seconds,
      with the voice `detectLanguage` picks for it, and blue comes last. */
  lemma ProcessShape(has_key: bool, h: seq<Turn>, user_message: string, outcome: Transport)
    ensures var e, reply := ProcessEvents(has_key, h, user_message, outcome), ChatReply(has_key, outcome);
      Leds(e) == [Processing, Speaking, Listening] &&
      e[0] == Processing &&
      e[|e| - 4] == Speaking &&
      e[|e| - 3] == TtsMaker(reply, LanguageOf(reply)) &&
      e[|e| - 2].Sleep? && e[|e| - 2].seconds >= 3 &&
      e[|e| - 1] == Listening
  {
    var c := ChatEvents(has_key, h, user_message, outcome);
    var reply := ChatReply(has_key, outcome);
    var sp := SpeechEvents(reply);
    LedsAppend([Processing] + c, sp);
    LedsAppend([Processing], c);
    assert Leds(c) == [] by {
      if |c| > 0 {
        assert c[1..] == [];
      }
    }
    assert [Processing][1..] == [];
    SpeechLeds(reply);
  }

  lemma SpeechLeds(reply: string)
    ensures Leds(SpeechEvents(reply)) == [Speaking, Listening]
  {
    var t, w := TtsMaker(reply, LanguageOf(reply)), Sleep(WaitTime(|reply|));
    assert Leds([Listening]) == [Listening] by {
      assert [Listening][1..] == [];
    }
    assert Leds([w, Listening]) == [Listening] by {
      assert [w, Listening][1..] == [Listening];
    }
    assert Leds([t, w, Listening]) == [Listening] by {
      assert [t, w, Listening][1..] == [w, Listening];
    }
    assert [Speaking, t, w, Listening][1..] == [t, w, Listening];
  }

  // ---------------------------------------------------------------------------
  // Properties of the queue and the thread
  // ---------------------------------------------------------------------------

  /** The non-empty texts the ASR callback heard, in order. */
  function Heard(steps: seq<Step>): seq<string>
    decreases |steps|
  {
    if |steps| == 0 then []
    else
      var last := steps[|steps| - 1];
      Heard(steps[..|steps| - 1]) + (if last.Deliver? && last.text != "" then [last.text] else [])
  }

  /** The messages the thread took from the queue and handled, in order. */
  function Handled(has_key: bool, s: State, steps: seq<Step>): seq<string>
    decreases |steps|
  {
    if |steps| == 0 then []
    else
      var init, last := steps[..|steps| - 1], steps[|steps| - 1];
      var m := Head(Run(has_key, s, init).queue);
      Handled(has_key, s, init) + (if last.Poll? && m != "" then [m] else [])
  }

  /** The turns recorded in the history, in order: one per handled message whose chat call
      was answered. */
  function Answers(has_key: bool, s: State, steps: seq<Step>): seq<Turn>
    decreases |steps|
  {
    if |steps| == 0 then []
    else
      var init, last := steps[..|steps| - 1], steps[|steps| - 1];
      var m := Head(Run(has_key, s, init).queue);
      Answers(has_key, s, init)
        + (if last.Poll? && m != "" && ChatAnswered(has_key, last.outcome)
           then [Turn(m, ChatReply(has_key, last.outcome))] else [])
  }

  /** The queue never holds an empty message, and it is first in, first out: what was
      handled, followed by what is still queued, is what was queued at the start followed
      by every non-empty text heard since, in the order heard. */
  lemma {:induction false} QueueFifo(has_key: bool, s: State, steps: seq<Step>)
    requires NoEmpty(s.queue)
    ensures NoEmpty(Run(has_key, s, steps).queue)
    ensures Handled(has_key, s, steps) + Run(has_key, s, steps).queue == s.queue + Heard(steps)
    decreases |steps|
  {
    if |steps| > 0 {
      var init, last := steps[..|steps| - 1], steps[|steps| - 1];
      QueueFifo(has_key, s, init);
      var r := Run(has_key, s, init);
      var q := r.queue;
      var done := Handled(has_key, s, init);
      assert steps[..|steps| - 1] == init;
      assert Run(has_key, s, steps) == StepState(has_key, r, last);
      assert Handled(has_key, s, steps) == done + (if last.Poll? && Head(q) != "" then [Head(q)] else []);
      assert Heard(steps) == Heard(init) + (if last.Deliver? && last.text != "" then [last.text] else []);
      if last.Deliver? {
        if last.text != "" {
          ConcatAssoc(done, q, [last.text]);
          ConcatAssoc(s.queue, Heard(init), [last.text]);
        } else {
          assert Heard(init) + [] == Heard(init) && done + [] == done;
        }
      } else {
        assert Heard(steps) == Heard(init) + [];
        if q == [] {
          assert Handled(has_key, s, steps) == done + [];
        } else {
          assert q == [q[0]] + q[1..];
          ConcatAssoc(done, [q[0]], q[1..]);
        }
      }
    }
  }

  /** The history after the steps is the last `MAX_HISTORY` of all turns recorded, those
      before the steps included. */
  lemma {:induction false} HistoryIsWindow(has_key: bool, s: State, steps: seq<Step>, earlier: seq<Turn>)
    requires s.turns == Window(earlier, MaxHistory)
    ensures Run(has_key, s, steps).turns == Window(earlier + Answers(has_key, s, steps), MaxHistory)
    ensures |Run(has_key, s, steps).turns| <= MaxHistory
    decreases |steps|
  {
    if |steps| == 0 {
      assert earlier + [] == earlier;
    } else {
      var init, last := steps[..|steps| - 1], steps[|steps| - 1];
      HistoryIsWindow(has_key, s, init, earlier);
      var r := Run(has_key, s, init);
      var a := Answers(has_key, s, init);
      var m := Head(r.queue);
      assert Run(has_key, s, steps) == StepState(has_key, r, last);
      if last.Poll? && m != "" && ChatAnswered(has_key, last.outcome) {
        var t := Turn(m, ChatReply(has_key, last.outcome));
        assert StepState(has_key, r, last).turns == Push(r.turns, t, MaxHistory);
        PushWindow(earlier + a, t, MaxHistory);
        assert Answers(has_key, s, steps) == a + [t];
        ConcatAssoc(earlier, a, [t]);
      } else {
        assert StepState(has_key, r, last).turns == r.turns;
        assert Answers(has_key, s, steps) == a + [];
        assert earlier + (a + []) == earlier + a;
      }
    }
  }

  /** `n` rounds of orange, green, blue. */
  function LedCycles(n: nat): seq<Event>
  {
    if n == 0 then [] else LedCycles(n - 1) + [Processing, Speaking, Listening]
  }

  /** Over any run the LED goes through orange, green, blue once per handled message and
      is not touched otherwise. */
  lemma {:induction false} LedPattern(has_key: bool, s: State, steps: seq<Step>)
    ensures Leds(RunEvents(has_key, s, steps)) == LedCycles(|Handled(has_key, s, steps)|)
    decreases |steps|
  {
    if |steps| > 0 {
      var init, last := steps[..|steps| - 1], steps[|steps| - 1];
      LedPattern(has_key, s, init);
      var r := Run(has_key, s, init);
      var e := StepEvents(has_key, r, last);
      LedsAppend(RunEvents(has_key, s, init), e);
      var m := Head(r.queue);
      if last.Poll? && m != "" {
        ProcessShape(has_key, r.turns, m, last.outcome);
      } else {
        assert Handled(has_key, s, steps) == Handled(has_key, s, init) + [];
      }
    }
  }
}
