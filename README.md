# Voice conversation examples of the Unitree G1 audio SDK, in Dafny

Two example programs let a Unitree G1 humanoid hold a spoken conversation.

- **The Burmese example** (`g1_audio_burmese_example.cpp`) is one synchronous loop. Each turn it:
  1. records five seconds of microphone audio from a UDP multicast group;
  2. sends the audio, base64-encoded, to a speech-to-text service;
  3. sends the transcript, with the last five exchanges, to a chat service;
  4. sends the reply to a text-to-speech service;
  5. streams the synthesized audio to the robot's speaker in 96000-byte chunks.

  The chest LED shows the state: blue while listening, orange while processing, green while speaking.
- **The OpenAI example** (`g1_audio_openai_example.cpp`) is event driven.
  - The robot's own speech recognizer delivers texts to a callback, which queues them.
  - A conversation thread takes one message at a time.
  - With the last ten exchanges, it asks the chat service.
  - It speaks the reply with the robot's built-in `TtsMaker`, in a voice chosen by a byte heuristic.

The model covers the text and byte processing of both programs:
- the base64 codec;
- the three JSON string escapers;
- the hand-written readers that pull a field out of a service reply, including `\uXXXX` to UTF-8;
- the bounded history;
- the message array of the chat request;
- the playback chunker;
- microphone accumulation;
- the turn loops and their LED gating;
- the message queue with its producer and consumer;
- `detectLanguage`;
- the wait-time formula.

The world outside the process is modelled in two ways:
- **As inputs:**
  - each service call's outcome: `curl_easy_init` failed, `curl_easy_perform` failed, or a body arrived;
  - the datagrams `recvfrom` delivers;
  - the clock-made stream id;
  - the availability of the API key;
  - the point at which the shutdown flag is cleared.
- **As a trace:** every robot command and every service request is appended to one event log (`Effects.Robot.log`).

Each C++ loop is a Dafny method with loop invariants, proved equal to a specification function. The properties are lemmas about those functions.

Modules, one per concern:

| module | file | contents |
|---|---|---|
| `Common` | common.dfy | byte strings, `std::string::find` |
| `Base64` | base64.dfy | `base64_encode`, `base64_decode` over the scratch arrays `char_array_3`/`char_array_4` |
| `Utf8` | utf8.dfy | `\uXXXX` to one to three UTF-8 bytes |
| `JsonEscape` | escape.dfy | the message, speech and quote-only escapers |
| `Json` | json.dfy | a reference JSON string reader and writer, after section 7 of RFC 8259; the reader rejects raw control characters |
| `Fields` | fields.dfy | the transcript reader, both reply readers, the audio field |
| `History` | history.dfy | `g_conversation_history` with `push_back` and `erase(begin())` |
| `Messages` | messages.dfy | the `messages` array of both chat requests |
| `Effects` | effects.dfy | the event trace and the `Robot` object |
| `Capture` | capture.dfy | `recordAudioFromRobot` and `get_local_ip_for_multicast` |
| `Playback` | playback.dfy | `playAudioOnRobot` |
| `BurmeseAssistant` | burmese.dfy | `googleSTT`, `callOpenAI`, `googleTTS`, `conversationLoop` |
| `OpenAiAssistant` | openai.dfy | `callOpenAI`, `asr_handler`, `detectLanguage`, `conversation_thread` and the queue |

## What the proofs show about the code as written

These follow from the source as it stands. The model keeps the behaviour, and a lemma exhibits each one.

- **The Burmese reply reader misreads escaped backslashes** (`Fields.ReplyMisreadsBackslash`).
  - The guard `s[i-1] != '\\'` never decides anything. A quote is only ever seen after a character that is not a copied backslash.
  - An escaped backslash `\\` copies one `\` and then scans the second one again as the start of an escape.
  - So a reply holding `\n` as literal text reaches the speech service as a backslash and a space.
  - For replies without backslashes the reader is exact (`Fields.ReplyOfWritten`).
- **The quote-only escaping of history entries leaves backslashes alone** (`Json.QuotedTrailingBackslash`).
  - An entry that ends in `\` escapes the closing quote of its JSON string.
  - Any other backslash in an entry is read by the service as the start of an escape.
- **The Burmese escapes leave control characters other than newline raw** (`Json.TabBreaksMessage`, `Fields.TranscriptKeepsTab`).
  - The message escape handles only `"`, `\` and newline, so a tab or carriage return stays raw. A transcript holding `\u0009` gives such a tab.
  - Section 7 of RFC 8259 does not allow raw control characters, so a strict reader rejects the whole request (`Json.ReadEscapedMessage`).
  - Quote-only escaping of history entries leaves raw newlines too (`Json.ReadQuotedEntry`).
- **The OpenAI example embeds history and the new message verbatim** (`Messages.VerbatimQuoteCutsMessage`). A quote the user spoke ends the JSON string early.
- **The OpenAI reply reader keeps `\uXXXX` escapes as six characters** (`Fields.OpenAiReplyKeepsUnicodeEscape`), unlike the Burmese readers.
- **The Burmese `googleSTT` returns its error texts as if they were transcripts.** "Error: CURL init failed" and "Error: STT request failed" are non-empty, so the loop sends them to the chat service as the user's words (`BurmeseAssistant.SttErrorReachesChat`).
- **The Burmese example's chat errors are never recorded.** A failed chat call returns an apology that is spoken but not stored. The OpenAI example likewise speaks its English error texts without recording them.

## Model

| member | source | states |
|---|---|---|
| Base64.Encode | unitree_sdk2/example/g1/audio/g1_audio_burmese_example.cpp:105-141 | returns exactly `EncodeSpec(data)`: the scratch-array loop of groups of three bytes and the padded last group agree with the reference encoder |
| Base64.EmitGroup | unitree_sdk2/example/g1/audio/g1_audio_burmese_example.cpp:114-121 | appends the four alphabet symbols of the full group held in `char_array_3` |
| Base64.EmitLastGroup | unitree_sdk2/example/g1/audio/g1_audio_burmese_example.cpp:125-138 | appends the `i + 1` symbols of the zero-filled partial group and `3 - i` `=` signs |
| Base64.HoldByte | unitree_sdk2/example/g1/audio/g1_audio_burmese_example.cpp:111-122 | stores byte `k` in `char_array_3`; a third byte emits the group's four symbols and resets the index, so the symbols so far are those of every full group read |
| Base64.EmitSymbols | unitree_sdk2/example/g1/audio/g1_audio_burmese_example.cpp:119-120 | appends the alphabet symbols of the first `count` entries of `char_array_4`, in order |
| Base64.ZeroFill | unitree_sdk2/example/g1/audio/g1_audio_burmese_example.cpp:126-127 | the entries of `char_array_3` from `i` on become zero, those before it are kept |
| Base64.EncodeShape | unitree_sdk2/example/g1/audio/g1_audio_burmese_example.cpp:105-141 | the encoding of n bytes has 4*ceil(n/3) characters; all but the last (3 - n mod 3) mod 3 are alphabet symbols and those are `=` |
| Base64.EncodeLength | unitree_sdk2/example/g1/audio/g1_audio_burmese_example.cpp:105-141 | the encoding of n bytes has 4*ceil(n/3) characters |
| Base64.AlphabetIsTable | unitree_sdk2/example/g1/audio/g1_audio_burmese_example.cpp:100-103 | the alphabet is the 26 upper-case letters, the 26 lower-case letters, the ten digits, `+` and `/` |
| Base64.ValueOf | unitree_sdk2/example/g1/audio/g1_audio_burmese_example.cpp:150-151 | `base64_chars.find(c)`: the position of `c` in the alphabet, `None` exactly when `c` is not in it |
| Base64.FindSymbol | unitree_sdk2/example/g1/audio/g1_audio_burmese_example.cpp:150 | finding the symbol of value v gives v back |
| Base64.PadNotSymbol | unitree_sdk2/example/g1/audio/g1_audio_burmese_example.cpp:149 | `=` is not an alphabet symbol |
| Base64.QuoteNotSymbol | unitree_sdk2/example/g1/audio/g1_audio_burmese_example.cpp:543 | `"` is not an alphabet symbol, so the audio field can not be cut inside base64 text |
| Base64.Decode | unitree_sdk2/example/g1/audio/g1_audio_burmese_example.cpp:143-177 | returns exactly `DecodeSpec(encoded)`: the loop that skips foreign characters and stops at `=` agrees with the reference decoder |
| Base64.HoldSextet | unitree_sdk2/example/g1/audio/g1_audio_burmese_example.cpp:150-162 | stores the sextet in `char_array_4`; a fourth emits the group's three bytes and resets the index, so the output is the decoding of every complete group held so far |
| Base64.EmitTriple | unitree_sdk2/example/g1/audio/g1_audio_burmese_example.cpp:155-161 | appends the three bytes of a full group of four sextets |
| Base64.EmitLastBytes | unitree_sdk2/example/g1/audio/g1_audio_burmese_example.cpp:165-174 | appends the `i - 1` bytes of a partial group of `i` sextets |
| Base64.RoundTrip | unitree_sdk2/example/g1/audio/g1_audio_burmese_example.cpp:105-177 | decoding the encoding of any byte sequence gives it back, whatever its length mod 3, the empty one included |
| Base64.DecodeLength | unitree_sdk2/example/g1/audio/g1_audio_burmese_example.cpp:148-174 | with k alphabet symbols before the first `=`, the output has 3*(k/4) + max(0, k mod 4 - 1) bytes |
| Base64.IgnoresForeign | unitree_sdk2/example/g1/audio/g1_audio_burmese_example.cpp:151 | a character that is neither a symbol nor `=` can be deleted without changing the output |
| Base64.StopsAtPad | unitree_sdk2/example/g1/audio/g1_audio_burmese_example.cpp:149 | everything after the first `=` is ignored |
| Base64.DecodeSextetsLength | unitree_sdk2/example/g1/audio/g1_audio_burmese_example.cpp:159-173 | four sextets give three bytes and a tail of t sextets gives t - 1 |
| Base64.SextetsLength | unitree_sdk2/example/g1/audio/g1_audio_burmese_example.cpp:111-134 | n bytes give 4*(n/3) sextets plus n mod 3 + 1 for a partial group |
| Base64.DecodeEncodeSextets | unitree_sdk2/example/g1/audio/g1_audio_burmese_example.cpp:114-173 | the decoder's regrouping of sextets undoes the encoder's |
| Base64.TailSextets | unitree_sdk2/example/g1/audio/g1_audio_burmese_example.cpp:129-134 | a partial group of t bytes gives t + 1 sextets |
| Base64.DecodeTail | unitree_sdk2/example/g1/audio/g1_audio_burmese_example.cpp:169-173 | a partial group of t sextets gives t - 1 bytes |
| Utf8.EncodeCodepoint | unitree_sdk2/example/g1/audio/g1_audio_burmese_example.cpp:336-345 | the one, two or three bytes written for a code point are all byte values |
| Utf8.DecodeEncode | unitree_sdk2/example/g1/audio/g1_audio_burmese_example.cpp:336-345 | the bytes written for a code point below 0x10000 are a well-formed UTF-8 sequence of section 3 of RFC 3629 for that code point |
| Utf8.EncodeLength | unitree_sdk2/example/g1/audio/g1_audio_burmese_example.cpp:336-345 | one byte exactly below 0x80, two exactly below 0x800, three above |
| Utf8.EncodeInjective | unitree_sdk2/example/g1/audio/g1_audio_burmese_example.cpp:336-345 | different code points are written as different bytes |
| Utf8.HexValue | unitree_sdk2/example/g1/audio/g1_audio_burmese_example.cpp:333-334 | `stoul` of four hex digits is below 0x10000 |
| Utf8.Hex4 | unitree_sdk2/example/g1/audio/g1_audio_burmese_example.cpp:333-334 | the four hex digits of a code point read back as that code point |
| Utf8.EncodeAscii | unitree_sdk2/example/g1/audio/g1_audio_burmese_example.cpp:336-337 | ASCII text is written as itself |
| Utf8.EncodeTextAppend | unitree_sdk2/example/g1/audio/g1_audio_burmese_example.cpp:336-345 | the written form of a concatenation is the concatenation of the written forms |
| Utf8.AccentExample | unitree_sdk2/example/g1/audio/g1_audio_burmese_example.cpp:338-340 | `é` is written as C3 A9 |
| Utf8.MyanmarExample | unitree_sdk2/example/g1/audio/g1_audio_burmese_example.cpp:341-344 | `က` is written as E1 80 80 |
| JsonEscape.EscapeMessage | unitree_sdk2/example/g1/audio/g1_audio_burmese_example.cpp:370-376 | the loop's output is `Escape(user_message, Message)` |
| JsonEscape.EscapeSpeech | unitree_sdk2/example/g1/audio/g1_audio_burmese_example.cpp:487-493 | the loop's output is `Escape(text, Speech)` |
| JsonEscape.QuoteHistoryEntry | unitree_sdk2/example/g1/audio/g1_audio_burmese_example.cpp:387-392 | the insert-and-skip loop over the growing string gives `Escape(entry, QuotesOnly)`: one backslash before each quote, nothing else changed |
| JsonEscape.EscapeAppend | unitree_sdk2/example/g1/audio/g1_audio_burmese_example.cpp:371 | escaping is done character by character: the escape of a concatenation is the concatenation of the escapes |
| JsonEscape.EscapePlain | unitree_sdk2/example/g1/audio/g1_audio_burmese_example.cpp:371-376 | text without `"`, `\` or newline passes through unchanged |
| JsonEscape.QuotesOnlyWithoutQuotes | unitree_sdk2/example/g1/audio/g1_audio_burmese_example.cpp:387-392 | a history entry without quotes is sent as it is |
| JsonEscape.SpeechIsSpacedMessage | unitree_sdk2/example/g1/audio/g1_audio_burmese_example.cpp:487-493 | the speech escape is the message escape applied after newlines became spaces |
| JsonEscape.NoRawNewline | unitree_sdk2/example/g1/audio/g1_audio_burmese_example.cpp:374 | the message and speech escapes never leave a raw newline |
| Json.ReadEscapedMessage | unitree_sdk2/example/g1/audio/g1_audio_burmese_example.cpp:370-376 | a JSON reader of section 7 of RFC 8259 gets the user message back exactly when it holds no control character other than newline; a raw tab, carriage return or other control character makes the string unreadable |
| Json.ReadEscapedSpeech | unitree_sdk2/example/g1/audio/g1_audio_burmese_example.cpp:487-493 | a JSON reader gets the speech text back with newlines turned into spaces when it holds no other control character, and rejects it otherwise |
| Json.ReadQuotedEntry | unitree_sdk2/example/g1/audio/g1_audio_burmese_example.cpp:387-392 | for a history entry without backslashes, a JSON reader gets it back exactly when it holds no control character; a raw newline, tab or other control character makes it unreadable |
| Json.QuotedTrailingBackslash | unitree_sdk2/example/g1/audio/g1_audio_burmese_example.cpp:387-392 | an entry ending in a backslash leaves its closing quote escaped: the JSON string does not end there |
| Json.TabBreaksMessage | unitree_sdk2/example/g1/audio/g1_audio_burmese_example.cpp:370-376 | the message escape copies a tab raw, so `a<TAB>b` gives a JSON string the RFC 8259 reader rejects |
| Fields.ReadTranscript | unitree_sdk2/example/g1/audio/g1_audio_burmese_example.cpp:326-356 | the copy loop returns `Transcript` of the text behind the marker |
| Fields.TranscriptStep | unitree_sdk2/example/g1/audio/g1_audio_burmese_example.cpp:328-353 | one pass of the copy loop: the piece it appends and the index it moves to, with the text behind it read on the same terms |
| Fields.TranscriptOfWritten | unitree_sdk2/example/g1/audio/g1_audio_burmese_example.cpp:328-354 | a transcript a JSON writer wrote (`\"`, `\\`, `\uXXXX` for non-ASCII) is read back as the UTF-8 bytes of the text |
| Fields.TranscriptDropsBackslash | unitree_sdk2/example/g1/audio/g1_audio_burmese_example.cpp:347-350 | any other escape `\c` gives `c` alone: `\n` is read as `n` |
| Fields.TranscriptKeepsTab | unitree_sdk2/example/g1/audio/g1_audio_burmese_example.cpp:331-337 | a tab the service writes as `\u0009` is read back as a raw tab byte |
| Fields.ReadReply | unitree_sdk2/example/g1/audio/g1_audio_burmese_example.cpp:431-465 | the copy loop returns `Reply` of the text behind the marker; the `s[i-1] != '\\'` guard never decides |
| Fields.ReplyStep | unitree_sdk2/example/g1/audio/g1_audio_burmese_example.cpp:432-463 | one pass of the copy loop: the piece it appends and the index it moves to; a quote it stops at is never behind a backslash |
| Fields.ReplyOfWritten | unitree_sdk2/example/g1/audio/g1_audio_burmese_example.cpp:433-465 | a reply without backslashes that a JSON writer wrote is read back as its UTF-8 bytes |
| Fields.ReplyMisreadsBackslash | unitree_sdk2/example/g1/audio/g1_audio_burmese_example.cpp:459-461 | an escaped backslash before `n` is read as a backslash and a space |
| Fields.ReadOpenAiReply | unitree_sdk2/example/g1/audio/g1_audio_openai_example.cpp:156-175 | the copy loop returns `OpenAiReply` of the text behind the marker |
| Fields.OpenAiStep | unitree_sdk2/example/g1/audio/g1_audio_openai_example.cpp:157-174 | one pass of the copy loop: the piece it appends and the index it moves to |
| Fields.OpenAiReplyOfEscaped | unitree_sdk2/example/g1/audio/g1_audio_openai_example.cpp:157-175 | a reply escaped with `\"`, `\\` and `\n` is read back as the text with each newline a space |
| Fields.OpenAiReplyKeepsUnicodeEscape | unitree_sdk2/example/g1/audio/g1_audio_openai_example.cpp:169-171 | `\uXXXX` is not decoded: the six characters are copied |
| Fields.AudioField | unitree_sdk2/example/g1/audio/g1_audio_burmese_example.cpp:542-544 | the text up to the next quote, or all of it when there is none |
| History.Window | unitree_sdk2/example/g1/audio/g1_audio_burmese_example.cpp:467-471 | the last `capacity` turns, or all when fewer |
| History.PushWindow | unitree_sdk2/example/g1/audio/g1_audio_burmese_example.cpp:467-471 | one push and one conditional erase turn the window of a history into the window of the longer history |
| History.ReplayIsWindow | unitree_sdk2/example/g1/audio/g1_audio_burmese_example.cpp:467-471 | after any turns the history is their last `min(n, capacity)`, in order, never more than `capacity` |
| History.ConversationHistory.Record | unitree_sdk2/example/g1/audio/g1_audio_burmese_example.cpp:468-471 | appends the turn at the tail and drops the head past capacity, keeping the window invariant |
| Messages.BuildBurmeseMessages | unitree_sdk2/example/g1/audio/g1_audio_burmese_example.cpp:378-398 | the array text is the system prompt, each history turn quote-only escaped, then the fully escaped new message |
| Messages.BuildOpenAiMessages | unitree_sdk2/example/g1/audio/g1_audio_openai_example.cpp:96-109 | the array text is the system prompt, each history turn and the new message, all verbatim |
| Messages.MessageOrder | unitree_sdk2/example/g1/audio/g1_audio_openai_example.cpp:96-109 | the objects are in order: system, then user and assistant for each history turn, oldest first, then the new user message |
| Messages.BurmeseUserMessageIntact | unitree_sdk2/example/g1/audio/g1_audio_burmese_example.cpp:397 | the new message in the Burmese request reads back as what the user said when it holds no control character but newlines, and is unreadable otherwise |
| Messages.VerbatimQuoteCutsMessage | unitree_sdk2/example/g1/audio/g1_audio_openai_example.cpp:108 | a quote in a verbatim user message ends the JSON string early: `a"b` is read as `a` |
| Playback.PlayAudio | unitree_sdk2/example/g1/audio/g1_audio_burmese_example.cpp:558-583 | the robot receives exactly `PlaybackEvents(audio_data, stream_id)` |
| Playback.ChunksShape | unitree_sdk2/example/g1/audio/g1_audio_burmese_example.cpp:565-580 | ceil(n/96000) chunks, all full but the last, which is not empty; together they are the audio |
| Playback.PlaybackOrder | unitree_sdk2/example/g1/audio/g1_audio_burmese_example.cpp:568-582 | non-empty audio: each chunk streamed in order under the one stream id, each followed by `Sleep(1)`, then exactly one `PlayStop`, last; empty audio sends nothing |
| Capture.RecordAudio | unitree_sdk2/example/g1/audio/g1_audio_burmese_example.cpp:239-259 | the accumulation loop returns `Recording` of the datagrams |
| Capture.Received | unitree_sdk2/example/g1/audio/g1_audio_burmese_example.cpp:244-246 | `recvfrom` into the 1024-byte buffer keeps at most 1024 bytes, a prefix of the datagram |
| Capture.Samples | unitree_sdk2/example/g1/audio/g1_audio_burmese_example.cpp:248-250 | the whole 16-bit samples of a buffer: an even prefix losing at most one byte |
| Capture.GatherEven | unitree_sdk2/example/g1/audio/g1_audio_burmese_example.cpp:248-250 | only whole samples are gathered |
| Capture.GatherBound | unitree_sdk2/example/g1/audio/g1_audio_burmese_example.cpp:245-251 | the loop stops gathering once the target is met, and never passes it by a whole buffer |
| Capture.RecordingShape | unitree_sdk2/example/g1/audio/g1_audio_burmese_example.cpp:207-259 | the recording is whole samples, below target + 1024 bytes, and empty without socket, time, datagrams, or running flag |
| Capture.GatherReachesTarget | unitree_sdk2/example/g1/audio/g1_audio_burmese_example.cpp:245-255 | with enough full-sample datagrams that fit the buffer, at least the wanted bytes are gathered |
| Capture.RecordingReachesTarget | unitree_sdk2/example/g1/audio/g1_audio_burmese_example.cpp:239-255 | with enough such datagrams the recording reaches SAMPLE_RATE*2*seconds bytes |
| Capture.LocalIpForMulticast | unitree_sdk2/example/g1/audio/g1_audio_burmese_example.cpp:183-201 | non-empty exactly when some IPv4 address starts with `192.168.123.`, and then the first one |
| BurmeseAssistant.GoogleStt | unitree_sdk2/example/g1/audio/g1_audio_burmese_example.cpp:266-356 | returns `SttTranscript` and sends the STT request only when there is audio and CURL was set up |
| BurmeseAssistant.CallOpenAI | unitree_sdk2/example/g1/audio/g1_audio_burmese_example.cpp:363-474 | returns `ChatReply`, sends the escaped messages array, and records the turn (user message, reply) only for a reply with the marker |
| BurmeseAssistant.ParseResponse | unitree_sdk2/example/g1/audio/g1_audio_burmese_example.cpp:424-464 | a body with `"content": "` gives `Reply` of the text behind it and reports the marker found; without it, the Response-error apology and not found |
| BurmeseAssistant.GoogleTts | unitree_sdk2/example/g1/audio/g1_audio_burmese_example.cpp:480-552 | returns the decoded audio field, or nothing on any failure |
| BurmeseAssistant.Respond | unitree_sdk2/example/g1/audio/g1_audio_burmese_example.cpp:617-636 | the chat call, green LED, speech request and the playback or the fallback, in order; the turn is recorded only when the chat call was answered |
| BurmeseAssistant.Speak | unitree_sdk2/example/g1/audio/g1_audio_burmese_example.cpp:629-636 | non-empty audio sends exactly `PlaybackEvents`; empty audio says the fallback phrase with speaker 1 and pauses three seconds |
| BurmeseAssistant.ConversationTurn | unitree_sdk2/example/g1/audio/g1_audio_burmese_example.cpp:590-639 | one turn sends exactly `TurnEvents`, leaves `TurnHistory`, and records `TurnAnswer`: nothing unless a non-empty transcript got a chat reply |
| BurmeseAssistant.ConversationLoop | unitree_sdk2/example/g1/audio/g1_audio_burmese_example.cpp:589-640 | the robot receives the turns' events one after another until a turn sees the shutdown; the history ends as `LoopHistory` and the turns recorded are `LoopAnswers`, so the history is the last 5 of all turns recorded |
| BurmeseAssistant.RequestsArePosts | unitree_sdk2/example/g1/audio/g1_audio_burmese_example.cpp:310 | the three service calls send only requests, no robot command |
| BurmeseAssistant.SilenceSkipsTurn | unitree_sdk2/example/g1/audio/g1_audio_burmese_example.cpp:597-599 | a turn with no audio, or stopped while recording, only sets the LED blue, exactly then, and keeps the history |
| BurmeseAssistant.EmptyTranscriptSkipsChat | unitree_sdk2/example/g1/audio/g1_audio_burmese_example.cpp:608-611 | an empty transcript never reaches `callOpenAI` or `googleTTS` and keeps the history |
| BurmeseAssistant.AnsweredTurn | unitree_sdk2/example/g1/audio/g1_audio_burmese_example.cpp:589-636 | a turn with a transcript is blue, orange, the STT request, then the reply events |
| BurmeseAssistant.SttErrorReachesChat | unitree_sdk2/example/g1/audio/g1_audio_burmese_example.cpp:271-316 | an STT failure gives an error text that is sent to the chat service as the user's words |
| BurmeseAssistant.NoSpeechFallback | unitree_sdk2/example/g1/audio/g1_audio_burmese_example.cpp:631-636 | with no synthesized audio the turn ends with the fallback phrase and a three-second wait, with no playback and no other speech |
| BurmeseAssistant.SpeechIsPlayed | unitree_sdk2/example/g1/audio/g1_audio_burmese_example.cpp:629-630 | with synthesized audio the turn ends with its playback and speaks nothing with `TtsMaker` |
| BurmeseAssistant.LedSequence | unitree_sdk2/example/g1/audio/g1_audio_burmese_example.cpp:589-636 | the LED goes blue; blue, orange; or blue, orange, green, as far as the turn gets |
| BurmeseAssistant.ChatHistoryUpdate | unitree_sdk2/example/g1/audio/g1_audio_burmese_example.cpp:467-471 | a reply appends (user, reply) and keeps the last 5 turns; a failure leaves the history |
| BurmeseAssistant.TurnHistoryWindow | unitree_sdk2/example/g1/audio/g1_audio_burmese_example.cpp:590-639 | one turn maps the last 5 of the turns recorded so far to the last 5 of those and the turn it records |
| BurmeseAssistant.LoopHistoryIsWindow | unitree_sdk2/example/g1/audio/g1_audio_burmese_example.cpp:589-640 | after the loop the history is the last 5, oldest first, of the turns from before the loop followed by every turn the loop recorded |
| BurmeseAssistant.ChatFailureReplies | unitree_sdk2/example/g1/audio/g1_audio_burmese_example.cpp:420-429 | without a marker the reply is the CURL error or a Burmese apology |
| BurmeseAssistant.SttReadsWrittenTranscript | unitree_sdk2/example/g1/audio/g1_audio_burmese_example.cpp:319-356 | a transcript the service wrote as a JSON string reaches `callOpenAI` as its UTF-8 bytes |
| BurmeseAssistant.ChatReadsWrittenReply | unitree_sdk2/example/g1/audio/g1_audio_burmese_example.cpp:425-465 | a backslash-free reply written as a JSON string is read as its UTF-8 bytes |
| BurmeseAssistant.TtsReadsEncodedAudio | unitree_sdk2/example/g1/audio/g1_audio_burmese_example.cpp:535-547 | base64 audio behind the marker is decoded back to the audio bytes |
| OpenAiAssistant.CallOpenAI | unitree_sdk2/example/g1/audio/g1_audio_openai_example.cpp:80-184 | returns `ChatReply`; sends the verbatim messages array unless the key is missing or CURL init fails; records a turn only for a reply with the marker |
| OpenAiAssistant.ParseResponse | unitree_sdk2/example/g1/audio/g1_audio_openai_example.cpp:142-175 | a body with `"content":"` gives `OpenAiReply` of the text behind it and reports it found; without it, the API-error text when the body holds `error`, else the parse-error text |
| OpenAiAssistant.ChatFailureReplies | unitree_sdk2/example/g1/audio/g1_audio_openai_example.cpp:81-150 | without a usable reply the result is the key, CURL, network (with the library's text), API-error or parse error text, the history is unchanged, and no request is sent exactly when the key is missing or CURL init failed |
| OpenAiAssistant.ChatHistoryUpdate | unitree_sdk2/example/g1/audio/g1_audio_openai_example.cpp:177-181 | a reply appends (user, reply) at the tail and keeps the last 10 turns in order |
| OpenAiAssistant.ChatReadsEscapedReply | unitree_sdk2/example/g1/audio/g1_audio_openai_example.cpp:142-175 | a content the service wrote with `\"`, `\\` and `\n` is read back with newlines as spaces |
| OpenAiAssistant.DetectLanguage | unitree_sdk2/example/g1/audio/g1_audio_openai_example.cpp:209-217 | 0 exactly when some byte is above 127, else 1, the empty text included |
| OpenAiAssistant.EncodedLanguage | unitree_sdk2/example/g1/audio/g1_audio_openai_example.cpp:209-217 | UTF-8 text gets the Chinese voice exactly when some character is not ASCII |
| OpenAiAssistant.WaitTime | unitree_sdk2/example/g1/audio/g1_audio_openai_example.cpp:262 | max(3, len/10) with integer division: at least 3, at least len/10, and one of the two |
| OpenAiAssistant.ProcessMessage | unitree_sdk2/example/g1/audio/g1_audio_openai_example.cpp:238-266 | orange, the chat call, green, `TtsMaker` with the detected voice, the wait, blue |
| OpenAiAssistant.ProcessShape | unitree_sdk2/example/g1/audio/g1_audio_openai_example.cpp:238-266 | the LEDs of one message are exactly orange, green, blue; the reply is spoken after green, then the wait of at least 3 s, then blue |
| OpenAiAssistant.MessageQueue.Push | unitree_sdk2/example/g1/audio/g1_audio_openai_example.cpp:202 | `push` appends at the tail |
| OpenAiAssistant.MessageQueue.TakeMessage | unitree_sdk2/example/g1/audio/g1_audio_openai_example.cpp:230-236 | takes the head when there is one, else gives the empty text and changes nothing |
| OpenAiAssistant.AsrHandler | unitree_sdk2/example/g1/audio/g1_audio_openai_example.cpp:190-203 | an empty text is dropped, anything else pushed at the tail; the queue never holds an empty text |
| OpenAiAssistant.ConversationThread | unitree_sdk2/example/g1/audio/g1_audio_openai_example.cpp:223-272 | queue, history and everything sent follow `Run` and `RunEvents` of the steps |
| OpenAiAssistant.QueueFifo | unitree_sdk2/example/g1/audio/g1_audio_openai_example.cpp:194-238 | handled messages followed by the queue are the initial queue followed by every non-empty heard text, in order; no empty text is ever queued |
| OpenAiAssistant.HistoryIsWindow | unitree_sdk2/example/g1/audio/g1_audio_openai_example.cpp:177-181 | after any run the history is the last 10 of all recorded turns, in order |
| OpenAiAssistant.LedPattern | unitree_sdk2/example/g1/audio/g1_audio_openai_example.cpp:238-266 | over any run the LED goes orange, green, blue once for each handled message and is not touched otherwise |

## Left out

- **Sockets:** the socket setup of `recordAudioFromRobot`, namely `socket`, `bind`, the multicast membership and `SO_RCVTIMEO`. Whether setup succeeded is an input (`bound`). A timeout is the end of the datagram input.
- **Interfaces:** `getifaddrs`/`getnameinfo`. They are replaced by the list of addresses they would yield, in order.
- **Audio samples:** the `int16_t` reinterpretation of samples and byte order. Audio is kept as bytes, and `len / 2` samples are the first `2 * (len / 2)` bytes.
- **CURL:**
  - the plumbing: `WriteCallback`, headers, URLs and timeouts;
  - the fixed parts of the request documents: model name, `max_tokens`, `temperature`, voice and audio configuration.
  A request is recorded as the service and its variable part: the base64 audio, the messages array, or the escaped text.
- **Threads and concurrency:** threads, `g_mutex`, the atomic `g_running` and the signal handlers.
  - The OpenAI queue's producer and consumer are one sequence of steps. The lock makes each step atomic.
  - Shutdown is the end of the step sequence (OpenAI), or a `stop` input per turn (Burmese).
- **Pauses:** the 100 ms `sleep_for` of the OpenAI consumer loop. It is not a robot command and changes nothing.
- **`main` of both programs:** argument and environment handling, `SetVolume(100)`, the greeting `TtsMaker` with its four-second wait, the initial blue and final LED-off commands, and all console output.
- **The API key:** where the OpenAI key comes from (`argv[2]`, the compiled-in value, `getenv`) is reduced to whether one is available (`has_key`). The key itself is not modelled.
- **Return codes:** the return value of `TtsMaker` is only logged and is not modelled. Neither is the `g_audio_client` null check of `playAudioOnRobot`; the client always exists in the loop.
- **Clock:** `GetCurrentTimeMillisecond` is not modelled. The stream id it makes is an input.
- **Malformed `\u` escapes:** `Fields.ReadTranscript` and `Fields.ReadReply` require every `\u` with four characters behind it to be followed by four hex digits (`Fields.TranscriptHex`, `Fields.ReplyHex`, `BurmeseAssistant.SttReadable`, `BurmeseAssistant.ChatReadable`). The source instead hands the four characters to `std::stoul`, which skips leading whitespace, accepts a sign and a `0x` prefix, and reads the longest hex prefix: `\u12"x` gives 0x12, after which `i += 5` steps over the closing quote. It throws only when no digit can be read. Neither the partial-prefix path nor the exception is modelled.
- Fields.ReadReply: the reader's `i == 0` test is not modelled, since the marker is always in front of the field. The method requires the character before the start to be no backslash, which holds behind the marker.
- OpenAiAssistant.WaitTime: does not model the `(int)` cast of `length / 10`. That cast would wrap only for replies longer than 21 GB.
- **`namaste.cpp`:** joint-angle interpolation over DDS, which is floating point and I/O. `namaste.cpp` is not part of this model.
- **Myanmar byte literals:** the Burmese apologies are their UTF-8 bytes, written out as byte literals. No lemma relates them to the Myanmar code points.
- **Error-text voice:** no lemma shows that the OpenAI example's fixed error texts get the English voice. They are ASCII, but the proof over the literals is beyond what the verifier does quickly.
