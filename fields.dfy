/** The hand-written readers that pull one string field out of a service reply: each
    starts just behind its marker and copies characters up to a closing `"`, decoding
    some escapes on the way. The three readers decode different escape sets:

    | escape   | transcript (STT) | reply (Burmese) | reply (OpenAI example) |
    |----------|------------------|-----------------|------------------------|
    | `\uXXXX` | UTF-8 bytes      | UTF-8 bytes     | `\` copied, rescan     |
    | `\n`     | `n`              | space           | space                  |
    | `\"`     | `"`              | `"`             | `"`                    |
    | `\\`     | `\`              | `\` copied, rescan | `\`                 |
    | `\c`     | `c`              | `\` copied, rescan | `\` copied, rescan  |

    A reader is modelled by a function of the text behind the marker, proved against
    the C++ loop and against the reference writer `Json.Write`. */
module Fields {
  import opened Common
  import opened Utf8
  import opened JsonEscape
  import Json

  // ---------------------------------------------------------------------------
  // googleSTT, the transcript (Burmese example, lines 326-356)
  // ---------------------------------------------------------------------------

  /** A `\u` with four more characters behind it at the front of `t`. */
  predicate UnicodeEscapeAt(t: string)
  {
    |t| > 5 && t[0] == '\\' && t[1] == 'u'
  }

  /** How far the transcript reader moves in one step at a `t` that does not start with `"`. */
  function TranscriptSkip(t: string): (k: nat)
    requires |t| > 0
    ensures 0 < k <= |t|
  {
    if UnicodeEscapeAt(t) then 6 else if t[0] == '\\' && 1 < |t| then 2 else 1
  }

  /** What the transcript reader appends in that step. */
  function TranscriptPiece(t: string): string
    requires |t| > 0 && (UnicodeEscapeAt(t) ==> IsHex4(t[2..6]))
  {
    if UnicodeEscapeAt(t) then EncodeCodepoint(HexValue(t[2..6]))
    else if t[0] == '\\' && 1 < |t| then [t[1]]
    else [t[0]]
  }

  /** `std::stoul` sees four hex digits at every `\u` escape the transcript reader
      decodes in `t`. */
  predicate TranscriptHex(t: string)
    decreases |t|
  {
    |t| == 0 || t[0] == '"' ||
    ((UnicodeEscapeAt(t) ==> IsHex4(t[2..6])) && TranscriptHex(t[TranscriptSkip(t)..]))
  }

  /** The transcript read from `t`, the reply text behind the marker. */
  function Transcript(t: string): string
    requires TranscriptHex(t)
    decreases |t|
  {
    if |t| == 0 || t[0] == '"' then "" else TranscriptPiece(t) + Transcript(t[TranscriptSkip(t)..])
  }

  /** The copy loop of `googleSTT` (lines 327-354), started at `pos`, behind the marker. */
  method ReadTranscript(response_string: string, pos: nat) returns (transcript: string)
    requires pos <= |response_string| && TranscriptHex(response_string[pos..])
    ensures transcript == Transcript(response_string[pos..])
  {
    var s := response_string;
    transcript := "";
    var i := pos;
    while i < |s| && s[i] != '"'
      invariant pos <= i <= |s| && TranscriptHex(s[i..])
      invariant transcript + Transcript(s[i..]) == Transcript(s[pos..])
      decreases |s| - i
    {
      ghost var before := transcript;
      var piece;
      piece, i := TranscriptStep(s, i);
      transcript := transcript + piece;
      ConcatAssoc(before, piece, Transcript(s[i..]));
    }
  }

  /** The loop body of lines 328-353, with the `++i` of line 327: what it appends, and
      where the next round starts. */
  method TranscriptStep(s: string, i: nat) returns (piece: string, next: nat)
    requires i < |s| && s[i] != '"' && TranscriptHex(s[i..])
    ensures next == i + TranscriptSkip(s[i..]) && piece == TranscriptPiece(s[i..])
    ensures Transcript(s[i..]) == piece + Transcript(s[next..])
    ensures TranscriptHex(s[next..])
  {
    ghost var t := s[i..];
    next := i;
    if s[i] == '\\' && i + 1 < |s| {
      var c := s[i + 1];
      if c == 'u' && i + 5 < |s| {
        var hex := s[i + 2..i + 6];
        SuffixSlice(s, i, 2, 6);
        var codepoint := HexValue(hex);
        piece := EncodeCodepoint(codepoint);
        next := next + 5;
      } else {
        next := next + 1;
        piece := [s[next]];
      }
    } else {
      piece := [s[i]];
    }
    next := next + 1;
    assert s[next..] == t[TranscriptSkip(t)..];
  }

  // ---------------------------------------------------------------------------
  // callOpenAI, the reply (Burmese example, lines 431-465)
  // ---------------------------------------------------------------------------

  /** How far the reply reader moves in one step at a `t` that does not start with `"`. */
  function ReplySkip(t: string): (k: nat)
    requires |t| > 0
    ensures 0 < k <= |t|
  {
    if t[0] == '\\' && 1 < |t| && (t[1] == 'n' || t[1] == '"') then 2
    else if UnicodeEscapeAt(t) then 6
    else 1
  }

  /** What the reply reader appends in that step. */
  function ReplyPiece(t: string): string
    requires |t| > 0 && (UnicodeEscapeAt(t) ==> IsHex4(t[2..6]))
  {
    if t[0] == '\\' && 1 < |t| && t[1] == 'n' then " "
    else if t[0] == '\\' && 1 < |t| && t[1] == '"' then "\""
    else if UnicodeEscapeAt(t) then EncodeCodepoint(HexValue(t[2..6]))
    else [t[0]]
  }

  /** `std::stoul` sees four hex digits at every `\u` escape the reply reader decodes. */
  predicate ReplyHex(t: string)
    decreases |t|
  {
    |t| == 0 || t[0] == '"' ||
    ((UnicodeEscapeAt(t) ==> IsHex4(t[2..6])) && ReplyHex(t[ReplySkip(t)..]))
  }

  /** The reply read from `t`. The C++ ends the field at a `"` only when the character
      before it is not `\`; `ReadReply` shows that condition always holds at a `"` the
      loop reaches, so the field ends at the first `"` not consumed by `\"`. */
  function Reply(t: string): string
    requires ReplyHex(t)
    decreases |t|
  {
    if |t| == 0 || t[0] == '"' then "" else ReplyPiece(t) + Reply(t[ReplySkip(t)..])
  }

  /** The copy loop of `callOpenAI` (lines 432-465), with its test
      `s[i] == '"' && (i == 0 || s[i-1] != '\\')`, started at `pos`, behind a marker
      whose last character is not `\`. */
  method ReadReply(response_string: string, pos: nat) returns (content: string)
    requires 0 < pos <= |response_string| && response_string[pos - 1] != '\\'
    requires ReplyHex(response_string[pos..])
    ensures content == Reply(response_string[pos..])
  {
    var s := response_string;
    content := "";
    var i := pos;
    while i < |s|
      invariant pos <= i <= |s| && ReplyHex(s[i..])
      invariant content + Reply(s[i..]) == Reply(s[pos..])
      invariant i < |s| && s[i] == '"' ==> s[i - 1] != '\\'
      decreases |s| - i
    {
      ghost var before := content;
      if s[i] == '"' && (i == 0 || s[i - 1] != '\\') {
        break;
      }
      var piece;
      piece, i := ReplyStep(s, i);
      content := content + piece;
      ConcatAssoc(before, piece, Reply(s[i..]));
    }
  }

  /** The loop body of lines 436-463, with the `++i` of line 432, at a character that
      does not end the field: what it appends, and where the next round starts. */
  method ReplyStep(s: string, i: nat) returns (piece: string, next: nat)
    requires i < |s| && s[i] != '"' && ReplyHex(s[i..])
    ensures next == i + ReplySkip(s[i..]) && piece == ReplyPiece(s[i..])
    ensures Reply(s[i..]) == piece + Reply(s[next..])
    ensures ReplyHex(s[next..])
    ensures next < |s| && s[next] == '"' ==> s[next - 1] != '\\'
  {
    ghost var t := s[i..];
    next := i;
    if s[i] == '\\' && i + 1 < |s| {
      var c := s[i + 1];
      if c == 'n' {
        piece := " ";
        next := next + 1;
      } else if c == '"' {
        piece := "\"";
        next := next + 1;
      } else if c == 'u' && i + 5 < |s| {
        var hex := s[i + 2..i + 6];
        SuffixSlice(s, i, 2, 6);
        var codepoint := HexValue(hex);
        piece := EncodeCodepoint(codepoint);
        next := next + 5;
      } else {
        piece := [s[i]];
      }
    } else {
      piece := [s[i]];
    }
    next := next + 1;
    assert s[next..] == t[ReplySkip(t)..];
  }

  // ---------------------------------------------------------------------------
  // callOpenAI, the reply (OpenAI example, lines 155-175)
  // ---------------------------------------------------------------------------

  /** How far the OpenAI example's reader moves in one step. */
  function OpenAiSkip(t: string): (k: nat)
    requires |t| > 0
    ensures 0 < k <= |t|
  {
    if t[0] == '\\' && 1 < |t| && (t[1] == 'n' || t[1] == '"' || t[1] == '\\') then 2 else 1
  }

  /** What it appends in that step. */
  function OpenAiPiece(t: string): string
    requires |t| > 0
  {
    if t[0] == '\\' && 1 < |t| && t[1] == 'n' then " "
    else if t[0] == '\\' && 1 < |t| && (t[1] == '"' || t[1] == '\\') then [t[1]]
    else [t[0]]
  }

  /** The reply read from `t` by the OpenAI example. */
  function OpenAiReply(t: string): string
    decreases |t|
  {
    if |t| == 0 || t[0] == '"' then "" else OpenAiPiece(t) + OpenAiReply(t[OpenAiSkip(t)..])
  }

  /** The copy loop of the OpenAI example's `callOpenAI` (lines 156-175). */
  method ReadOpenAiReply(response_string: string, content_pos: nat) returns (content: string)
    requires content_pos <= |response_string|
    ensures content == OpenAiReply(response_string[content_pos..])
  {
    var s := response_string;
    content := "";
    var i := content_pos;
    while i < |s| && s[i] != '"'
      invariant content_pos <= i <= |s|
      invariant content + OpenAiReply(s[i..]) == OpenAiReply(s[content_pos..])
      decreases |s| - i
    {
      ghost var before := content;
      var piece;
      piece, i := OpenAiStep(s, i);
      content := content + piece;
      ConcatAssoc(before, piece, OpenAiReply(s[i..]));
    }
  }

  /** The loop body of lines 157-174, with the `++i` of line 156: what it appends, and
      where the next round starts. */
  method OpenAiStep(s: string, i: nat) returns (piece: string, next: nat)
    requires i < |s| && s[i] != '"'
    ensures next == i + OpenAiSkip(s[i..]) && piece == OpenAiPiece(s[i..])
    ensures OpenAiReply(s[i..]) == piece + OpenAiReply(s[next..])
  {
    ghost var t := s[i..];
    next := i;
    if s[i] == '\\' && i + 1 < |s| {
      var c := s[i + 1];
      if c == 'n' {
        piece := " ";
        next := next + 1;
      } else if c == '"' {
        piece := "\"";
        next := next + 1;
      } else if c == '\\' {
        piece := "\\";
        next := next + 1;
      } else {
        piece := [s[i]];
      }
    } else {
      piece := [s[i]];
    }
    next := next + 1;
    assert s[next..] == t[OpenAiSkip(t)..];
  }

  // ---------------------------------------------------------------------------
  // googleTTS, the audio field (Burmese example, lines 542-544)
  // ---------------------------------------------------------------------------

  /** `substr(pos, end_pos - pos)` with `end_pos = find('"', pos)`: the text behind the
      marker up to the next `"`, or to the end when there is none (`npos - pos` asks
      for more characters than there are). */
  function AudioField(t: string): (r: string)
    ensures r <= t && '"' !in r
    ensures |r| < |t| ==> t[|r|] == '"'
  {
    match IndexOf(t, '"')
    case None => t
    case Some(k) => t[..k]
  }

  // ---------------------------------------------------------------------------
  // What the readers make of JSON strings
  // ---------------------------------------------------------------------------

  lemma TranscriptOfWrittenChar(c: char, x: string)
    requires c as int < 0x10000 && TranscriptHex(x)
    ensures TranscriptHex(Json.WriteChar(c) + x)
    ensures Transcript(Json.WriteChar(c) + x) == EncodeCodepoint(c as int) + Transcript(x)
  {
    var w := Json.WriteChar(c);
    if |w| == 1 {
      assert (w + x)[1..] == x;
    } else if |w| == 2 {
      assert (w + x)[2..] == x;
    } else {
      assert (w + x)[2..6] == Hex4(c as int);
      assert (w + x)[6..] == x;
    }
  }

  /** The transcript reader gets the UTF-8 bytes of every text written as an ASCII JSON
      string, up to its closing quote, whatever follows. */
  lemma {:induction false} TranscriptOfWritten(t: string, rest: string)
    requires IsBmp(t)
    ensures TranscriptHex(Json.Write(t) + "\"" + rest)
    ensures Transcript(Json.Write(t) + "\"" + rest) == EncodeText(t)
    decreases |t|
  {
    if |t| == 0 {
      assert Json.Write(t) + "\"" + rest == "\"" + rest;
    } else {
      var tail := Json.Write(t[1..]) + "\"" + rest;
      assert Json.Write(t) + "\"" + rest == Json.WriteChar(t[0]) + tail;
      TranscriptOfWritten(t[1..], rest);
      TranscriptOfWrittenChar(t[0], tail);
    }
  }

  /** Any escape other than `\uXXXX` gives its second character alone: `\n` is read as `n`. */
  lemma TranscriptDropsBackslash()
    ensures TranscriptHex("\\n\"") && Transcript("\\n\"") == "n"
  {
    assert "\\n\""[2..] == "\"";
  }

  /** A tab the service writes as `\u0009` reaches the chat request as a raw tab, which
      the message escape then leaves raw. */
  lemma TranscriptKeepsTab()
    ensures TranscriptHex(Json.Write("\t") + "\"")
    ensures Transcript(Json.Write("\t") + "\"") == "\t"
  {
    TranscriptOfWritten("\t", "");
    assert Json.Write("\t") + "\"" + "" == Json.Write("\t") + "\"";
    assert EncodeText("\t") == EncodeCodepoint(9) + EncodeText("");
  }

  lemma ReplyOfWrittenChar(c: char, x: string)
    requires c as int < 0x10000 && c != '\\' && ReplyHex(x)
    ensures ReplyHex(Json.WriteChar(c) + x)
    ensures Reply(Json.WriteChar(c) + x) == EncodeCodepoint(c as int) + Reply(x)
  {
    var w := Json.WriteChar(c);
    if |w| == 1 {
      assert (w + x)[1..] == x;
    } else if |w| == 2 {
      assert (w + x)[2..] == x;
    } else {
      assert (w + x)[2..6] == Hex4(c as int);
      assert (w + x)[6..] == x;
    }
  }

  /** The Burmese reply reader gets the UTF-8 bytes of every written text that holds no
      backslash. */
  lemma {:induction false} ReplyOfWritten(t: string, rest: string)
    requires IsBmp(t) && '\\' !in t
    ensures ReplyHex(Json.Write(t) + "\"" + rest)
    ensures Reply(Json.Write(t) + "\"" + rest) == EncodeText(t)
    decreases |t|
  {
    if |t| == 0 {
      assert Json.Write(t) + "\"" + rest == "\"" + rest;
    } else {
      var tail := Json.Write(t[1..]) + "\"" + rest;
      assert Json.Write(t) + "\"" + rest == Json.WriteChar(t[0]) + tail;
      assert '\\' !in t[1..];
      ReplyOfWritten(t[1..], rest);
      ReplyOfWrittenChar(t[0], tail);
    }
  }

  /** A backslash in the text is misread: `\\` copies one backslash and then reads the
      second as the start of an escape, so the text `\n` (backslash, `n`) comes back as a
      backslash and a space. */
  lemma ReplyMisreadsBackslash()
    ensures Json.Write("\\n") == "\\\\n"
    ensures EncodeText("\\n") == "\\n"
    ensures ReplyHex("\\\\n\"") && Reply("\\\\n\"") == "\\ "
  {
    assert "\\n"[1..] == "n";
    assert Reply("\"") == "";
    assert "\\n\""[2..] == "\"";
    assert ReplySkip("\\n\"") == 2 && ReplyPiece("\\n\"") == " ";
    assert Reply("\\n\"") == " ";
    assert "\\\\n\""[1..] == "\\n\"";
    assert ReplySkip("\\\\n\"") == 1 && ReplyPiece("\\\\n\"") == "\\";
  }

  lemma OpenAiReplyOfEscapedChar(c: char, x: string)
    ensures OpenAiReply(EscapeChar(c, Message) + x) == [if c == '\n' then ' ' else c] + OpenAiReply(x)
  {
    var e := EscapeChar(c, Message);
    if |e| == 2 {
      assert (e + x)[2..] == x;
    } else {
      assert (e + x)[1..] == x;
    }
  }

  /** The OpenAI example's reader undoes the user message escape, except that newlines
      come back as spaces. */
  lemma {:induction false} OpenAiReplyOfEscaped(s: string, rest: string)
    ensures OpenAiReply(Escape(s, Message) + "\"" + rest) == SpaceNewlines(s)
    decreases |s|
  {
    if |s| == 0 {
      assert Escape(s, Message) + "\"" + rest == "\"" + rest;
    } else {
      var tail := Escape(s[1..], Message) + "\"" + rest;
      EscapeCons(s, Message);
      assert Escape(s, Message) + "\"" + rest == EscapeChar(s[0], Message) + tail;
      OpenAiReplyOfEscapedChar(s[0], tail);
      OpenAiReplyOfEscaped(s[1..], rest);
      SpaceNewlinesCons(s);
    }
  }

  /** The OpenAI example's reader does not decode `\uXXXX`: the six characters are copied. */
  lemma OpenAiReplyKeepsUnicodeEscape()
    ensures OpenAiReply("\\u00e9\"") == "\\u00e9"
  {
    assert OpenAiReply("\"") == "";
    assert OpenAiReply("9\"") == "9";
    assert OpenAiReply("e9\"") == "e9";
    assert OpenAiReply("0e9\"") == "0e9";
    assert OpenAiReply("00e9\"") == "00e9";
    assert OpenAiReply("u00e9\"") == "u00e9";
    assert "\\u00e9\""[1..] == "u00e9\"";
  }
}
