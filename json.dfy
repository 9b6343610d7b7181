/** Reference definitions for JSON string contents, after section 7 of RFC 8259: a reader
    of the text between the quotes, as the services at the other end of the requests read
    it, and a writer of the kind the services use in their replies. The escapers of the
    Burmese example are checked against the reader; the example's own field readers are
    checked against the writer. */
module Json {
  import opened Common
  import opened Utf8
  import opened JsonEscape

  /** A character that may not stand raw inside a JSON string. */
  predicate IsControl(c: char)
  {
    c as int < 0x20
  }

  /** A control character that the escape at `site` leaves raw: every one but the
      newline, which the message and speech escapes handle, and every one for quote-only
      escaping. */
  predicate RawControl(c: char, site: Site)
  {
    IsControl(c) && !(c == '\n' && site != QuotesOnly)
  }

  /** The escape at `site` leaves no control character raw in `s`. */
  predicate RawControlFree(s: string, site: Site)
  {
    forall i :: 0 <= i < |s| ==> !RawControl(s[i], site)
  }

  lemma RawControlFreeCons(s: string, site: Site)
    requires |s| > 0
    ensures RawControlFree(s, site) <==> !RawControl(s[0], site) && RawControlFree(s[1..], site)
  {
    if !RawControl(s[0], site) && RawControlFree(s[1..], site) {
      forall i | 0 < i < |s|
        ensures !RawControl(s[i], site)
      {
        assert s[i] == s[1..][i - 1];
      }
    }
  }

  function Prepend(p: string, r: Option<string>): Option<string>
  {
    match r
    case None => None
    case Some(v) => Some(p + v)
  }

  /** The value of a JSON string whose opening quote has been read: the characters up to
      the closing `"`, with the two-character escapes of RFC 8259 and `\uXXXX` (written
      as UTF-8). `None` for an unknown escape, a missing closing quote, or a control
      character (U+0000 to U+001F) that stands raw, which section 7 does not allow. */
  function StringValue(t: string): Option<string>
    decreases |t|
  {
    if |t| == 0 then None
    else if t[0] == '"' then Some("")
    else if t[0] != '\\' then (if IsControl(t[0]) then None else Prepend([t[0]], StringValue(t[1..])))
    else if |t| < 2 then None
    else if t[1] == '"' || t[1] == '\\' || t[1] == '/' then Prepend([t[1]], StringValue(t[2..]))
    else if t[1] == 'b' then Prepend([8 as char], StringValue(t[2..]))
    else if t[1] == 'f' then Prepend([12 as char], StringValue(t[2..]))
    else if t[1] == 'n' then Prepend("\n", StringValue(t[2..]))
    else if t[1] == 'r' then Prepend("\r", StringValue(t[2..]))
    else if t[1] == 't' then Prepend("\t", StringValue(t[2..]))
    else if t[1] == 'u' && |t| >= 6 && IsHex4(t[2..6]) then
      Prepend(EncodeCodepoint(HexValue(t[2..6])), StringValue(t[6..]))
    else None
  }

  /** How a writer that keeps its output ASCII puts one character into a string: `\"`
      and `\\`, printable ASCII as it is, everything else as `\uXXXX`. */
  function WriteChar(c: char): string
    requires c as int < 0x10000
  {
    if c == '"' then "\\\""
    else if c == '\\' then "\\\\"
    else if 0x20 <= c as int < 0x80 then [c]
    else "\\u" + Hex4(c as int)
  }

  /** The contents of the JSON string such a writer produces for the text `t`. */
  function Write(t: string): string
    requires IsBmp(t)
    decreases |t|
  {
    if |t| == 0 then "" else WriteChar(t[0]) + Write(t[1..])
  }

  // ---------------------------------------------------------------------------
  // The reference writer and reader agree
  // ---------------------------------------------------------------------------

  lemma ReadWrittenChar(c: char, x: string)
    requires c as int < 0x10000
    ensures StringValue(WriteChar(c) + x) == Prepend(EncodeCodepoint(c as int), StringValue(x))
  {
    var w := WriteChar(c);
    if 0x20 <= c as int < 0x80 && c != '"' && c != '\\' {
      assert (w + x)[1..] == x;
    } else if c == '"' || c == '\\' {
      assert (w + x)[2..] == x;
    } else {
      assert (w + x)[2..6] == Hex4(c as int);
      assert (w + x)[6..] == x;
    }
  }

  /** The reader gets back the UTF-8 bytes of every text the writer wrote, whatever
      follows the closing quote. */
  lemma {:induction false} ReadWritten(t: string, rest: string)
    requires IsBmp(t)
    ensures StringValue(Write(t) + "\"" + rest) == Some(EncodeText(t))
    decreases |t|
  {
    if |t| == 0 {
      assert Write(t) + "\"" + rest == "\"" + rest;
    } else {
      var tail := Write(t[1..]) + "\"" + rest;
      assert Write(t) + "\"" + rest == WriteChar(t[0]) + tail;
      ReadWrittenChar(t[0], tail);
      ReadWritten(t[1..], rest);
    }
  }

  // ---------------------------------------------------------------------------
  // What the services read from the example's escaped strings
  // ---------------------------------------------------------------------------

  lemma ReadEscapedChar(c: char, site: Site, x: string)
    requires site != Speech || c != '\n'
    requires site != QuotesOnly || c != '\\'
    ensures StringValue(EscapeChar(c, site) + x) ==
      if RawControl(c, site) then None else Prepend([c], StringValue(x))
  {
    var e := EscapeChar(c, site);
    if |e| == 2 {
      assert (e + x)[2..] == x;
    } else {
      assert (e + x)[1..] == x;
    }
  }

  /** The user message escape (lines 370-376) is exact for a message without control
      characters other than the newline: a JSON reader gets the message back, whatever
      follows the closing quote. A tab, a carriage return or any other control character
      is copied raw, and the reader rejects the string. */
  lemma {:induction false} ReadEscapedMessage(s: string, rest: string)
    ensures StringValue(Escape(s, Message) + "\"" + rest) ==
      if RawControlFree(s, Message) then Some(s) else None
    decreases |s|
  {
    if |s| == 0 {
      assert Escape(s, Message) + "\"" + rest == "\"" + rest;
    } else {
      var tail := Escape(s[1..], Message) + "\"" + rest;
      EscapeCons(s, Message);
      assert Escape(s, Message) + "\"" + rest == EscapeChar(s[0], Message) + tail;
      ReadEscapedChar(s[0], Message, tail);
      ReadEscapedMessage(s[1..], rest);
      RawControlFreeCons(s, Message);
      assert s == [s[0]] + s[1..];
    }
  }

  /** The speech escape (lines 487-493) gets the text across with its newlines turned
      into spaces, unless it holds another control character. */
  lemma ReadEscapedSpeech(s: string, rest: string)
    ensures StringValue(Escape(s, Speech) + "\"" + rest) ==
      if RawControlFree(s, Speech) then Some(SpaceNewlines(s)) else None
  {
    SpeechIsSpacedMessage(s);
    ReadEscapedMessage(SpaceNewlines(s), rest);
    SpacedControls(s);
  }

  lemma SpacedControls(s: string)
    ensures RawControlFree(SpaceNewlines(s), Message) == RawControlFree(s, Speech)
  {
    var t := SpaceNewlines(s);
    assert forall i :: 0 <= i < |s| ==> (RawControl(t[i], Message) <==> RawControl(s[i], Speech));
  }

  /** Quote-only escaping (lines 387-392) gets a history entry without backslashes across
      exactly when it holds no control character: a raw newline, tab or other control
      character makes the reader reject the string. */
  lemma {:induction false} ReadQuotedEntry(s: string, rest: string)
    requires '\\' !in s
    ensures StringValue(Escape(s, QuotesOnly) + "\"" + rest) ==
      if RawControlFree(s, QuotesOnly) then Some(s) else None
    decreases |s|
  {
    if |s| == 0 {
      assert Escape(s, QuotesOnly) + "\"" + rest == "\"" + rest;
    } else {
      var tail := Escape(s[1..], QuotesOnly) + "\"" + rest;
      EscapeCons(s, QuotesOnly);
      assert Escape(s, QuotesOnly) + "\"" + rest == EscapeChar(s[0], QuotesOnly) + tail;
      ReadEscapedChar(s[0], QuotesOnly, tail);
      assert '\\' !in s[1..];
      ReadQuotedEntry(s[1..], rest);
      RawControlFreeCons(s, QuotesOnly);
      assert s == [s[0]] + s[1..];
    }
  }

  /** A tab in the user's message is copied raw by the message escape, so the JSON
      string of the request cannot be read. */
  lemma TabBreaksMessage()
    ensures Escape("a\tb", Message) == "a\tb"
    ensures StringValue(Escape("a\tb", Message) + "\"") == None
  {
    EscapePlain("a\tb", Message);
    ReadEscapedMessage("a\tb", "");
    assert RawControl("a\tb"[1], Message);
  }

  /** A history entry that ends in a backslash is not closed by the quote after it: the
      backslash left in place escapes that quote, and the string runs on. */
  lemma QuotedTrailingBackslash()
    ensures Escape("a\\", QuotesOnly) == "a\\"
    ensures StringValue(Escape("a\\", QuotesOnly) + "\"") == None
  {
    assert Escape("a\\", QuotesOnly) == "a\\" by {
      assert "a\\"[1..] == "\\";
    }
    assert ("a\\" + "\"")[1..] == "\\\"";
    assert "\\\""[2..] == "";
  }
}
