/** The three JSON string escapers of the Burmese example's service requests. Each is a
    subset of the string escapes of section 7 of RFC 8259, applied character by character:

    - the new user message of the chat request (lines 370-376): `"` to `\"`, `\` to `\\`,
      a newline to `\n`;
    - the text of the speech request (lines 487-493): the same, except that a newline
      becomes one space;
    - the history entries of the chat request (lines 387-392): only a `\` inserted before
      each `"`.

    Every other character, control characters and non-ASCII bytes included, is copied. */
module JsonEscape {
  import opened Common

  datatype Site = Message | Speech | QuotesOnly

  /** What one character becomes at each site. */
  function EscapeChar(c: char, site: Site): string
  {
    if c == '"' then "\\\""
    else if c == '\\' && site != QuotesOnly then "\\\\"
    else if c == '\n' && site == Message then "\\n"
    else if c == '\n' && site == Speech then " "
    else [c]
  }

  /** The escaped text: one escape per character, in order, each appended to what the
      characters before it gave. */
  function Escape(s: string, site: Site): string
    decreases |s|
  {
    if |s| == 0 then "" else Escape(s[..|s| - 1], site) + EscapeChar(s[|s| - 1], site)
  }

  /** `s` with every newline replaced by a space. */
  function SpaceNewlines(s: string): string
  {
    seq(|s|, i requires 0 <= i < |s| => if s[i] == '\n' then ' ' else s[i])
  }

  // ---------------------------------------------------------------------------
  // Properties
  // ---------------------------------------------------------------------------

  /** Escaping a concatenation escapes each part. */
  lemma {:induction false} EscapeAppend(a: string, b: string, site: Site)
    ensures Escape(a + b, site) == Escape(a, site) + Escape(b, site)
    decreases |b|
  {
    if |b| == 0 {
      assert a + b == a;
    } else {
      var c := b[|b| - 1];
      assert (a + b)[..|a + b| - 1] == a + b[..|b| - 1];
      assert (a + b)[|a + b| - 1] == c;
      EscapeAppend(a, b[..|b| - 1], site);
      ConcatAssoc(Escape(a, site), Escape(b[..|b| - 1], site), EscapeChar(c, site));
    }
  }

  /** The escape of a non-empty text starts with the escape of its first character. */
  lemma EscapeCons(s: string, site: Site)
    requires |s| > 0
    ensures Escape(s, site) == EscapeChar(s[0], site) + Escape(s[1..], site)
  {
    assert s == [s[0]] + s[1..];
    EscapeAppend([s[0]], s[1..], site);
    assert [s[0]][..0] == [];
    assert Escape([s[0]], site) == Escape([], site) + EscapeChar(s[0], site);
    assert Escape([], site) + EscapeChar(s[0], site) == EscapeChar(s[0], site);
  }

  lemma EscapeSnoc(s: string, k: nat, site: Site)
    requires k < |s|
    ensures Escape(s[..k + 1], site) == Escape(s[..k], site) + EscapeChar(s[k], site)
  {
    assert s[..k + 1][..k] == s[..k];
  }

  /** A text without `"`, `\` and newlines goes out unchanged at every site. */
  lemma {:induction false} EscapePlain(s: string, site: Site)
    requires forall i :: 0 <= i < |s| ==> s[i] != '"' && s[i] != '\\' && s[i] != '\n'
    ensures Escape(s, site) == s
    decreases |s|
  {
    if |s| > 0 {
      EscapePlain(s[..|s| - 1], site);
      assert s == s[..|s| - 1] + [s[|s| - 1]];
    }
  }

  /** Quote-only escaping leaves a text without `"` unchanged, backslashes and newlines included. */
  lemma {:induction false} QuotesOnlyWithoutQuotes(s: string)
    requires '"' !in s
    ensures Escape(s, QuotesOnly) == s
    decreases |s|
  {
    if |s| > 0 {
      var init, c := s[..|s| - 1], s[|s| - 1];
      assert s == init + [c];
      assert c != '"' && '"' !in init;
      QuotesOnlyWithoutQuotes(init);
      EscapeLast(init, c, QuotesOnly);
    }
  }

  /** The speech escape is the message escape applied after turning newlines into spaces. */
  lemma {:induction false} SpeechIsSpacedMessage(s: string)
    ensures Escape(s, Speech) == Escape(SpaceNewlines(s), Message)
    decreases |s|
  {
    if |s| > 0 {
      var init, c := s[..|s| - 1], s[|s| - 1];
      var d := if c == '\n' then ' ' else c;
      SpeechIsSpacedMessage(init);
      SpaceNewlinesSnoc(s);
      EscapeLast(SpaceNewlines(init), d, Message);
      assert EscapeChar(c, Speech) == EscapeChar(d, Message);
    }
  }

  lemma SpaceNewlinesSnoc(s: string)
    requires |s| > 0
    ensures SpaceNewlines(s)
      == SpaceNewlines(s[..|s| - 1]) + [if s[|s| - 1] == '\n' then ' ' else s[|s| - 1]]
  {
    var r, p := SpaceNewlines(s), SpaceNewlines(s[..|s| - 1]);
    assert forall i :: 0 <= i < |s| - 1 ==> r[i] == p[i];
  }

  lemma SpaceNewlinesCons(s: string)
    requires |s| > 0
    ensures SpaceNewlines(s) == [if s[0] == '\n' then ' ' else s[0]] + SpaceNewlines(s[1..])
  {
    var r, p := SpaceNewlines(s), SpaceNewlines(s[1..]);
    assert forall i :: 1 <= i < |s| ==> r[i] == p[i - 1];
  }

  lemma EscapeLast(a: string, c: char, site: Site)
    ensures Escape(a + [c], site) == Escape(a, site) + EscapeChar(c, site)
  {
    assert (a + [c])[..|a|] == a;
  }

  /** Neither the message escape nor the speech escape lets a raw newline through. */
  lemma {:induction false} NoRawNewline(s: string, site: Site)
    requires site != QuotesOnly
    ensures '\n' !in Escape(s, site)
    decreases |s|
  {
    if |s| > 0 {
      NoRawNewline(s[..|s| - 1], site);
    }
  }

  // ---------------------------------------------------------------------------
  // The C++ loops
  // ---------------------------------------------------------------------------

  /** `escaped_message` in `callOpenAI` (lines 370-376). */
  method EscapeMessage(user_message: string) returns (escaped_message: string)
    ensures escaped_message == Escape(user_message, Message)
  {
    escaped_message := "";
    for k := 0 to |user_message|
      invariant escaped_message == Escape(user_message[..k], Message)
    {
      var c := user_message[k];
      if c == '"' {
        escaped_message := escaped_message + "\\\"";
      } else if c == '\\' {
        escaped_message := escaped_message + "\\\\";
      } else if c == '\n' {
        escaped_message := escaped_message + "\\n";
      } else {
        escaped_message := escaped_message + [c];
      }
      EscapeSnoc(user_message, k, Message);
    }
    assert user_message[..|user_message|] == user_message;
  }

  /** `escaped_text` in `googleTTS` (lines 487-493). */
  method EscapeSpeech(text: string) returns (escaped_text: string)
    ensures escaped_text == Escape(text, Speech)
  {
    escaped_text := "";
    for k := 0 to |text|
      invariant escaped_text == Escape(text[..k], Speech)
    {
      var c := text[k];
      if c == '"' {
        escaped_text := escaped_text + "\\\"";
      } else if c == '\\' {
        escaped_text := escaped_text + "\\\\";
      } else if c == '\n' {
        escaped_text := escaped_text + " ";
      } else {
        escaped_text := escaped_text + [c];
      }
      EscapeSnoc(text, k, Speech);
    }
    assert text[..|text|] == text;
  }

  /** The in-place loop over a copy of a history entry (lines 387-392):
      `if (escaped[i] == '"') escaped.insert(i++, "\\")` inside `for (...; ++i)`. The
      index steps over the inserted backslash and the quote behind it. */
  method QuoteHistoryEntry(entry: string) returns (escaped: string)
    ensures escaped == Escape(entry, QuotesOnly)
  {
    escaped := entry;
    var i := 0;
    ghost var k, done := 0, "";
    while i < |escaped|
      invariant 0 <= k <= |entry| && done == Escape(entry[..k], QuotesOnly)
      invariant escaped == done + entry[k..] && i == |done|
      decreases |escaped| - i
    {
      QuoteStep(entry, k, done, escaped);
      EscapeSnoc(entry, k, QuotesOnly);
      if escaped[i] == '"' {
        escaped := escaped[..i] + "\\" + escaped[i..];
        i := i + 1;
      }
      i := i + 1;
      k, done := k + 1, done + EscapeChar(entry[k], QuotesOnly);
    }
    assert entry[..|entry|] == entry;
  }

  /** One turn of the loop in `QuoteHistoryEntry`: the character at the index is the next
      character of the entry, and the insertion (or its absence) escapes it. */
  lemma QuoteStep(entry: string, k: nat, done: string, escaped: string)
    requires k < |entry| && escaped == done + entry[k..]
    ensures escaped[|done|] == entry[k]
    ensures var next := (done + EscapeChar(entry[k], QuotesOnly)) + entry[k + 1..];
      if entry[k] == '"' then escaped[..|done|] + "\\" + escaped[|done|..] == next else escaped == next
  {
    assert entry[k..] == [entry[k]] + entry[k + 1..];
    assert escaped[..|done|] == done && escaped[|done|..] == entry[k..];
  }
}
