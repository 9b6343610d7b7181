/** The `messages` array of the chat requests, as both examples assemble it in an
    `std::ostringstream`: `[`, the system prompt object, a user and an assistant object for
    each history turn in order, the new user message, `]`. The Burmese example escapes the
    contents (lines 378-398); the OpenAI example copies them verbatim (lines 96-109). */
module Messages {
  import opened Common
  import opened History
  import JsonEscape
  import Json

  /** One `{"role": ..., "content": ...}` object. */
  datatype ChatMessage = ChatMessage(role: string, content: string)

  const BurmesePrompt: string :=
    "\nYou are a friendly AI assistant running on a Unitree G1 humanoid robot in Myanmar.\n"
    + "You MUST respond ONLY in Burmese (Myanmar) language using Myanmar script.\n"
    + "Keep your responses short and natural for spoken conversation.\n"
    + "Be helpful, polite, and culturally appropriate for Myanmar.\n"
    + "Always use Myanmar script (Unicode), not Zawgyi.\n"

  const OpenAiPrompt: string :=
    "\nYou are a helpful AI assistant running on a Unitree G1 humanoid robot.\n"
    + "You can understand and respond in both English and Chinese.\n"
    + "Keep your responses concise and natural for spoken conversation.\n"
    + "Respond in the same language the user speaks to you.\n"

  /** The text one object is written as. */
  function ObjectText(m: ChatMessage): string
  {
    "{\"role\": \"" + m.role + "\", \"content\": \"" + m.content + "\"}"
  }

  /** An object behind the comma that separates it from the one before. */
  function Comma(m: ChatMessage): string
  {
    "," + ObjectText(m)
  }

  /** The objects after the first, each behind a comma. */
  function TailText(ms: seq<ChatMessage>): string
    decreases |ms|
  {
    if |ms| == 0 then "" else Comma(ms[0]) + TailText(ms[1..])
  }

  /** The array text of a non-empty list of objects. */
  function ArrayText(ms: seq<ChatMessage>): string
    requires |ms| > 0
  {
    "[" + ObjectText(ms[0]) + TailText(ms[1..]) + "]"
  }

  /** How a history entry is put into the request: quote-only escaped, or verbatim. */
  function Entry(x: string, quoted: bool): string
  {
    if quoted then JsonEscape.Escape(x, JsonEscape.QuotesOnly) else x
  }

  /** The user and assistant objects of the history turns, oldest first. */
  function Exchanges(h: seq<Turn>, quoted: bool): seq<ChatMessage>
    decreases |h|
  {
    if |h| == 0 then []
    else
      [ChatMessage("user", Entry(h[0].user, quoted)), ChatMessage("assistant", Entry(h[0].assistant, quoted))]
      + Exchanges(h[1..], quoted)
  }

  /** The system prompt, the history, and the new user message, as objects. */
  function MessageList(prompt: string, h: seq<Turn>, quoted: bool, user: string): seq<ChatMessage>
  {
    [ChatMessage("system", prompt)] + Exchanges(h, quoted) + [ChatMessage("user", user)]
  }

  /** The Burmese example's list: history quote-only escaped, the new message fully escaped. */
  function BurmeseMessages(h: seq<Turn>, user_message: string): seq<ChatMessage>
  {
    MessageList(BurmesePrompt, h, true, JsonEscape.Escape(user_message, JsonEscape.Message))
  }

  /** The OpenAI example's list: everything verbatim. */
  function OpenAiMessages(h: seq<Turn>, user_message: string): seq<ChatMessage>
  {
    MessageList(OpenAiPrompt, h, false, user_message)
  }

  // ---------------------------------------------------------------------------
  // Properties
  // ---------------------------------------------------------------------------

  lemma {:induction false} ExchangesAt(h: seq<Turn>, quoted: bool)
    ensures |Exchanges(h, quoted)| == 2 * |h|
    ensures forall i :: 0 <= i < |h| ==>
      Exchanges(h, quoted)[2 * i] == ChatMessage("user", Entry(h[i].user, quoted)) &&
      Exchanges(h, quoted)[2 * i + 1] == ChatMessage("assistant", Entry(h[i].assistant, quoted))
    decreases |h|
  {
    if |h| > 0 {
      ExchangesAt(h[1..], quoted);
      var e := Exchanges(h, quoted);
      forall i | 1 <= i < |h|
        ensures e[2 * i] == ChatMessage("user", Entry(h[i].user, quoted))
        ensures e[2 * i + 1] == ChatMessage("assistant", Entry(h[i].assistant, quoted))
      {
        assert e[2 * i] == Exchanges(h[1..], quoted)[2 * (i - 1)];
        assert e[2 * i + 1] == Exchanges(h[1..], quoted)[2 * (i - 1) + 1];
      }
    }
  }

  /** The order of the list: the system prompt first, then for each history turn, oldest
      first, its user and then its assistant object, and the new user message last. */
  lemma MessageOrder(prompt: string, h: seq<Turn>, quoted: bool, user: string)
    ensures var ms := MessageList(prompt, h, quoted, user);
      |ms| == 2 * |h| + 2 &&
      ms[0] == ChatMessage("system", prompt) &&
      (forall i :: 0 <= i < |h| ==>
        ms[2 * i + 1] == ChatMessage("user", Entry(h[i].user, quoted)) &&
        ms[2 * i + 2] == ChatMessage("assistant", Entry(h[i].assistant, quoted))) &&
      ms[|ms| - 1] == ChatMessage("user", user)
  {
    ExchangesAt(h, quoted);
    var ms := MessageList(prompt, h, quoted, user);
    var e := Exchanges(h, quoted);
    forall i | 0 <= i < |h|
      ensures ms[2 * i + 1] == ChatMessage("user", Entry(h[i].user, quoted))
      ensures ms[2 * i + 2] == ChatMessage("assistant", Entry(h[i].assistant, quoted))
    {
      assert ms[2 * i + 1] == e[2 * i];
      assert ms[2 * i + 2] == e[2 * i + 1];
    }
  }

  /** The new message of the Burmese request reads back exactly when it holds no control
      character but newlines; any other control character makes it unreadable. */
  lemma BurmeseUserMessageIntact(h: seq<Turn>, user_message: string, rest: string)
    ensures var ms := BurmeseMessages(h, user_message);
      Json.StringValue(ms[|ms| - 1].content + "\"" + rest) ==
        if Json.RawControlFree(user_message, JsonEscape.Message) then Some(user_message) else None
  {
    Json.ReadEscapedMessage(user_message, rest);
  }

  /** Verbatim copying lets a quote in the user's text end the JSON string early: the
      service reads `a"b` as `a`. */
  lemma VerbatimQuoteCutsMessage()
    ensures var ms := OpenAiMessages([], "a\"b");
      ms[|ms| - 1].content == "a\"b" && Json.StringValue("a\"b" + "\"}") == Some("a")
  {
    var t := "a\"b" + "\"}";
    assert t[0] == 'a' && t[1..] == "\"b\"}";
    assert Json.StringValue(t[1..]) == Some("");
    assert "a" + "" == "a";
  }

  lemma {:induction false} TailTextAppend(a: seq<ChatMessage>, b: seq<ChatMessage>)
    ensures TailText(a + b) == TailText(a) + TailText(b)
    decreases |a|
  {
    if |a| == 0 {
      assert a + b == b;
    } else {
      assert (a + b)[1..] == a[1..] + b;
      TailTextAppend(a[1..], b);
    }
  }

  lemma {:induction false} ExchangesAppend(a: seq<Turn>, b: seq<Turn>, quoted: bool)
    ensures Exchanges(a + b, quoted) == Exchanges(a, quoted) + Exchanges(b, quoted)
    decreases |a|
  {
    if |a| == 0 {
      assert a + b == b;
    } else {
      assert (a + b)[1..] == a[1..] + b;
      ExchangesAppend(a[1..], b, quoted);
    }
  }

  lemma TailTextOne(m: ChatMessage)
    ensures TailText([m]) == Comma(m)
  {
    assert [m][1..] == [];
  }

  lemma TailTextPair(m: ChatMessage, n: ChatMessage)
    ensures TailText([m, n]) == Comma(m) + Comma(n)
  {
    assert [m, n][1..] == [n];
    TailTextOne(n);
  }

  /** One more history turn adds its two objects, each behind a comma. */
  lemma ExchangeStep(h: seq<Turn>, k: nat, quoted: bool)
    requires k < |h|
    ensures TailText(Exchanges(h[..k + 1], quoted)) ==
      TailText(Exchanges(h[..k], quoted))
      + Comma(ChatMessage("user", Entry(h[k].user, quoted)))
      + Comma(ChatMessage("assistant", Entry(h[k].assistant, quoted)))
  {
    assert h[..k + 1] == h[..k] + [h[k]];
    ExchangesAppend(h[..k], [h[k]], quoted);
    var u := ChatMessage("user", Entry(h[k].user, quoted));
    var a := ChatMessage("assistant", Entry(h[k].assistant, quoted));
    assert [h[k]][1..] == [];
    assert Exchanges([h[k]], quoted) == [u, a];
    TailTextPair(u, a);
    TailTextAppend(Exchanges(h[..k], quoted), [u, a]);
  }

  /** Closing the array behind the history objects. */
  lemma CloseArray(prompt: string, h: seq<Turn>, quoted: bool, user: string)
    ensures ArrayText(MessageList(prompt, h, quoted, user)) ==
      "[" + ObjectText(ChatMessage("system", prompt)) + TailText(Exchanges(h, quoted))
      + Comma(ChatMessage("user", user)) + "]"
  {
    var ms := MessageList(prompt, h, quoted, user);
    var first, last := ChatMessage("system", prompt), ChatMessage("user", user);
    var ex := Exchanges(h, quoted);
    assert ms == [first] + ex + [last];
    assert ms[0] == first;
    assert ms[1..] == ex + [last];
    TailTextOne(last);
    TailTextAppend(ex, [last]);
    assert TailText(ms[1..]) == TailText(ex) + Comma(last);
    assert ArrayText(ms) == "[" + ObjectText(first) + (TailText(ex) + Comma(last)) + "]";
  }

  lemma ConcatAssoc3<T>(a: seq<T>, b: seq<T>, c: seq<T>, d: seq<T>)
    ensures a + b + c + d == a + (b + c + d)
  {
  }

  // ---------------------------------------------------------------------------
  // The C++ loops
  // ---------------------------------------------------------------------------

  /** `messages_json` in the Burmese `callOpenAI` (lines 369-398), with the escapes of
      lines 370-376 and 384-392. */
  method BuildBurmeseMessages(history: seq<Turn>, user_message: string) returns (messages_json: string)
    ensures messages_json == ArrayText(BurmeseMessages(history, user_message))
  {
    var escaped_message := JsonEscape.EscapeMessage(user_message);
    var head := "[" + ObjectText(ChatMessage("system", BurmesePrompt));
    messages_json := head;
    assert history[..0] == [];
    for k := 0 to |history|
      invariant messages_json == head + TailText(Exchanges(history[..k], true))
    {
      var escaped_user := JsonEscape.QuoteHistoryEntry(history[k].user);
      var escaped_assistant := JsonEscape.QuoteHistoryEntry(history[k].assistant);
      messages_json := messages_json + Comma(ChatMessage("user", escaped_user));
      messages_json := messages_json + Comma(ChatMessage("assistant", escaped_assistant));
      ExchangeStep(history, k, true);
      ConcatAssoc3(head, TailText(Exchanges(history[..k], true)),
        Comma(ChatMessage("user", escaped_user)), Comma(ChatMessage("assistant", escaped_assistant)));
    }
    messages_json := messages_json + Comma(ChatMessage("user", escaped_message)) + "]";
    assert history[..|history|] == history;
    CloseArray(BurmesePrompt, history, true, escaped_message);
  }

  /** `messages_json` in the OpenAI example's `callOpenAI` (lines 96-109). */
  method BuildOpenAiMessages(history: seq<Turn>, user_message: string) returns (messages_json: string)
    ensures messages_json == ArrayText(OpenAiMessages(history, user_message))
  {
    var head := "[" + ObjectText(ChatMessage("system", OpenAiPrompt));
    messages_json := head;
    assert history[..0] == [];
    for k := 0 to |history|
      invariant messages_json == head + TailText(Exchanges(history[..k], false))
    {
      messages_json := messages_json + Comma(ChatMessage("user", history[k].user));
      messages_json := messages_json + Comma(ChatMessage("assistant", history[k].assistant));
      ExchangeStep(history, k, false);
      ConcatAssoc3(head, TailText(Exchanges(history[..k], false)),
        Comma(ChatMessage("user", history[k].user)), Comma(ChatMessage("assistant", history[k].assistant)));
    }
    messages_json := messages_json + Comma(ChatMessage("user", user_message)) + "]";
    assert history[..|history|] == history;
    CloseArray(OpenAiPrompt, history, false, user_message);
  }
}
