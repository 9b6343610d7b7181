/** The conversation history both examples keep for the chat requests,
    `std::vector<std::pair<std::string, std::string>> g_conversation_history`: after a
    successful reply the pair is appended with `push_back`, and when the vector holds more
    than `MAX_HISTORY` pairs the oldest is removed with `erase(begin())` (Burmese example
    lines 467-471 with `MAX_HISTORY = 5`, OpenAI example lines 177-181 with 10). */
module History {

  /** One exchange: the user's text and the assistant's reply. */
  datatype Turn = Turn(user: string, assistant: string)

  function Min(a: nat, b: nat): nat
  {
    if a < b then a else b
  }

  /** The state after one `push_back` and the conditional `erase(begin())`. */
  function Push(h: seq<Turn>, t: Turn, capacity: nat): seq<Turn>
  {
    var g := h + [t];
    if |g| > capacity then g[1..] else g
  }

  /** The last `capacity` turns of `ts` in order, or all of them when there are fewer. */
  function Window(ts: seq<Turn>, capacity: nat): (w: seq<Turn>)
    ensures |w| == Min(|ts|, capacity)
  {
    ts[|ts| - Min(|ts|, capacity)..]
  }

  /** Appending to the window of a history gives the window of the longer history: one
      erase is enough to keep the bound. */
  lemma PushWindow(ts: seq<Turn>, t: Turn, capacity: nat)
    requires capacity >= 1
    ensures Push(Window(ts, capacity), t, capacity) == Window(ts + [t], capacity)
  {
    var n := |ts|;
    if n + 1 > capacity {
      assert Window(ts + [t], capacity) == ts[n + 1 - capacity..] + [t];
      assert (Window(ts, capacity) + [t])[1..] == ts[n + 1 - capacity..] + [t];
    } else {
      assert Window(ts + [t], capacity) == ts + [t];
    }
  }

  /** Replaying a whole conversation from an empty history, one `Push` per turn. */
  function Replay(ts: seq<Turn>, capacity: nat): seq<Turn>
  {
    if |ts| == 0 then [] else Push(Replay(ts[..|ts| - 1], capacity), ts[|ts| - 1], capacity)
  }

  /** After any number of turns the history holds the last `min(n, capacity)` of them,
      oldest first: never more than `capacity`, and only the oldest are dropped. */
  lemma {:induction false} ReplayIsWindow(ts: seq<Turn>, capacity: nat)
    requires capacity >= 1
    ensures Replay(ts, capacity) == Window(ts, capacity)
    ensures |Replay(ts, capacity)| <= capacity
    decreases |ts|
  {
    if |ts| > 0 {
      var init := ts[..|ts| - 1];
      ReplayIsWindow(init, capacity);
      PushWindow(init, ts[|ts| - 1], capacity);
      assert init + [ts[|ts| - 1]] == ts;
    }
  }

  /** `g_conversation_history` with its bound. `recorded` is every turn ever appended. */
  class ConversationHistory {
    var turns: seq<Turn>
    const capacity: nat
    ghost var recorded: seq<Turn>

    ghost predicate Valid()
      reads this
    {
      capacity >= 1 && turns == Window(recorded, capacity)
    }

    constructor (capacity: nat)
      requires capacity >= 1
      ensures Valid() && this.capacity == capacity && turns == [] && recorded == []
    {
      this.capacity := capacity;
      turns := [];
      recorded := [];
    }

    /** `push_back({user, assistant})`, then `erase(begin())` when over capacity. */
    method Record(user: string, assistant: string)
      requires Valid()
      modifies this
      ensures Valid() && recorded == old(recorded) + [Turn(user, assistant)]
      ensures turns == Push(old(turns), Turn(user, assistant), capacity)
    {
      PushWindow(recorded, Turn(user, assistant), capacity);
      turns := turns + [Turn(user, assistant)];
      if |turns| > capacity {
        turns := turns[1..];
      }
      recorded := recorded + [Turn(user, assistant)];
    }
  }
}
