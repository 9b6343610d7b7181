/** What the two examples do to the world outside the process, as a trace of events:
    the `AudioClient` calls on the robot (`LedControl`, `PlayStream`, `PlayStop`,
    `TtsMaker`, and the `unitree::common::Sleep` pauses between them) and the HTTP
    requests sent with `curl_easy_perform`. Each service call gets its outcome as an
    input value instead of a network round trip. */
module Effects {
  import opened Common

  /** The three remote services of the examples. */
  datatype Service = SpeechToText | Chat | TextToSpeech

  /** The outcome of one service call: `curl_easy_init` failed, `curl_easy_perform`
      failed (with the library's error text), or a response body arrived. */
  datatype Transport = InitFailed | RequestFailed(reason: string) | Received(body: string)

  datatype Event =
    | LedControl(r: nat, g: nat, b: nat)
    | PlayStream(app_name: string, stream_id: string, chunk: seq<byte>)
    | PlayStop(stream_id: string)
    | TtsMaker(text: string, speaker_id: int)
    | Sleep(seconds: nat)
    | Post(service: Service, payload: string)

  /** The LED colours of the turn loops. */
  const Listening: Event := LedControl(0, 0, 255)
  const Processing: Event := LedControl(255, 165, 0)
  const Speaking: Event := LedControl(0, 255, 0)

  /** The LED commands of a trace, in order. */
  function Leds(events: seq<Event>): (r: seq<Event>)
    ensures forall i :: 0 <= i < |r| ==> r[i].LedControl?
    ensures |r| <= |events|
    decreases |events|
  {
    if |events| == 0 then []
    else (if events[0].LedControl? then [events[0]] else []) + Leds(events[1..])
  }

  lemma {:induction false} LedsAppend(a: seq<Event>, b: seq<Event>)
    ensures Leds(a + b) == Leds(a) + Leds(b)
    decreases |a|
  {
    if |a| == 0 {
      assert a + b == b;
    } else {
      assert (a + b)[1..] == a[1..] + b;
      LedsAppend(a[1..], b);
    }
  }

  /** The robot as the programs see it: everything sent to it so far, oldest first. */
  class Robot {
    var log: seq<Event>

    constructor ()
      ensures log == []
    {
      log := [];
    }

    method Led(r: nat, g: nat, b: nat)
      modifies this
      ensures log == old(log) + [LedControl(r, g, b)]
    {
      log := log + [LedControl(r, g, b)];
    }

    method Play(app_name: string, stream_id: string, chunk: seq<byte>)
      modifies this
      ensures log == old(log) + [PlayStream(app_name, stream_id, chunk)]
    {
      log := log + [PlayStream(app_name, stream_id, chunk)];
    }

    method Stop(stream_id: string)
      modifies this
      ensures log == old(log) + [PlayStop(stream_id)]
    {
      log := log + [PlayStop(stream_id)];
    }

    method Speak(text: string, speaker_id: int)
      modifies this
      ensures log == old(log) + [TtsMaker(text, speaker_id)]
    {
      log := log + [TtsMaker(text, speaker_id)];
    }

    method Pause(seconds: nat)
      modifies this
      ensures log == old(log) + [Sleep(seconds)]
    {
      log := log + [Sleep(seconds)];
    }

    /** `curl_easy_perform` of a request whose variable part is `payload`. */
    method Send(service: Service, payload: string)
      modifies this
      ensures log == old(log) + [Post(service, payload)]
    {
      log := log + [Post(service, payload)];
    }
  }
}
