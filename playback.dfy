/** `playAudioOnRobot` of the Burmese example (lines 558-583): the synthesized audio is
    streamed to the robot's speaker in chunks of `CHUNK_SIZE = 96000` bytes (three
    seconds of 16 kHz 16-bit audio), each one followed by a one-second pause, all under
    one stream id, and the stream is stopped once at the end. The stream id, the current
    time in milliseconds as text, is an input. */
module Playback {
  import opened Common
  import opened Effects

  const ChunkSize: nat := 96000
  /** The application name given to `PlayStream`. */
  const AppName: string := "burmese"

  /** The chunks the loop cuts `a` into, in order. */
  function Chunks(a: seq<byte>): seq<seq<byte>>
    decreases |a|
  {
    if |a| == 0 then []
    else if |a| <= ChunkSize then [a]
    else [a[..ChunkSize]] + Chunks(a[ChunkSize..])
  }

  /** The calls made for the chunks `cs`: each streamed, then a pause. */
  function StreamEvents(cs: seq<seq<byte>>, stream_id: string): seq<Event>
    decreases |cs|
  {
    if |cs| == 0 then []
    else [PlayStream(AppName, stream_id, cs[0]), Sleep(1)] + StreamEvents(cs[1..], stream_id)
  }

  /** Everything `playAudioOnRobot` sends to the robot. */
  function PlaybackEvents(a: seq<byte>, stream_id: string): seq<Event>
  {
    if |a| == 0 then [] else StreamEvents(Chunks(a), stream_id) + [PlayStop(stream_id)]
  }

  method PlayAudio(robot: Robot, audio_data: seq<byte>, stream_id: string)
    modifies robot
    ensures robot.log == old(robot.log) + PlaybackEvents(audio_data, stream_id)
  {
    if |audio_data| == 0 {
      assert PlaybackEvents(audio_data, stream_id) == [];
      return;
    }
    var offset := 0;
    while offset < |audio_data|
      invariant offset <= |audio_data|
      invariant robot.log + StreamEvents(Chunks(audio_data[offset..]), stream_id)
        == old(robot.log) + StreamEvents(Chunks(audio_data), stream_id)
      decreases |audio_data| - offset
    {
      var remaining := |audio_data| - offset;
      var chunk_size := if ChunkSize < remaining then ChunkSize else remaining;
      var chunk := audio_data[offset..offset + chunk_size];
      ChunkStep(robot.log, audio_data, offset, stream_id);
      robot.Play(AppName, stream_id, chunk);
      robot.Pause(1);
      offset := offset + chunk_size;
    }
    assert audio_data[offset..] == [];
    assert Chunks(audio_data[offset..]) == [];
    assert robot.log == old(robot.log) + StreamEvents(Chunks(audio_data), stream_id);
    robot.Stop(stream_id);
  }

  /** At `offset` the next chunk is the next `min(CHUNK_SIZE, remaining)` bytes, streamed
      and followed by a pause before the chunks behind it. */
  lemma ChunkStep(log: seq<Event>, a: seq<byte>, offset: nat, stream_id: string)
    requires offset < |a|
    ensures var size := if ChunkSize < |a| - offset then ChunkSize else |a| - offset;
      log + StreamEvents(Chunks(a[offset..]), stream_id)
      == (log + [PlayStream(AppName, stream_id, a[offset..offset + size])] + [Sleep(1)])
         + StreamEvents(Chunks(a[offset + size..]), stream_id)
  {
    var t := a[offset..];
    var size := if ChunkSize < |a| - offset then ChunkSize else |a| - offset;
    FirstChunk(t);
    assert t[..size] == a[offset..offset + size];
    assert t[size..] == a[offset + size..];
    var cs := Chunks(t);
    assert cs[1..] == Chunks(a[offset + size..]);
    var first := [PlayStream(AppName, stream_id, a[offset..offset + size]), Sleep(1)];
    assert StreamEvents(cs, stream_id) == first + StreamEvents(cs[1..], stream_id);
    ConcatAssoc(log, first, StreamEvents(cs[1..], stream_id));
    assert log + first == log + [first[0]] + [first[1]];
  }

  /** The first chunk of non-empty audio is its first `min(CHUNK_SIZE, length)` bytes. */
  lemma FirstChunk(t: seq<byte>)
    requires |t| > 0
    ensures var size := if ChunkSize < |t| then ChunkSize else |t|;
      Chunks(t) == [t[..size]] + Chunks(t[size..])
  {
    if |t| <= ChunkSize {
      assert t[..|t|] == t;
      assert t[|t|..] == [];
    }
  }

  // ---------------------------------------------------------------------------
  // Properties
  // ---------------------------------------------------------------------------

  function Flatten(cs: seq<seq<byte>>): seq<byte>
    decreases |cs|
  {
    if |cs| == 0 then [] else cs[0] + Flatten(cs[1..])
  }

  /** The chunks are `ceil(n / CHUNK_SIZE)` pieces that put together give the audio back;
      all but the last are full, and the last is not empty. */
  lemma {:induction false} ChunksShape(a: seq<byte>)
    ensures |Chunks(a)| == (|a| + ChunkSize - 1) / ChunkSize
    ensures Flatten(Chunks(a)) == a
    ensures forall i :: 0 <= i < |Chunks(a)| - 1 ==> |Chunks(a)[i]| == ChunkSize
    ensures |Chunks(a)| > 0 ==> 0 < |Chunks(a)[|Chunks(a)| - 1]| <= ChunkSize
    decreases |a|
  {
    if |a| > ChunkSize {
      var rest := a[ChunkSize..];
      ChunksShape(rest);
      assert a == a[..ChunkSize] + rest;
      var cs := Chunks(a);
      assert cs[1..] == Chunks(rest);
      forall i | 1 <= i < |cs| - 1
        ensures |cs[i]| == ChunkSize
      {
        assert cs[i] == Chunks(rest)[i - 1];
      }
    }
  }

  lemma {:induction false} StreamEventsAt(cs: seq<seq<byte>>, stream_id: string)
    ensures |StreamEvents(cs, stream_id)| == 2 * |cs|
    ensures forall i :: 0 <= i < |cs| ==>
      StreamEvents(cs, stream_id)[2 * i] == PlayStream(AppName, stream_id, cs[i]) &&
      StreamEvents(cs, stream_id)[2 * i + 1] == Sleep(1)
    decreases |cs|
  {
    if |cs| > 0 {
      StreamEventsAt(cs[1..], stream_id);
      var e := StreamEvents(cs, stream_id);
      forall i | 1 <= i < |cs|
        ensures e[2 * i] == PlayStream(AppName, stream_id, cs[i]) && e[2 * i + 1] == Sleep(1)
      {
        assert e[2 * i] == StreamEvents(cs[1..], stream_id)[2 * (i - 1)];
        assert e[2 * i + 1] == StreamEvents(cs[1..], stream_id)[2 * (i - 1) + 1];
      }
    }
  }

  /** Each call a stream of chunks makes is a `PlayStream` or a pause. */
  lemma {:induction false} StreamEventsKinds(cs: seq<seq<byte>>, stream_id: string)
    ensures forall i :: 0 <= i < |StreamEvents(cs, stream_id)| ==>
      StreamEvents(cs, stream_id)[i].PlayStream? || StreamEvents(cs, stream_id)[i].Sleep?
    decreases |cs|
  {
    if |cs| > 0 {
      StreamEventsKinds(cs[1..], stream_id);
      var e := StreamEvents(cs, stream_id);
      var first := [PlayStream(AppName, stream_id, cs[0]), Sleep(1)];
      var rest := StreamEvents(cs[1..], stream_id);
      assert e == first + rest;
      forall i | 2 <= i < |e|
        ensures e[i].PlayStream? || e[i].Sleep?
      {
        assert e[i] == rest[i - 2];
      }
    }
  }

  /** The playback of non-empty audio: the chunks, in order, each streamed under the one
      stream id and followed by a pause, then exactly one `PlayStop` of that stream, last.
      Empty audio sends nothing. */
  lemma PlaybackOrder(a: seq<byte>, stream_id: string)
    ensures |a| == 0 ==> PlaybackEvents(a, stream_id) == []
    ensures |a| > 0 ==> var evs, cs := PlaybackEvents(a, stream_id), Chunks(a);
      |evs| == 2 * |cs| + 1 &&
      (forall i :: 0 <= i < |cs| ==>
        evs[2 * i] == PlayStream(AppName, stream_id, cs[i]) && evs[2 * i + 1] == Sleep(1)) &&
      evs[|evs| - 1] == PlayStop(stream_id) &&
      (forall i :: 0 <= i < |evs| - 1 ==> evs[i].PlayStream? || evs[i].Sleep?)
  {
    if |a| > 0 {
      var cs := Chunks(a);
      var s := StreamEvents(cs, stream_id);
      StreamEventsAt(cs, stream_id);
      StreamEventsKinds(cs, stream_id);
      assert PlaybackEvents(a, stream_id) == s + [PlayStop(stream_id)];
      StopAfter(s, cs, stream_id);
    }
  }

  /** Appending the `PlayStop` keeps the calls before it where they were. */
  lemma StopAfter(s: seq<Event>, cs: seq<seq<byte>>, stream_id: string)
    requires |s| == 2 * |cs|
    requires forall i :: 0 <= i < |cs| ==>
      s[2 * i] == PlayStream(AppName, stream_id, cs[i]) && s[2 * i + 1] == Sleep(1)
    requires forall i :: 0 <= i < |s| ==> s[i].PlayStream? || s[i].Sleep?
    ensures var evs := s + [PlayStop(stream_id)];
      |evs| == 2 * |cs| + 1 &&
      (forall i :: 0 <= i < |cs| ==>
        evs[2 * i] == PlayStream(AppName, stream_id, cs[i]) && evs[2 * i + 1] == Sleep(1)) &&
      evs[|evs| - 1] == PlayStop(stream_id) &&
      (forall i :: 0 <= i < |evs| - 1 ==> evs[i].PlayStream? || evs[i].Sleep?)
  {
    var evs := s + [PlayStop(stream_id)];
    assert forall i :: 0 <= i < |s| ==> evs[i] == s[i];
  }
}
