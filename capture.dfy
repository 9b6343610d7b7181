/** Microphone capture of the Burmese example: `recordAudioFromRobot` (lines 207-260)
    and the interface choice of `get_local_ip_for_multicast` (lines 183-201).

    The socket calls are inputs: whether the socket could be created and bound, and the
    datagrams that `recvfrom` would deliver, in order. When the datagrams run out the
    call is taken to have timed out (`SO_RCVTIMEO`), which is a return value below 1. The
    shutdown flag `g_running` is an input too: `stop == Some(k)` says it is cleared once
    `k` datagrams have been received. Samples are kept as their bytes: `len / 2`
    samples are the first `2 * (len / 2)` bytes of the buffer. */
module Capture {
  import opened Common

  const SampleRate: nat := 16000
  const RecordSeconds: nat := 5
  /** `char buffer[1024]` of line 244. */
  const BufferSize: nat := 1024

  /** What `recvfrom` leaves in the buffer: a longer datagram is cut to the buffer size. */
  function Received(d: seq<byte>): (r: seq<byte>)
    ensures |r| <= BufferSize && r <= d
    ensures |d| <= BufferSize ==> r == d
  {
    if |d| <= BufferSize then d else d[..BufferSize]
  }

  /** The whole samples of `len` bytes: an odd last byte is dropped. */
  function Samples(r: seq<byte>): (k: seq<byte>)
    ensures k <= r && |k| % 2 == 0 && |r| - 1 <= |k|
  {
    r[..2 * (|r| / 2)]
  }

  /** The bytes gathered from datagram `n` on while `remaining` bytes are still wanted. */
  function Gather(ds: seq<seq<byte>>, n: nat, stop: Option<nat>, remaining: int): seq<byte>
    requires n <= |ds|
    decreases |ds| - n
  {
    if remaining <= 0 || stop == Some(n) || n == |ds| || |ds[n]| == 0 then []
    else Samples(Received(ds[n])) + Gather(ds, n + 1, stop, remaining - |Received(ds[n])|)
  }

  /** What `recordAudioFromRobot(seconds)` returns. */
  function Recording(bound: bool, ds: seq<seq<byte>>, stop: Option<nat>, seconds: nat): seq<byte>
  {
    if !bound then [] else Gather(ds, 0, stop, SampleRate * 2 * seconds)
  }

  /** The accumulation loop of lines 248-258, after the socket has been set up. */
  method RecordAudio(bound: bool, datagrams: seq<seq<byte>>, stop: Option<nat>, seconds: nat)
    returns (pcm_data: seq<byte>)
    ensures pcm_data == Recording(bound, datagrams, stop, seconds)
  {
    if !bound {
      return [];
    }
    var target_bytes := SampleRate * 2 * seconds;
    var total_bytes := 0;
    pcm_data := [];
    var n := 0;
    var running := stop != Some(0);
    while total_bytes < target_bytes && running
      invariant n <= |datagrams| && running == (stop != Some(n))
      invariant pcm_data + Gather(datagrams, n, stop, target_bytes - total_bytes)
        == Gather(datagrams, 0, stop, target_bytes)
      decreases |datagrams| - n
    {
      if n == |datagrams| || |datagrams[n]| == 0 {
        break;
      }
      var buffer := Received(datagrams[n]);
      var len := |buffer|;
      assert Gather(datagrams, n, stop, target_bytes - total_bytes)
        == Samples(buffer) + Gather(datagrams, n + 1, stop, target_bytes - total_bytes - len);
      ghost var before := pcm_data;
      pcm_data := pcm_data + buffer[..2 * (len / 2)];
      total_bytes := total_bytes + len;
      n := n + 1;
      running := stop != Some(n);
      ConcatAssoc(before, Samples(buffer), Gather(datagrams, n, stop, target_bytes - total_bytes));
    }
  }

  // ---------------------------------------------------------------------------
  // Properties
  // ---------------------------------------------------------------------------

  /** Only whole samples are kept. */
  lemma {:induction false} GatherEven(ds: seq<seq<byte>>, n: nat, stop: Option<nat>, remaining: int)
    requires n <= |ds|
    ensures |Gather(ds, n, stop, remaining)| % 2 == 0
    decreases |ds| - n
  {
    if !(remaining <= 0 || stop == Some(n) || n == |ds| || |ds[n]| == 0) {
      GatherEven(ds, n + 1, stop, remaining - |Received(ds[n])|);
    }
  }

  /** The loop stops within one buffer of the target: nothing is gathered once the target
      is met, and less than the target plus one buffer otherwise. */
  lemma {:induction false} GatherBound(ds: seq<seq<byte>>, n: nat, stop: Option<nat>, remaining: int)
    requires n <= |ds|
    ensures remaining <= 0 ==> Gather(ds, n, stop, remaining) == []
    ensures remaining > 0 ==> |Gather(ds, n, stop, remaining)| < remaining + BufferSize
    decreases |ds| - n
  {
    if !(remaining <= 0 || stop == Some(n) || n == |ds| || |ds[n]| == 0) {
      GatherBound(ds, n + 1, stop, remaining - |Received(ds[n])|);
    }
  }

  /** The recording holds whole samples, never more than one buffer past
      `SAMPLE_RATE * 2 * seconds` bytes, and nothing when the socket could not be set up
      or no datagram arrived before the timeout or the shutdown. */
  lemma RecordingShape(bound: bool, ds: seq<seq<byte>>, stop: Option<nat>, seconds: nat)
    ensures var pcm := Recording(bound, ds, stop, seconds);
      |pcm| % 2 == 0 && |pcm| < SampleRate * 2 * seconds + BufferSize
    ensures !bound || seconds == 0 || stop == Some(0) || |ds| == 0 || |ds[0]| == 0
      ==> Recording(bound, ds, stop, seconds) == []
  {
    if bound {
      GatherEven(ds, 0, stop, SampleRate * 2 * seconds);
      GatherBound(ds, 0, stop, SampleRate * 2 * seconds);
    }
  }

  /** The total length of the datagrams from `n` on. */
  function SumFrom(ds: seq<seq<byte>>, n: nat): nat
    requires n <= |ds|
    decreases |ds| - n
  {
    if n == |ds| then 0 else |ds[n]| + SumFrom(ds, n + 1)
  }

  /** Without a shutdown, with datagrams of whole samples that fit the buffer, the loop
      gathers at least the bytes it wants when enough of them arrive. */
  lemma {:induction false} GatherReachesTarget(ds: seq<seq<byte>>, n: nat, remaining: int)
    requires n <= |ds| && remaining <= SumFrom(ds, n)
    requires forall i :: n <= i < |ds| ==> 0 < |ds[i]| <= BufferSize && |ds[i]| % 2 == 0
    ensures |Gather(ds, n, None, remaining)| >= remaining
    decreases |ds| - n
  {
    if remaining > 0 {
      GatherReachesTarget(ds, n + 1, remaining - |ds[n]|);
    }
  }

  /** A full recording: with every datagram of whole samples, none cut, and at least
      `SAMPLE_RATE * 2 * seconds` bytes of them before the timeout, the recording has
      at least that many bytes. */
  lemma RecordingReachesTarget(ds: seq<seq<byte>>, seconds: nat)
    requires SampleRate * 2 * seconds <= SumFrom(ds, 0)
    requires forall i :: 0 <= i < |ds| ==> 0 < |ds[i]| <= BufferSize && |ds[i]| % 2 == 0
    ensures |Recording(true, ds, None, seconds)| >= SampleRate * 2 * seconds
  {
    GatherReachesTarget(ds, 0, SampleRate * 2 * seconds);
  }

  // ---------------------------------------------------------------------------
  // get_local_ip_for_multicast
  // ---------------------------------------------------------------------------

  const RobotSubnet: string := "192.168.123."

  /** An interface address that is IPv4 (`Some`) and on the robot's internal network. */
  predicate OnRobotNet(a: Option<string>)
  {
    a.Some? && RobotSubnet <= a.value
  }

  /** The address joined to the multicast group: the first IPv4 address, in the order
      `getifaddrs` lists them (`None` for a non-IPv4 entry), that starts with
      `192.168.123.`, or the empty string. */
  method LocalIpForMulticast(addrs: seq<Option<string>>) returns (result: string)
    ensures result != "" <==> exists i :: 0 <= i < |addrs| && OnRobotNet(addrs[i])
    ensures result != "" ==> exists i :: (0 <= i < |addrs| && addrs[i] == Some(result) &&
      RobotSubnet <= result && forall j :: 0 <= j < i ==> !OnRobotNet(addrs[j]))
  {
    result := "";
    var k := 0;
    while k < |addrs|
      invariant k <= |addrs| && result == ""
      invariant forall j :: 0 <= j < k ==> !OnRobotNet(addrs[j])
    {
      if addrs[k].Some? {
        var ip := addrs[k].value;
        if RobotSubnet <= ip {
          result := ip;
          assert |result| >= |RobotSubnet|;
          return;
        }
      }
      k := k + 1;
    }
  }
}
