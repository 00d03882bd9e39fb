/**
  The request/response protocol over an abstract USB transport. What the
  device sends back is a script: one outcome per bulk read, in order. A
  read past the end of the script behaves like a timed-out read.
 */
module Protocol {
  import opened Wire
  import opened UsbCommand

  /** What one `bulkRead(0x82, 64, 1000)` produced. */
  datatype ReadOutcome = Received(data: seq<byte>) | ReadFailed

  /** `_recvcmd` as a function of the script: the decoded reply and the script left. */
  function Receive(script: seq<ReadOutcome>): (r: (Result<Frame>, seq<ReadOutcome>))
    ensures r.1 == if script == [] then [] else script[1..]
    ensures r.0.Ok? ==> script != [] && script[0].Received? && r.0 == Decode(script[0].data)
    ensures r.0.Err? ==> script == [] || script[0].ReadFailed? || r.0 == Decode(script[0].data)
    ensures (script == [] || script[0].ReadFailed?) ==> r.0 == Err(TransportError)
  {
    if script == [] then (Err(TransportError), [])
    else match script[0]
      case ReadFailed => (Err(TransportError), script[1..])
      case Received(data) => (Decode(data), script[1..])
  }

  // ---------------------------------------------------------------- samples

  const SampleRequestCmd: u32 := 0x204
  const SampleReplyCmd: u32 := 0x205
  const MaxSamples := 16000
  const ChunkStep := 12

  /** The sample count `samples` works with: n, capped at 16000. */
  function Clamp(n: int): (m: int)
    ensures m <= MaxSamples && (m == n || (n > MaxSamples && m == MaxSamples))
  {
    if n > MaxSamples then MaxSamples else n
  }

  /** The offsets i, i + 12, i + 24, … below stop, as `xrange(i, stop, 12)` yields them. */
  function Offsets(i: nat, stop: int): (r: seq<u32>)
    requires stop <= MaxSamples
    decreases stop - i
  {
    if i >= stop then [] else [i as u32] + Offsets(i + ChunkStep, stop)
  }

  /** The offsets `samples(n)` requests, in order. */
  function ChunkOffsets(n: int): seq<u32>
  {
    Offsets(0, Clamp(n))
  }

  lemma {:induction false} OffsetsShape(i: nat, stop: int)
    requires stop <= MaxSamples
    ensures i >= stop ==> Offsets(i, stop) == []
    ensures i < stop ==> ChunkStep * (|Offsets(i, stop)| - 1) < stop - i <= ChunkStep * |Offsets(i, stop)|
    ensures forall k :: 0 <= k < |Offsets(i, stop)| ==> Offsets(i, stop)[k] == i + ChunkStep * k
    decreases stop - i
  {
    if i < stop {
      OffsetsShape(i + ChunkStep, stop);
      var r := Offsets(i, stop);
      forall k | 0 <= k < |r|
        ensures r[k] == i + ChunkStep * k
      {
        if k > 0 {
          assert r[k] == Offsets(i + ChunkStep, stop)[k - 1];
        }
      }
    }
  }

  /**
    `samples(n)` issues ceil(min(n, 16000) / 12) requests, none when n <= 0,
    and the k-th carries offset 12 * k.
   */
  lemma ChunkSchedule(n: int)
    ensures var c := |ChunkOffsets(n)|;
      (Clamp(n) <= 0 ==> c == 0) &&
      (Clamp(n) > 0 ==> ChunkStep * (c - 1) < Clamp(n) <= ChunkStep * c)
    ensures forall k :: 0 <= k < |ChunkOffsets(n)| ==> ChunkOffsets(n)[k] == ChunkStep * k
  {
    OffsetsShape(0, Clamp(n));
  }

  /** `samples(20000)` sends 1334 requests, the last at offset 15996. */
  lemma ClampedScheduleExample()
    ensures |ChunkOffsets(20000)| == 1334 && ChunkOffsets(20000)[1333] == 15996
  {
    ChunkSchedule(20000);
  }

  /** The request for one chunk: `USBCommand(cmd=0x204)` with `ext1` set to the offset. */
  function SampleRequest(offset: u32): Frame
  {
    FromCmd(SampleRequestCmd).(ext1 := offset)
  }

  /** One payload byte as a signed sample: the byte shifted down by 128. */
  function ToSample(b: byte): (s: int)
    ensures -128 <= s <= 127 && s + 128 == b
  {
    b - 128
  }

  function ToSamples(buf: seq<byte>): (r: seq<int>)
    ensures |r| == |buf|
    ensures forall k :: 0 <= k < |r| ==> -128 <= r[k] <= 127 && r[k] + 128 == buf[k]
  {
    seq(|buf|, k requires 0 <= k < |buf| => ToSample(buf[k]))
  }

  /** The state a download leaves behind: frames sent, script left, samples or error. */
  datatype Download = Download(sent: seq<Frame>, rest: seq<ReadOutcome>, result: Result<seq<int>>)

  /** Put a first step (frames sent, samples gathered) in front of the rest of a download. */
  function Prepend(sent: seq<Frame>, samples: seq<int>, d: Download): Download
  {
    Download(sent + d.sent, d.rest, if d.result.Ok? then Ok(samples + d.result.value) else d.result)
  }

  /**
    The loop of `samples`: for each offset send one request, read one reply,
    stop with an error on a failed read or an opcode other than 0x205, else
    append the reply's payload as samples.
   */
  function DownloadChunks(offsets: seq<u32>, script: seq<ReadOutcome>): Download
    decreases |offsets|
  {
    if offsets == [] then Download([], script, Ok([]))
    else
      var req := SampleRequest(offsets[0]);
      var (chunk, rest) := ChunkReply(script, []);
      if chunk.Err? then Download([req], rest, chunk)
      else Prepend([req], chunk.value, DownloadChunks(offsets[1..], rest))
  }

  /**
    One pass of the loop in `samples` on the reply script: read one reply
    and either fail or extend `samples` with its payload.
   */
  function ChunkReply(script: seq<ReadOutcome>, samples: seq<int>): (r: (Result<seq<int>>, seq<ReadOutcome>))
  {
    var (resp, rest) := Receive(script);
    (if resp.Err? then Err(resp.error)
     else if resp.value.cmd != SampleReplyCmd then Err(UnexpectedResponse(resp.value.cmd))
     else Ok(samples + ToSamples(resp.value.buf)),
     rest)
  }

  /** An accepted reply contributes its payload's samples ahead of the rest of the download. */
  lemma DownloadStep(offsets: seq<u32>, script: seq<ReadOutcome>)
    requires offsets != []
    ensures var (resp, rest) := Receive(script);
      resp.Ok? && resp.value.cmd == SampleReplyCmd ==>
        DownloadChunks(offsets, script) ==
        Prepend([SampleRequest(offsets[0])], ToSamples(resp.value.buf), DownloadChunks(offsets[1..], rest))
  {
    var (resp, rest) := Receive(script);
    if resp.Ok? && resp.value.cmd == SampleReplyCmd {
      assert [] + ToSamples(resp.value.buf) == ToSamples(resp.value.buf);
    }
  }

  /**
    The invariant of the loop in `samples` is kept by one pass: the whole
    download is what has been sent and gathered so far followed by the
    download over the remaining offsets.
   */
  lemma DownloadLoopStep(target: Download, sent: seq<Frame>, samples: seq<int>, i: nat, stop: int,
                         script: seq<ReadOutcome>, r: Result<seq<int>>, rest: seq<ReadOutcome>)
    requires i < stop <= MaxSamples
    requires target == Prepend(sent, samples, DownloadChunks(Offsets(i, stop), script))
    requires (r, rest) == ChunkReply(script, samples)
    ensures r.Err? ==> target == Download(sent + [SampleRequest(i as u32)], rest, r)
    ensures r.Ok? ==>
      target == Prepend(sent + [SampleRequest(i as u32)], r.value, DownloadChunks(Offsets(i + ChunkStep, stop), rest))
  {
    assert Offsets(i, stop)[1..] == Offsets(i + ChunkStep, stop);
    var (resp, _) := Receive(script);
    var req := SampleRequest(i as u32);
    if resp.Ok? && resp.value.cmd == SampleReplyCmd {
      var more := ToSamples(resp.value.buf);
      var d := DownloadChunks(Offsets(i + ChunkStep, stop), rest);
      DownloadStep(Offsets(i, stop), script);
      assert sent + ([req] + d.sent) == (sent + [req]) + d.sent;
      if d.result.Ok? {
        assert samples + (more + d.result.value) == (samples + more) + d.result.value;
      }
    }
  }

  /** When no offsets remain the download has ended with the samples gathered. */
  lemma DownloadLoopDone(target: Download, sent: seq<Frame>, samples: seq<int>, i: nat, stop: int,
                         script: seq<ReadOutcome>)
    requires i >= stop && stop <= MaxSamples
    requires target == Prepend(sent, samples, DownloadChunks(Offsets(i, stop), script))
    ensures target == Download(sent, script, Ok(samples))
  {
    assert sent + [] == sent && samples + [] == samples;
  }

  /** A read the download accepts: a frame that decodes and has opcode 0x205. */
  predicate ChunkAccepted(o: ReadOutcome)
  {
    o.Received? && Decode(o.data).Ok? && Decode(o.data).value.cmd == SampleReplyCmd
  }

  /** The payload of an accepted chunk reply. */
  function ChunkPayload(o: ReadOutcome): seq<byte>
    requires ChunkAccepted(o)
  {
    Decode(o.data).value.buf
  }

  /** The samples of accepted chunk replies, in order. */
  function ChunkSamples(replies: seq<ReadOutcome>): (r: seq<int>)
    requires forall k :: 0 <= k < |replies| ==> ChunkAccepted(replies[k])
  {
    if replies == [] then []
    else ToSamples(ChunkPayload(replies[0])) + ChunkSamples(replies[1..])
  }

  /** Sum of the payload lengths of accepted chunk replies. */
  function PayloadTotal(replies: seq<ReadOutcome>): nat
    requires forall k :: 0 <= k < |replies| ==> ChunkAccepted(replies[k])
  {
    if replies == [] then 0 else |ChunkPayload(replies[0])| + PayloadTotal(replies[1..])
  }

  /** The error a rejected read produces. */
  function ChunkError(o: ReadOutcome): ProxError
    requires !ChunkAccepted(o)
  {
    match o
    case ReadFailed => TransportError
    case Received(data) =>
      if Decode(data).Err? then Decode(data).error else UnexpectedResponse(Decode(data).value.cmd)
  }

  /** Requests go out in offset order, one per reply read, and only while replies are accepted. */
  lemma {:induction false} DownloadRequests(offsets: seq<u32>, script: seq<ReadOutcome>)
    ensures var d := DownloadChunks(offsets, script);
      |d.sent| <= |offsets| &&
      (d.result.Ok? ==> |d.sent| == |offsets|) &&
      (d.result.Err? ==> |d.sent| >= 1) &&
      forall k :: 0 <= k < |d.sent| ==> d.sent[k] == SampleRequest(offsets[k])
    decreases |offsets|
  {
    if offsets != [] {
      var (resp, rest) := Receive(script);
      if resp.Ok? && resp.value.cmd == SampleReplyCmd {
        DownloadRequests(offsets[1..], rest);
        var d := DownloadChunks(offsets, script);
        var t := DownloadChunks(offsets[1..], rest);
        assert d.sent == [SampleRequest(offsets[0])] + t.sent;
        forall k | 0 <= k < |d.sent|
          ensures d.sent[k] == SampleRequest(offsets[k])
        {
          if k > 0 {
            assert d.sent[k] == t.sent[k - 1];
          }
        }
      }
    }
  }

  /**
    A download succeeds exactly when the next |offsets| reads are all
    accepted; it then returns their payloads as samples, in order, and
    consumes exactly those reads.
   */
  lemma {:induction false} DownloadSuccess(offsets: seq<u32>, script: seq<ReadOutcome>)
    ensures var d := DownloadChunks(offsets, script);
      d.result.Ok? <==> AcceptedPrefix(script, |offsets|)
    ensures var d := DownloadChunks(offsets, script);
      d.result.Ok? ==>
        d.result.value == ChunkSamples(script[..|offsets|]) && d.rest == script[|offsets|..]
    decreases |offsets|
  {
    if offsets != [] {
      var (resp, rest) := Receive(script);
      var d := DownloadChunks(offsets, script);
      if resp.Ok? && resp.value.cmd == SampleReplyCmd {
        var t := DownloadChunks(offsets[1..], rest);
        DownloadSuccess(offsets[1..], rest);
        DownloadStep(offsets, script);
        AcceptedShift(script, |offsets| - 1);
        if d.result.Ok? {
          assert script[..|offsets|][1..] == rest[..|offsets| - 1];
          assert script[|offsets|..] == rest[|offsets| - 1..];
        }
      } else {
        assert script == [] || !ChunkAccepted(script[0]);
      }
    }
  }

  /** An accepted first read followed by j accepted reads is j + 1 accepted reads. */
  lemma AcceptedShift(script: seq<ReadOutcome>, j: nat)
    requires script != [] && ChunkAccepted(script[0])
    ensures AcceptedPrefix(script[1..], j) <==> AcceptedPrefix(script, j + 1)
  {
    if AcceptedPrefix(script[1..], j) {
      forall k | 0 <= k < j + 1
        ensures ChunkAccepted(script[k])
      {
        if k > 0 {
          assert script[k] == script[1..][k - 1];
        }
      }
    }
    if AcceptedPrefix(script, j + 1) {
      forall k | 0 <= k < j
        ensures ChunkAccepted(script[1..][k])
      {
        assert script[1..][k] == script[k + 1];
      }
    }
  }

  /** The first j reads are all accepted. */
  predicate AcceptedPrefix(script: seq<ReadOutcome>, j: nat)
  {
    j <= |script| && forall k :: 0 <= k < j ==> ChunkAccepted(script[k])
  }

  /** Read j is where a download stops, with error e, leaving rest unread. */
  predicate StopsAt(script: seq<ReadOutcome>, j: nat, e: ProxError, rest: seq<ReadOutcome>)
  {
    if j < |script| then !ChunkAccepted(script[j]) && e == ChunkError(script[j]) && rest == script[j + 1..]
    else e == TransportError && rest == []
  }

  lemma ShiftStop(script: seq<ReadOutcome>, j: nat, e: ProxError, rest: seq<ReadOutcome>)
    requires script != [] && ChunkAccepted(script[0])
    requires AcceptedPrefix(script[1..], j) && StopsAt(script[1..], j, e, rest)
    ensures AcceptedPrefix(script, j + 1) && StopsAt(script, j + 1, e, rest)
  {
    AcceptedShift(script, j);
    if j + 1 < |script| {
      assert script[j + 1] == script[1..][j];
      assert script[j + 2..] == script[1..][j + 1..];
    }
  }

  /**
    A failed download stops at the first rejected read: all reads before it
    were accepted, the error is that read's (a timeout when the script has
    run out), and only the reads up to it are consumed.
   */
  lemma {:induction false} DownloadFailure(offsets: seq<u32>, script: seq<ReadOutcome>)
    ensures var d := DownloadChunks(offsets, script);
      d.result.Err? ==>
        1 <= |d.sent| <= |offsets| &&
        AcceptedPrefix(script, |d.sent| - 1) && StopsAt(script, |d.sent| - 1, d.result.error, d.rest)
    decreases |offsets|
  {
    if offsets != [] {
      var (resp, rest) := Receive(script);
      var d := DownloadChunks(offsets, script);
      if resp.Ok? && resp.value.cmd == SampleReplyCmd {
        var t := DownloadChunks(offsets[1..], rest);
        DownloadFailure(offsets[1..], rest);
        DownloadStep(offsets, script);
        if d.result.Err? {
          ShiftStop(script, |t.sent| - 1, t.result.error, t.rest);
        }
      } else {
        assert |d.sent| == 1;
      }
    }
  }

  /** The samples of accepted replies number the sum of their payload lengths. */
  lemma {:induction false} ChunkSamplesLength(replies: seq<ReadOutcome>)
    requires forall k :: 0 <= k < |replies| ==> ChunkAccepted(replies[k])
    ensures |ChunkSamples(replies)| == PayloadTotal(replies)
    ensures forall k :: 0 <= k < |ChunkSamples(replies)| ==> -128 <= ChunkSamples(replies)[k] <= 127
  {
    if replies != [] {
      ChunkSamplesLength(replies[1..]);
      var h := ToSamples(ChunkPayload(replies[0]));
      var s := ChunkSamples(replies);
      forall k | 0 <= k < |s|
        ensures -128 <= s[k] <= 127
      {
        if k >= |h| {
          assert s[k] == ChunkSamples(replies[1..])[k - |h|];
        }
      }
    }
  }

  /** With full 64-byte replies every chunk contributes 48 samples. */
  lemma {:induction false} FullFrameChunks(replies: seq<ReadOutcome>)
    requires forall k :: 0 <= k < |replies| ==> ChunkAccepted(replies[k]) && |replies[k].data| == FrameSize
    ensures PayloadTotal(replies) == PayloadSize * |replies|
  {
    if replies != [] {
      FullFrameChunks(replies[1..]);
    }
  }

  /**
    When every reply to `samples(n)` is a full 64-byte 0x205 frame, the
    download returns 48 samples per request, ceil(min(n, 16000) / 12)
    requests in all, each sample in -128..127.
   */
  lemma FullDownloadSize(n: int, script: seq<ReadOutcome>)
    requires var c := |ChunkOffsets(n)|;
      c <= |script| &&
      forall k :: 0 <= k < c ==> ChunkAccepted(script[k]) && |script[k].data| == FrameSize
    ensures var d := DownloadChunks(ChunkOffsets(n), script);
      d.result.Ok? && |d.result.value| == PayloadSize * |ChunkOffsets(n)| &&
      forall k :: 0 <= k < |d.result.value| ==> -128 <= d.result.value[k] <= 127
  {
    var offsets := ChunkOffsets(n);
    var replies := script[..|offsets|];
    DownloadSuccess(offsets, script);
    ChunkSamplesLength(replies);
    FullFrameChunks(replies);
  }

  /**
    The `samples` docstring calls n the number of samples divided by 4. With
    full replies the count is 4 * n rounded up to a whole chunk of 48: at
    least 4 * n and fewer than 4 * n + 48.
   */
  lemma DocstringSampleCount(n: int, script: seq<ReadOutcome>)
    requires 0 < n <= MaxSamples
    requires var c := |ChunkOffsets(n)|;
      c <= |script| &&
      forall k :: 0 <= k < c ==> ChunkAccepted(script[k]) && |script[k].data| == FrameSize
    ensures var d := DownloadChunks(ChunkOffsets(n), script);
      d.result.Ok? && 4 * n <= |d.result.value| < 4 * n + PayloadSize
  {
    FullDownloadSize(n, script);
    ChunkSchedule(n);
  }

  /** The default `samples()` (n = 128) returns 528 samples from full replies, not 512. */
  lemma DefaultSampleCount(script: seq<ReadOutcome>)
    requires var c := |ChunkOffsets(128)|;
      c <= |script| &&
      forall k :: 0 <= k < c ==> ChunkAccepted(script[k]) && |script[k].data| == FrameSize
    ensures var d := DownloadChunks(ChunkOffsets(128), script);
      d.result.Ok? && |d.result.value| == 528
  {
    FullDownloadSize(128, script);
    ChunkSchedule(128);
    assert |ChunkOffsets(128)| == 11;
  }

  // ------------------------------------------------------------ drain

  /** `read_msgs`: collect replies until the first read that raises. */
  function Drain(script: seq<ReadOutcome>): (r: (seq<Frame>, seq<ReadOutcome>))
    decreases |script|
  {
    var (resp, rest) := Receive(script);
    if resp.Err? then ([], rest)
    else
      var (msgs, left) := Drain(rest);
      ([resp.value] + msgs, left)
  }

  /** A read `_recvcmd` completes: data that decodes. */
  predicate Readable(o: ReadOutcome)
  {
    o.Received? && Decode(o.data).Ok?
  }

  /**
    The drained messages are exactly the decoded replies before the first
    read that raises; that read is consumed and nothing after it.
   */
  lemma {:induction false} DrainPrefix(script: seq<ReadOutcome>)
    ensures var (msgs, rest) := Drain(script);
      |msgs| <= |script| &&
      (forall k :: 0 <= k < |msgs| ==> Readable(script[k]) && Decode(script[k].data) == Ok(msgs[k])) &&
      (|msgs| < |script| ==> !Readable(script[|msgs|]) && rest == script[|msgs| + 1..]) &&
      (|msgs| == |script| ==> rest == [])
    decreases |script|
  {
    var (resp, rest) := Receive(script);
    if resp.Ok? {
      DrainPrefix(rest);
      var (msgs, left) := Drain(script);
      assert forall k :: 1 <= k < |script| ==> script[k] == rest[k - 1];
      forall k | 0 <= k < |msgs|
        ensures Readable(script[k]) && Decode(script[k].data) == Ok(msgs[k])
      {
        if k > 0 {
          assert msgs[k] == Drain(rest).0[k - 1];
        }
      }
    }
  }
}
