/**
  The host driver `Proxmark`: every operation writes frames to and reads
  frames from its USB device handle `dev`.
 */
module Driver {
  import opened Wire
  import opened UsbCommand
  import opened Tuning
  import opened Protocol

  /** The encodings of frames, in order: what a sequence of `_sendcmd` calls writes. */
  function EncodeAll(frames: seq<Frame>): (r: seq<seq<byte>>)
    ensures |r| == |frames|
  {
    seq(|frames|, k requires 0 <= k < |frames| => Encode(frames[k]))
  }

  lemma EncodeAllAppend(frames: seq<Frame>, f: Frame)
    ensures EncodeAll(frames + [f]) == EncodeAll(frames) + [Encode(f)]
  {
  }

  /** Append the samples of one reply payload to those gathered so far, one byte at a time. */
  method AppendSamples(samples: seq<int>, buf: seq<byte>) returns (out: seq<int>)
    ensures out == samples + ToSamples(buf)
  {
    out := samples;
    var j := 0;
    while j < |buf|
      invariant 0 <= j <= |buf|
      invariant out == samples + ToSamples(buf[..j])
    {
      out := out + [(buf[j] as int) - 128];
      j := j + 1;
      assert ToSamples(buf[..j]) == ToSamples(buf[..j - 1]) + [ToSample(buf[j - 1])];
    }
    assert buf[..j] == buf;
  }

  /**
    An opened USB device, seen from the host: bulk writes are logged in
    `written`, bulk reads replay `replies` in order.
   */
  class UsbDevice {
    var written: seq<seq<byte>>
    var replies: seq<ReadOutcome>

    constructor (replies: seq<ReadOutcome>)
      ensures written == [] && this.replies == replies
    {
      written := [];
      this.replies := replies;
    }

    /** A bulk write of data to the OUT endpoint: the buffer joins the log. */
    method BulkWrite(data: seq<byte>)
      modifies this
      ensures written == old(written) + [data] && replies == old(replies)
    {
      written := written + [data];
    }

    /** `bulkRead(0x82, 64, 1000)`: the next scripted reply; a timeout once the script is spent. */
    method BulkRead() returns (r: Result<seq<byte>>)
      modifies this
      ensures replies == if old(replies) == [] then [] else old(replies)[1..]
      ensures r.Ok? <==> old(replies) != [] && old(replies)[0].Received?
      ensures r.Ok? ==> r.value == old(replies)[0].data
      ensures r.Err? ==> r.error == TransportError
      ensures written == old(written)
    {
      if replies == [] {
        r := Err(TransportError);
      } else {
        match replies[0] {
          case ReadFailed => r := Err(TransportError);
          case Received(data) => r := Ok(data);
        }
        replies := replies[1..];
      }
    }
  }

  class Proxmark {
    const dev: UsbDevice

    /** A session over an already opened and claimed device. */
    constructor (dev: UsbDevice)
      ensures this.dev == dev
    {
      this.dev := dev;
    }

    method SendCmd(c: Frame)
      modifies dev
      ensures dev.written == old(dev.written) + [Encode(c)] && dev.replies == old(dev.replies)
    {
      dev.BulkWrite(Encode(c));
    }

    method Send(cmd: u32)
      modifies dev
      ensures dev.written == old(dev.written) + [Encode(FromCmd(cmd))] && dev.replies == old(dev.replies)
    {
      SendCmd(FromCmd(cmd));
    }

    method RecvCmd() returns (r: Result<Frame>)
      modifies dev
      ensures (r, dev.replies) == Receive(old(dev.replies))
      ensures dev.written == old(dev.written)
    {
      var raw := dev.BulkRead();
      if raw.Err? {
        return Err(raw.error);
      }
      r := Decode(raw.value);
    }

    /** Measure each antenna; a reply other than 0x401 is an error. */
    method Tune() returns (r: Result<(Antenna, Antenna, Antenna)>)
      modifies dev
      ensures dev.written == old(dev.written) + [Encode(FromCmd(TuneRequest))]
      ensures var (resp, rest) := Receive(old(dev.replies));
        dev.replies == rest &&
        r == if resp.Err? then Err(resp.error)
             else if resp.value.cmd != TuneReply then Err(UnexpectedResponse(resp.value.cmd))
             else Ok(DecodeTuning(resp.value))
    {
      Send(TuneRequest);
      var resp := RecvCmd();
      if resp.Err? {
        return Err(resp.error);
      }
      if resp.value.cmd != TuneReply {
        return Err(UnexpectedResponse(resp.value.cmd));
      }
      r := Ok(DecodeTuning(resp.value));
    }

    /**
      One pass of the loop in `samples`: send the request c, read the reply,
      reject an opcode other than 0x205, else append the reply's payload.
     */
    method FetchChunk(c: Frame, samples: seq<int>) returns (r: Result<seq<int>>)
      modifies dev
      ensures dev.written == old(dev.written) + [Encode(c)]
      ensures (r, dev.replies) == ChunkReply(old(dev.replies), samples)
    {
      SendCmd(c);
      var resp := RecvCmd();
      if resp.Err? {
        return Err(resp.error);
      }
      if resp.value.cmd != SampleReplyCmd {
        return Err(UnexpectedResponse(resp.value.cmd));
      }
      var appended := AppendSamples(samples, resp.value.buf);
      r := Ok(appended);
    }

    /** Download samples in chunks of 12 offsets, at most 16000. */
    method Samples(n: int) returns (r: Result<seq<int>>)
      modifies dev
      ensures var d := DownloadChunks(ChunkOffsets(n), old(dev.replies));
        dev.written == old(dev.written) + EncodeAll(d.sent) && dev.replies == d.rest && r == d.result
    {
      var samples: seq<int> := [];
      var c := FromCmd(SampleRequestCmd);
      assert c == SampleRequest(0);
      var m := n;
      if m > MaxSamples {
        m := MaxSamples;
      }
      var i: nat := 0;
      ghost var sent: seq<Frame> := [];
      ghost var target := DownloadChunks(Offsets(0, m), dev.replies);
      assert Prepend(sent, samples, target) == target by {
        assert [] + target.sent == target.sent;
        if target.result.Ok? {
          assert [] + target.result.value == target.result.value;
        }
      }
      while i < m
        invariant c == SampleRequest(c.ext1)
        invariant dev.written == old(dev.written) + EncodeAll(sent)
        invariant target == Prepend(sent, samples, DownloadChunks(Offsets(i, m), dev.replies))
        decreases m - i
      {
        c := c.(ext1 := i);
        assert c == SampleRequest(i);
        ghost var script := dev.replies;
        EncodeAllAppend(sent, c);
        var chunk := FetchChunk(c, samples);
        DownloadLoopStep(target, sent, samples, i, m, script, chunk, dev.replies);
        sent := sent + [c];
        if chunk.Err? {
          return chunk;
        }
        samples := chunk.value;
        i := i + ChunkStep;
      }
      DownloadLoopDone(target, sent, samples, i, m, dev.replies);
      r := Ok(samples);
    }

    /** Collect replies until the first read that raises; that failure is not passed on. */
    method ReadMsgs() returns (msgs: seq<Frame>)
      modifies dev
      ensures (msgs, dev.replies) == Drain(old(dev.replies))
      ensures dev.written == old(dev.written)
    {
      msgs := [];
      assert msgs + Drain(dev.replies).0 == Drain(dev.replies).0;
      while true
        invariant dev.written == old(dev.written)
        invariant Drain(old(dev.replies)) == (msgs + Drain(dev.replies).0, Drain(dev.replies).1)
        decreases |dev.replies|
      {
        ghost var before := dev.replies;
        var c := RecvCmd();
        if c.Err? {
          assert Drain(before) == ([], dev.replies);
          assert msgs + Drain(before).0 == msgs;
          break;
        }
        assert Drain(before).0 == [c.value] + Drain(dev.replies).0;
        assert msgs + Drain(before).0 == (msgs + [c.value]) + Drain(dev.replies).0;
        msgs := msgs + [c.value];
      }
    }

    /** Energize an LF tag: opcode 0x203, `ext1` = 1 in 134kHz mode; returns the debug reply. */
    method LfRead(highMode: bool) returns (dbg: Result<Frame>)
      modifies dev
      ensures dev.written == old(dev.written) + [Encode(Frame(0x203, if highMode then 1 else 0, 0, 0, Zeros(PayloadSize)))]
      ensures (dbg, dev.replies) == Receive(old(dev.replies))
    {
      var c := FromCmd(0x203);
      if highMode {
        c := c.(ext1 := 1);
      }
      SendCmd(c);
      dbg := RecvCmd();
    }

    method LfRead125khz() returns (r: Result<seq<int>>)
      modifies dev
      ensures var (dbg, rest) := Receive(old(dev.replies));
        var d := DownloadChunks(ChunkOffsets(128), rest);
        if dbg.Err? then
          r == Err(dbg.error) && dev.replies == rest &&
          dev.written == old(dev.written) + [Encode(Frame(0x203, 0, 0, 0, Zeros(PayloadSize)))]
        else
          r == d.result && dev.replies == d.rest &&
          dev.written == old(dev.written) + [Encode(Frame(0x203, 0, 0, 0, Zeros(PayloadSize)))] + EncodeAll(d.sent)
    {
      var dbg := LfRead(false);
      if dbg.Err? {
        return Err(dbg.error);
      }
      r := Samples(128);
    }

    method LfRead134khz() returns (r: Result<seq<int>>)
      modifies dev
      ensures var (dbg, rest) := Receive(old(dev.replies));
        var d := DownloadChunks(ChunkOffsets(128), rest);
        if dbg.Err? then
          r == Err(dbg.error) && dev.replies == rest &&
          dev.written == old(dev.written) + [Encode(Frame(0x203, 1, 0, 0, Zeros(PayloadSize)))]
        else
          r == d.result && dev.replies == d.rest &&
          dev.written == old(dev.written) + [Encode(Frame(0x203, 1, 0, 0, Zeros(PayloadSize)))] + EncodeAll(d.sent)
    {
      var dbg := LfRead(true);
      if dbg.Err? {
        return Err(dbg.error);
      }
      r := Samples(128);
    }

    /** Read an ISO14443A tag: opcode 0x301 with `ext1` = x, one reply, then 1000 samples. */
    method HfReadIso14443a(x: u32) returns (r: Result<seq<int>>)
      modifies dev
      ensures var (dbg, rest) := Receive(old(dev.replies));
        var d := DownloadChunks(ChunkOffsets(1000), rest);
        if dbg.Err? then
          r == Err(dbg.error) && dev.replies == rest &&
          dev.written == old(dev.written) + [Encode(Frame(0x301, x, 0, 0, Zeros(PayloadSize)))]
        else
          r == d.result && dev.replies == d.rest &&
          dev.written == old(dev.written) + [Encode(Frame(0x301, x, 0, 0, Zeros(PayloadSize)))] + EncodeAll(d.sent)
    {
      var c := FromCmd(0x301);
      if x != 0 {
        c := c.(ext1 := x);
      }
      SendCmd(c);
      var dbg := RecvCmd();
      if dbg.Err? {
        return Err(dbg.error);
      }
      r := Samples(1000);
    }

    /** Transmit the device's sample buffer; the `data` argument is not sent. */
    method LfXmit()
      modifies dev
      ensures dev.written == old(dev.written) + [Encode(Frame(0x207, 0, 0, 0, Zeros(PayloadSize)))]
      ensures dev.replies == old(dev.replies)
    {
      Send(0x207);
    }

    method LfHidFskDemod()
      modifies dev
      ensures dev.written == old(dev.written) + [Encode(Frame(0x208, 0, 0, 0, Zeros(PayloadSize)))]
      ensures dev.replies == old(dev.replies)
    {
      var c := FromCmd(0x208);
      SendCmd(c);
    }

    method HfSnoopIso14443a()
      modifies dev
      ensures dev.written == old(dev.written) + [Encode(Frame(0x383, 0, 0, 0, Zeros(PayloadSize)))]
      ensures dev.replies == old(dev.replies)
    {
      Send(0x383);
    }

    method HfIso14443aReader(x: u32)
      modifies dev
      ensures dev.written == old(dev.written) + [Encode(Frame(0x385, x, 0, 0, Zeros(PayloadSize)))]
      ensures dev.replies == old(dev.replies)
    {
      var c := FromCmd(0x385);
      if x != 0 {
        c := c.(ext1 := x);
      }
      SendCmd(c);
    }

    method HfReadIso15693()
      modifies dev
      ensures dev.written == old(dev.written) + [Encode(Frame(0x300, 0, 0, 0, Zeros(PayloadSize)))]
      ensures dev.replies == old(dev.replies)
    {
      Send(0x300);
    }

    method HfIso15693Reader()
      modifies dev
      ensures dev.written == old(dev.written) + [Encode(Frame(0x310, 0, 0, 0, Zeros(PayloadSize)))]
      ensures dev.replies == old(dev.replies)
    {
      Send(0x310);
    }

    method HfSimIso15693(x: u32)
      modifies dev
      ensures dev.written == old(dev.written) + [Encode(Frame(0x311, x, 0, 0, Zeros(PayloadSize)))]
      ensures dev.replies == old(dev.replies)
    {
      var c := FromCmd(0x311);
      if x != 0 {
        c := c.(ext1 := x);
      }
      SendCmd(c);
    }
  }
}
