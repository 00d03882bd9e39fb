/**
  The `USBCommand` frame: four u32 header fields (`cmd`, `ext1`, `ext2`,
  `ext3`) followed by a payload `buf`, and its byte encoding.
 */
module UsbCommand {
  import opened Wire

  const HeaderSize := 16
  const PayloadSize := 48
  /** Length of a frame built from an opcode alone, and of one bulk read. */
  const FrameSize := 64

  datatype Frame = Frame(cmd: u32, ext1: u32, ext2: u32, ext3: u32, buf: seq<byte>)

  /** Why a host operation did not complete. */
  datatype ProxError =
    | TransportError                 // bulkRead raised (timeout or I/O fault)
    | FrameTooShort(length: nat)     // struct.unpack given fewer than 16 header bytes
    | UnexpectedResponse(cmd: u32)   // ProxError("Unexpected response ...")

  datatype Result<T> = Ok(value: T) | Err(error: ProxError)

  function Zeros(n: nat): (s: seq<byte>)
    ensures |s| == n && forall k :: 0 <= k < n ==> s[k] == 0
  {
    seq(n, _ => 0)
  }

  /** The class defaults: every field zero and 48 zero payload bytes. */
  function DefaultFrame(): Frame
  {
    Frame(0, 0, 0, 0, Zeros(PayloadSize))
  }

  /** `USBCommand(cmd=cmd)`: the defaults, with `cmd` set when it is non-zero. */
  function FromCmd(cmd: u32): (f: Frame)
  {
    if cmd != 0 then DefaultFrame().(cmd := cmd) else DefaultFrame()
  }

  /** `str(USBCommand)`: the packed header followed by `buf` as it is. */
  function Encode(f: Frame): seq<byte>
  {
    U32Bytes(f.cmd) + U32Bytes(f.ext1) + U32Bytes(f.ext2) + U32Bytes(f.ext3) + f.buf
  }

  /**
    The encoding is 16 header bytes, the four fields in order, each read
    back unchanged, followed by the payload.
   */
  lemma EncodeLayout(f: Frame)
    ensures var s := Encode(f);
      |s| == HeaderSize + |f.buf| &&
      U32At(s, 0) == f.cmd && U32At(s, 4) == f.ext1 &&
      U32At(s, 8) == f.ext2 && U32At(s, 12) == f.ext3 &&
      s[HeaderSize..] == f.buf
  {
    var s := Encode(f);
    assert s[0..4] == U32Bytes(f.cmd) && s[4..8] == U32Bytes(f.ext1);
    assert s[8..12] == U32Bytes(f.ext2) && s[12..16] == U32Bytes(f.ext3);
  }

  /**
    `USBCommand(blob)`: an empty blob is falsy and leaves the defaults; any
    other blob must hold the 16 header bytes, and the rest becomes `buf`.
   */
  function Decode(blob: seq<byte>): (r: Result<Frame>)
    ensures r.Err? <==> 0 < |blob| < HeaderSize
    ensures r.Err? ==> r.error == FrameTooShort(|blob|)
    ensures |blob| == 0 ==> r == Ok(DefaultFrame())
  {
    if |blob| == 0 then Ok(DefaultFrame())
    else if |blob| < HeaderSize then Err(FrameTooShort(|blob|))
    else Ok(Frame(U32At(blob, 0), U32At(blob, 4), U32At(blob, 8), U32At(blob, 12), blob[HeaderSize..]))
  }

  /** Decoding an encoded frame gives back all four header fields and the payload. */
  lemma DecodeEncode(f: Frame)
    ensures Decode(Encode(f)) == Ok(f)
  {
    EncodeLayout(f);
  }

  /** Every blob with a full header is the encoding of the frame it decodes to. */
  lemma EncodeDecode(blob: seq<byte>)
    requires |blob| >= HeaderSize
    ensures Decode(blob).Ok? && Encode(Decode(blob).value) == blob
  {
    var f := Decode(blob).value;
    var s := Encode(f);
    EncodeLayout(f);
    U32AtBytes(blob, 0);
    U32AtBytes(blob, 4);
    U32AtBytes(blob, 8);
    U32AtBytes(blob, 12);
    assert s[0..4] == blob[0..4] && s[4..8] == blob[4..8];
    assert s[8..12] == blob[8..12] && s[12..16] == blob[12..16];
    assert s[..16] == blob[..16] by {
      assert s[..16] == s[0..4] + s[4..8] + s[8..12] + s[12..16];
      assert blob[..16] == blob[0..4] + blob[4..8] + blob[8..12] + blob[12..16];
    }
    assert s == s[..16] + s[16..] && blob == blob[..16] + blob[16..];
  }

  /**
    A frame built from an opcode alone is 64 bytes on the wire: the opcode,
    three zero extension fields and 48 zero payload bytes.
   */
  lemma CommandFrameLayout(cmd: u32)
    ensures var s := Encode(FromCmd(cmd));
      |s| == FrameSize && U32At(s, 0) == cmd &&
      U32At(s, 4) == 0 && U32At(s, 8) == 0 && U32At(s, 12) == 0 &&
      forall k :: HeaderSize <= k < FrameSize ==> s[k] == 0
  {
    var s := Encode(FromCmd(cmd));
    EncodeLayout(FromCmd(cmd));
    forall k | HeaderSize <= k < FrameSize
      ensures s[k] == 0
    {
      assert s[k] == s[HeaderSize..][k - HeaderSize];
    }
  }
}
