# Proxmark host driver: protocol layer in Dafny

This project models the protocol layer of the Python Proxmark host driver in
`proxmark.py`. The driver talks to a Proxmark RFID device over USB bulk
transfers in fixed-layout frames. The model covers:

- **the `USBCommand` frame**: four unsigned 32-bit header fields (`cmd`,
  `ext1`, `ext2`, `ext3`) and a payload `buf`, together with their byte
  encoding (`str(USBCommand)`) and decoding (`USBCommand(blob)`);
- **antenna tuning** (`tune`): opcode 0x400 goes out, a 0x401 reply comes
  back, and that reply's extension fields split into three antenna readings;
- **the chunked sample download** (`samples`): one 0x204 request per offset
  0, 12, 24, … below `min(n, 16000)`, each answered by a 0x205 reply whose
  payload bytes `b` become samples `b - 128`;
- **the message drain** (`read_msgs`) and the small request builders
  (`lf_read`, `hf_read_iso14443a` and the fire-and-forget operations).

The USB device is the class `Driver.UsbDevice`. It logs every buffer passed
to `bulkWrite` in `written`. It answers `bulkRead` from a script `replies`,
in which each element is either the bytes of one read or a failed read. Once
the script is used up, a read behaves like a timed-out read. `Driver.Proxmark`
holds this device as `dev`, like the Python object, and its methods change
only `dev`. Each method's postcondition ties the new log and the rest of the
script to pure functions of the old script: `Receive`, `DownloadChunks` and
`Drain` in module `Protocol`. The lemmas in `Protocol` then state what those
functions guarantee.

Modules, leaves first:

| file | module | contents |
|---|---|---|
| wire.dfy | `Wire` | `byte`, `u32`, the little-endian codec of `struct`'s `"I"` format |
| usb_command.dfy | `UsbCommand` | `Frame`, `ProxError`, `Result`, `FromCmd`, `Encode`, `Decode` |
| tuning.dfy | `Tuning` | `Antenna`, `DecodeTuning` |
| protocol.dfy | `Protocol` | the read script, the sample schedule and download, the drain |
| proxmark.dfy | `Driver` | classes `UsbDevice` and `Proxmark` |

Modelling decisions:

- `struct.pack("IIII", …)` and `struct.unpack` use the host's native byte
  order. The model assumes a little-endian host; big-endian hosts are not
  modelled (see "## Left out").
- The `samples` docstring describes `n` as a quarter of the number of
  samples wanted. The code advances the request offset by 12 per request,
  and each full reply carries 48 payload bytes. With full replies it
  therefore returns 48 * ceil(min(n, 16000) / 12) samples. For
  0 < n <= 16000 that is at least 4n and fewer than 4n + 48, and it is 528
  rather than 512 for the default n = 128. The model follows the code (`Protocol.DocstringSampleCount`,
  `Protocol.DefaultSampleCount`).
- The model follows the code in two places where a fixed 64-byte frame
  might suggest otherwise:
  - `Encode` appends `buf` exactly as it is. It does not pad or truncate
    `buf` to 48 bytes. A frame encodes to 64 bytes exactly when its `buf`
    has 48 bytes, as a frame built from an opcode does.
  - `Decode` of a blob of 1 to 15 bytes fails: `struct.unpack` raises on
    fewer than 16 header bytes, and the model returns `FrameTooShort`. An
    empty blob is falsy in `if blob:`. It therefore yields the default frame
    (opcode 0, 48 zero payload bytes) and raises no error.
- `x & 0xffff` and `x >> 16` on a non-negative integer below 2^32 are
  `x % 65536` and `x / 65536`. The model writes them that way (`Low16`,
  `High16`).
- An optional `x=None` argument is a `u32` whose value 0 stands for both
  `None` and `0`. Both are falsy and leave `ext1` at its default of 0.
- `ProxError` gathers the three ways an operation can fail:
  - `TransportError`: `bulkRead` raised.
  - `FrameTooShort`: `struct.unpack` raised.
  - `UnexpectedResponse(cmd)`: the driver raised `ProxError` on a wrong
    reply opcode.

## Model

| member | source | states |
|---|---|---|
| Wire.U32Bytes | proxmark.py:29 | the four bytes packed for a u32 read back, least significant first, as that same u32 |
| Wire.LeValueOfBytes | proxmark.py:29 | reading back the n little-endian bytes of any value below 256^n gives that value |
| Wire.LeBytesOfValue | proxmark.py:23 | re-encoding the value read from any bytes gives back exactly those bytes |
| Wire.U32AtBytes | proxmark.py:23 | the u32 unpacked from four bytes packs back to those same four bytes |
| UsbCommand.EncodeLayout | proxmark.py:28-31 | the encoding is 16 header bytes holding cmd, ext1, ext2, ext3 in that order, then `buf` unchanged |
| UsbCommand.Decode | proxmark.py:21-26 | decoding fails exactly for blobs of 1 to 15 bytes, with `FrameTooShort` carrying the length; an empty blob gives the class defaults (opcode 0, zero extension fields, 48 zero payload bytes); blobs of 16 or more bytes decode |
| UsbCommand.DecodeEncode | proxmark.py:21-31 | decoding an encoded frame returns the same four header fields and the same `buf` |
| UsbCommand.EncodeDecode | proxmark.py:21-31 | every blob of at least 16 bytes is the encoding of the frame it decodes to (header from bytes 0..15, `buf = blob[16:]`) |
| UsbCommand.CommandFrameLayout | proxmark.py:14-31 | a frame built from an opcode alone encodes to 64 bytes: that opcode, three zero fields, 48 zero payload bytes |
| Tuning.DecodeTuning | proxmark.py:100-111 | readings come in the order 125kHz, 134kHz, 13.56MHz; the LF voltages are the low and high 16 bits of ext1 (both below 65536); the HF voltage is ext2; both LF impedances are the low 16 bits of ext3; the HF impedance is its high 16 bits |
| Tuning.TuningDeterminesTelemetry | proxmark.py:105-109 | the readings determine ext1, ext2 and ext3: no telemetry bits are lost |
| Tuning.TuningExample | proxmark.py:105-109 | ext1 = 0x00140032, ext2 = 300, ext3 = 0x00100005 give 50 mV/5 Ω, 20 mV/5 Ω, 300 mV/16 Ω |
| Protocol.Receive | proxmark.py:82-86 | a receive consumes one read; it yields a frame only for read data that decodes; a failed read or an exhausted script gives `TransportError`, and undecodable data gives the decoding error |
| Protocol.Clamp | proxmark.py:121 | the sample count is capped at 16000 and is otherwise unchanged |
| Protocol.OffsetsShape | proxmark.py:123 | `xrange(i, stop, 12)` has ceil((stop - i) / 12) elements, and the k-th is i + 12k |
| Protocol.ChunkSchedule | proxmark.py:119-125 | `samples(n)` requests ceil(min(n, 16000) / 12) chunks, none when n <= 0, and the k-th at offset 12k |
| Protocol.ClampedScheduleExample | proxmark.py:121-123 | `samples(20000)` issues 1334 requests, the last at offset 15996 |
| Protocol.ToSample | proxmark.py:130 | a sample lies in -128..127 and is its payload byte minus 128 |
| Protocol.ToSamples | proxmark.py:129-130 | a payload gives as many samples as it has bytes, the k-th being byte k minus 128 |
| Protocol.DownloadRequests | proxmark.py:119-125 | the k-th request sent is opcode 0x204 with ext1 = the k-th offset; a successful download sends one request per offset; a failed one sends at least one |
| Protocol.DownloadSuccess | proxmark.py:123-131 | a download succeeds exactly when each of its reads is a decodable 0x205 frame; the result is then the concatenated payload samples in request order, and exactly those reads are consumed |
| Protocol.DownloadFailure | proxmark.py:123-128 | a failed download stops at the first rejected read, with that read's error (a 0x205 mismatch gives `UnexpectedResponse` with the opcode seen) and nothing after it consumed |
| Protocol.ChunkSamplesLength | proxmark.py:129-131 | the sample list has the length of all payloads together, and every sample lies in -128..127 |
| Protocol.FullFrameChunks | proxmark.py:129-130 | when every reply is a 64-byte frame, each chunk contributes 48 samples |
| Protocol.FullDownloadSize | proxmark.py:113-131 | with full 64-byte 0x205 replies, `samples(n)` returns 48 * ceil(min(n, 16000) / 12) samples, all in -128..127 |
| Protocol.DocstringSampleCount | proxmark.py:113-131 | for 0 < n <= 16000 and full 64-byte 0x205 replies, `samples(n)` returns at least 4n and fewer than 4n + 48 samples |
| Protocol.DefaultSampleCount | proxmark.py:113-131 | the default `samples()` returns 528 samples from full replies |
| Protocol.DrainPrefix | proxmark.py:133-144 | the drained messages are, in order, exactly the replies decoded before the first failing receive; that receive is consumed, no later one is, and its error is not returned |
| Driver.AppendSamples | proxmark.py:129-130 | the loop appends byte - 128 for each payload byte, in order |
| Driver.UsbDevice.BulkWrite | proxmark.py:80 | a bulk write appends its buffer to the log and leaves the reply script alone |
| Driver.UsbDevice.BulkRead | proxmark.py:83 | a bulk read consumes one scripted reply; it fails on a failed read or an empty script |
| Driver.Proxmark.SendCmd | proxmark.py:78-80 | sending writes exactly the encoding of the frame |
| Driver.Proxmark.Send | proxmark.py:74-76 | sending an opcode writes the encoding of the frame built from that opcode |
| Driver.Proxmark.RecvCmd | proxmark.py:82-86 | receiving is `Receive` applied to the script, and writes nothing |
| Driver.Proxmark.Tune | proxmark.py:90-111 | tune writes one 0x400 frame and reads one reply; a failed read or an opcode other than 0x401 gives an error and no readings; otherwise it returns `DecodeTuning` of the reply |
| Driver.Proxmark.FetchChunk | proxmark.py:124-130 | one pass of the download loop writes its request and applies `ChunkReply` to the script |
| Driver.Proxmark.Samples | proxmark.py:113-131 | the frames written, the script left and the result are those of `DownloadChunks` over the clamped offset schedule |
| Driver.Proxmark.ReadMsgs | proxmark.py:133-144 | the messages returned and the script left are those of `Drain`, and nothing is written |
| Driver.Proxmark.LfRead | proxmark.py:158-164 | writes opcode 0x203 with ext1 = 1 exactly in high mode (else 0), then returns the one reply read |
| Driver.Proxmark.LfRead125khz | proxmark.py:148-151 | `lf_read()` and then `samples(128)`; a failed debug read ends it with that error |
| Driver.Proxmark.LfRead134khz | proxmark.py:153-156 | `lf_read(highMode=True)` and then `samples(128)`; a failed debug read ends it with that error |
| Driver.Proxmark.HfReadIso14443a | proxmark.py:179-185 | writes opcode 0x301 with ext1 = x and reads one reply; a failed read ends it with that error, otherwise it returns `samples(1000)` |
| Driver.Proxmark.LfXmit | proxmark.py:166-168 | writes one 0x207 frame and reads nothing |
| Driver.Proxmark.LfHidFskDemod | proxmark.py:171-174 | writes one 0x208 frame and reads nothing |
| Driver.Proxmark.HfSnoopIso14443a | proxmark.py:187-189 | writes one 0x383 frame and reads nothing |
| Driver.Proxmark.HfIso14443aReader | proxmark.py:191-195 | writes one 0x385 frame with ext1 = x and reads nothing |
| Driver.Proxmark.HfReadIso15693 | proxmark.py:198-199 | writes one 0x300 frame and reads nothing |
| Driver.Proxmark.HfIso15693Reader | proxmark.py:201-202 | writes one 0x310 frame and reads nothing |
| Driver.Proxmark.HfSimIso15693 | proxmark.py:204-208 | writes one 0x311 frame with ext1 = x and reads nothing |

## Left out

- Device discovery (`_find`, matching vendor 0x9ac4 and product 0x4b8f) is not modelled. Neither is the setup in `__init__`: opening the device, setting the configuration, detaching the kernel driver and claiming the interface. All of it is I/O through the `usb` library, which is not part of this model. `Driver.Proxmark.constructor` starts from a device that is already open.
- The finalizer `__del__`, which releases the interface, is not modelled. It is resource cleanup with no effect on the frames exchanged.
- Big-endian hosts are not modelled: on such a host `struct.pack("IIII", …)` writes each header field most significant byte first, whereas `Wire` and `Encode`/`Decode` fix little-endian order.
- The endpoints (OUT 0x01, IN 0x82) and the 1000 ms timeouts are constants of the transport calls and are not modelled.
- Driver.UsbDevice.BulkWrite: a write never fails in the model. In the source, a write error or timeout raises out of every operation.
- Driver.UsbDevice.BulkRead: a scripted reply may have any length. The real `bulkRead(0x82, 64, 1000)` returns at most 64 bytes, so the model admits more read results than the device can produce.
- Driver.Proxmark.HfReadIso14443a: `x` is a `u32`. A Python integer outside 0..2^32-1 would make `struct.pack` raise. The same holds for `HfIso14443aReader` and `HfSimIso15693`.
- Driver.Proxmark.LfXmit: the source's `data` argument is never used, so the method takes no argument.
- The `Antenna.__str__` and `ProxError.__str__` text formatting and the text of the error messages are left out; errors are told apart by `ProxError` case and opcode.
- The float defaults `voltage = 0.0` and `impedance = 0.0` of `Antenna` are left out. `tune` always overwrites them with integers, so readings are naturals.
- What the device firmware does with the streaming and emulation opcodes (HID demodulation, snooping, reader emulation) is left out. Only the frame the host sends is observable here.
- The bit-vector form of `& 0xffff` and `>> 16` is not modelled; the arithmetic form is used, as explained above.
