/**
  Antenna tuning telemetry: the reply to a tune request (opcode 0x400)
  carries three antennas' voltages and impedances packed into `ext1`,
  `ext2` and `ext3`.
 */
module Tuning {
  import opened Wire
  import opened UsbCommand

  const TuneRequest: u32 := 0x400
  const TuneReply: u32 := 0x401

  datatype Antenna = Antenna(name: string, voltage: nat, impedance: nat)

  /** `x & 0xffff` for a u32 x. */
  function Low16(x: u32): nat
  {
    x % 65536
  }

  /** `x >> 16` for a u32 x. */
  function High16(x: u32): nat
  {
    x / 65536
  }

  /**
    The three readings, in the order 125kHz, 134kHz, 13.56MHz. The two LF
    antennas share the low half of `ext3` as their impedance.
   */
  function DecodeTuning(resp: Frame): (r: (Antenna, Antenna, Antenna))
    ensures r.0.name == "125kHz" && r.1.name == "134kHz" && r.2.name == "13.56MHz"
    ensures r.0.voltage < 65536 && r.1.voltage < 65536
    ensures r.0.voltage + 65536 * r.1.voltage == resp.ext1
    ensures r.2.voltage == resp.ext2
    ensures r.0.impedance == r.1.impedance < 65536 && r.2.impedance < 65536
    ensures r.0.impedance + 65536 * r.2.impedance == resp.ext3
  {
    var lf125 := Antenna("125kHz", Low16(resp.ext1), Low16(resp.ext3));
    var lf134 := Antenna("134kHz", High16(resp.ext1), Low16(resp.ext3));
    var hf := Antenna("13.56MHz", resp.ext2, High16(resp.ext3));
    (lf125, lf134, hf)
  }

  /**
    The readings determine the three extension fields: two replies that
    decode to the same readings carry the same telemetry.
   */
  lemma TuningDeterminesTelemetry(a: Frame, b: Frame)
    requires DecodeTuning(a) == DecodeTuning(b)
    ensures a.ext1 == b.ext1 && a.ext2 == b.ext2 && a.ext3 == b.ext3
  {
    var ra, rb := DecodeTuning(a), DecodeTuning(b);
    assert ra.0.voltage + 65536 * ra.1.voltage == a.ext1;
    assert rb.0.voltage + 65536 * rb.1.voltage == b.ext1;
  }

  /** A worked reply: ext1 = 0x00140032, ext2 = 300, ext3 = 0x00100005. */
  lemma TuningExample()
    ensures var r := DecodeTuning(Frame(TuneReply, 0x0014_0032, 300, 0x0010_0005, []));
      r.0 == Antenna("125kHz", 50, 5) &&
      r.1 == Antenna("134kHz", 20, 5) &&
      r.2 == Antenna("13.56MHz", 300, 16)
  {
  }
}
