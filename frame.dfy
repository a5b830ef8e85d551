/**
 * The 17-byte memory-write frames the controller sends to the subwoofer to set its
 * volume or its phase: a header (preamble, command, little-endian frame length), a
 * payload (parameter id, memory offset, byte count, little-endian 16-bit value) and
 * the little-endian CRC-16/XMODEM of everything before it.
 *
 * JavaScript numbers are modelled as unbounded integers; the bitwise operators the
 * frame builder applies to them (`& 0xFF`, `>> 8`) are written out with their 32-bit
 * two's-complement conversion, and a `Uint8Array` holds `Byte`s.
 */
module Frame {
  import opened Wrappers
  import Crc

  /** One element of a `Uint8Array`. */
  type Byte = x: int | 0 <= x < 256

  /** First byte of every frame. */
  const Preamble: Byte := 0xAA
  /** The memory-write command, two bytes. */
  const MemWriteLo: Byte := 0xF0
  const MemWriteHi: Byte := 0x1F
  /** Parameter id and memory offset of the volume setting. */
  const VolumeId: Byte := 4
  const VolumeOffset: Byte := 0x2C
  /** Parameter id and memory offset of the phase setting. */
  const PhaseId: Byte := 4
  const PhaseOffset: Byte := 0x2E
  /** Number of value bytes a frame writes. */
  const NBytes: Byte := 2
  /** Length of a whole frame: five header bytes, ten payload bytes, two checksum bytes. */
  const FrameLength: int := 17

  /** JavaScript's ToInt32: the 32-bit two's-complement integer congruent to `x`. */
  function ToInt32(x: int): (r: int)
    ensures -0x8000_0000 <= r < 0x8000_0000
    ensures (x - r) % 0x1_0000_0000 == 0
  {
    var m := x % 0x1_0000_0000;
    if m >= 0x8000_0000 then m - 0x1_0000_0000 else m
  }

  /** JavaScript's `x & 0xFF`: the byte congruent to `x` modulo 256. */
  function AndFF(x: int): (r: Byte)
    ensures (x - r) % 256 == 0
  {
    ToInt32(x) % 256
  }

  /** JavaScript's `x >> 8`: the 32-bit value of `x` divided by 256, rounded down. */
  function Sar8(x: int): (r: int)
    ensures r * 256 <= ToInt32(x) < r * 256 + 256
  {
    ToInt32(x) / 256
  }

  /** `Math.floor(v * 10)` for a setting `v` that the user interface only produces as a whole number. */
  function Elevate(v: int): (r: int)
    ensures r / 10 == v && r % 10 == 0
  {
    10 * v
  }

  /** The value bytes of a payload, low byte first. */
  function DataBytes(value: int): seq<Byte> {
    [AndFF(value), AndFF(Sar8(value))]
  }

  /** The payload: parameter id, three zero bytes, memory offset, zero, byte count, zero, value bytes. */
  function Payload(id: Byte, offset: Byte, value: int): seq<Byte> {
    [id, 0, 0, 0, offset, 0, NBytes, 0] + DataBytes(value)
  }

  /** The header: preamble, command, and the frame length low byte first. */
  function Header(frameLength: int): seq<Byte> {
    [Preamble, MemWriteLo, MemWriteHi, AndFF(frameLength), AndFF(Sar8(frameLength))]
  }

  /** Header and payload, the part of the frame the checksum covers. */
  function Body(id: Byte, offset: Byte, value: int): seq<Byte> {
    var payload := Payload(id, offset, value);
    Header(|payload| + 7) + payload
  }

  /** The bytes handed to the checksum routine. */
  function AsBv8(bytes: seq<Byte>): (r: seq<bv8>)
    ensures |r| == |bytes|
  {
    seq(|bytes|, i requires 0 <= i < |bytes| => bytes[i] as bv8)
  }

  /**
   * The checksum of a frame body, as the number the checksum routine returns. That
   * number is below 2^16 (the bound `Crc.Crc16` ensures), so reading it through its
   * low 16 bits loses nothing.
   */
  function Checksum(body: seq<Byte>): (r: int)
    ensures 0 <= r < 0x10000
  {
    Crc.Low16(Crc.Crc16(AsBv8(body))) as int
  }

  /** Two bytes read as a little-endian 16-bit number. */
  function LittleEndian(lo: Byte, hi: Byte): (r: int)
    ensures 0 <= r < 0x10000
  {
    (lo as int) + 256 * (hi as int)
  }

  /** A frame body followed by the checksum bytes `crc & 0xFF` and `(crc >> 8) & 0xFF`. */
  function Seal(body: seq<Byte>, crc: int): (f: seq<Byte>)
    requires 0 <= crc < 0x10000
    ensures |f| == |body| + 2
    ensures f[..|body|] == body
    ensures LittleEndian(f[|body|], f[|body| + 1]) == crc
  {
    SmallBytes(crc);
    body + [AndFF(crc), AndFF(Sar8(crc))]
  }

  /** The frame `setVolume` and `setPhase` send: the body followed by its checksum, low byte first. */
  function EncodeFrame(id: Byte, offset: Byte, value: int): (f: seq<Byte>)
    ensures |f| == FrameLength
    ensures f[..5] == [Preamble, MemWriteLo, MemWriteHi, 17, 0]
    ensures f[5] == id && f[6] == 0 && f[7] == 0 && f[8] == 0
    ensures f[9] == offset && f[10] == 0 && f[11] == NBytes && f[12] == 0
    ensures LittleEndian(f[13], f[14]) == value % 0x10000
    ensures LittleEndian(f[15], f[16]) == Checksum(f[..15])
  {
    var body := Body(id, offset, value);
    BodyLayout(id, offset, value);
    DataBytesValue(value);
    Seal(body, Checksum(body))
  }

  /** The frame `setVolume(volume)` sends. */
  function VolumeFrame(volume: int): (f: seq<Byte>)
    ensures |f| == FrameLength
    ensures f[5] == VolumeId && f[9] == VolumeOffset
    ensures LittleEndian(f[13], f[14]) == (10 * volume) % 0x10000
    ensures LittleEndian(f[15], f[16]) == Checksum(f[..15])
  {
    EncodeFrame(VolumeId, VolumeOffset, Elevate(volume))
  }

  /** The frame `setPhase(degrees)` sends. */
  function PhaseFrame(degrees: int): (f: seq<Byte>)
    ensures |f| == FrameLength
    ensures f[5] == PhaseId && f[9] == PhaseOffset
    ensures LittleEndian(f[13], f[14]) == (10 * degrees) % 0x10000
    ensures LittleEndian(f[15], f[16]) == Checksum(f[..15])
  {
    EncodeFrame(PhaseId, PhaseOffset, Elevate(degrees))
  }

  /** A 16-bit value read as two's complement. */
  function Signed16(u: int): (r: int)
    requires 0 <= u < 0x10000
    ensures -0x8000 <= r < 0x8000
    ensures (u - r) % 0x10000 == 0
  {
    if u >= 0x8000 then u - 0x10000 else u
  }

  /** A decoded memory write: which parameter, where, and the signed 16-bit value. */
  datatype Write = Write(id: Byte, offset: Byte, value: int)

  /**
   * A reader of frames, defined here as the encoder's partner; the source contains no such
   * reader. It accepts a frame with the encoder's layout and a matching checksum, and
   * returns the write it carries.
   */
  function DecodeFrame(f: seq<Byte>): (r: Option<Write>)
    ensures r.Some? ==> -0x8000 <= r.value.value < 0x8000
  {
    if |f| == FrameLength && f[..5] == [Preamble, MemWriteLo, MemWriteHi, 17, 0]
      && f[6] == 0 && f[7] == 0 && f[8] == 0 && f[10] == 0 && f[11] == NBytes && f[12] == 0
      && LittleEndian(f[15], f[16]) == Checksum(f[..15])
    then Some(Write(f[5], f[9], Signed16(LittleEndian(f[13], f[14]))))
    else None
  }

  /** The fifteen bytes of a frame body, one by one. */
  lemma BodyLayout(id: Byte, offset: Byte, value: int)
    ensures Body(id, offset, value)
         == [Preamble, MemWriteLo, MemWriteHi, 17, 0, id, 0, 0, 0, offset, 0, NBytes, 0, DataBytes(value)[0], DataBytes(value)[1]]
  {
    SmallBytes(17);
  }

  /** Integers inside the 32-bit range are their own ToInt32. */
  lemma ToInt32Small(x: int)
    requires -0x8000_0000 <= x < 0x8000_0000
    ensures ToInt32(x) == x
  {
  }

  /** A non-negative integer below 2^16 splits into `x & 0xFF` and `(x >> 8) & 0xFF`. */
  lemma SmallBytes(x: int)
    requires 0 <= x < 0x10000
    ensures AndFF(x) == x % 256 && AndFF(Sar8(x)) == x / 256
  {
    ToInt32Small(x);
    ToInt32Small(x / 256);
  }

  /** Division with remainder by 2^16 is unique. */
  lemma ModUnique(t: int, k: int, m: int)
    requires t == 0x10000 * k + m && 0 <= m < 0x10000
    ensures t % 0x10000 == m
  {
  }

  /** The low sixteen bits of `t` are its low byte and the low byte of `t / 256`. */
  lemma ModSplit(t: int)
    ensures t % 0x10000 == 256 * ((t / 256) % 256) + t % 256
  {
    var q := t / 256;
    assert t == 256 * q + t % 256;
    assert q == 256 * (q / 256) + q % 256;
    ModUnique(t, q / 256, 256 * (q % 256) + t % 256);
  }

  /** Numbers congruent modulo 2^32 are congruent modulo 2^16. */
  lemma CongruentLow16(a: int, b: int)
    requires (a - b) % 0x1_0000_0000 == 0
    ensures a % 0x10000 == b % 0x10000
  {
    var k := (a - b) / 0x1_0000_0000;
    assert a == b + 0x1_0000_0000 * k;
    ModUnique(a, b / 0x10000 + 0x10000 * k, b % 0x10000);
  }

  /** The two value bytes, read back little-endian, give the value modulo 2^16. */
  lemma DataBytesValue(value: int)
    ensures LittleEndian(DataBytes(value)[0], DataBytes(value)[1]) == value % 0x10000
  {
    var t := ToInt32(value);
    ToInt32Small(t / 256);
    ModSplit(t);
    CongruentLow16(value, t);
  }

  /** Little-endian reading is one-to-one: equal numbers come from equal bytes. */
  lemma LittleEndianInjective(lo: Byte, hi: Byte, lo': Byte, hi': Byte)
    requires LittleEndian(lo, hi) == LittleEndian(lo', hi')
    ensures lo == lo' && hi == hi'
  {
  }

  /** A 16-bit value in the signed range reads back as itself. */
  lemma Signed16Small(value: int)
    requires -0x8000 <= value < 0x8000
    ensures Signed16(value % 0x10000) == value
  {
  }

  /** Two's-complement reading undone: the signed value is congruent to the unsigned one. */
  lemma Signed16Low(u: int)
    requires 0 <= u < 0x10000
    ensures Signed16(u) % 0x10000 == u
  {
  }

  /** The value bytes the sliders' defaults and extremes produce: volume 0 and -29, phase 77. */
  lemma DataBytesExamples()
    ensures DataBytes(Elevate(0)) == [0x00, 0x00]
    ensures DataBytes(Elevate(-29)) == [0xDE, 0xFE]
    ensures DataBytes(Elevate(77)) == [0x02, 0x03]
  {
  }

  /** The reader gives back what the encoder wrote, the value taken modulo 2^16 as a signed number. */
  lemma DecodeEncode(id: Byte, offset: Byte, value: int)
    ensures DecodeFrame(EncodeFrame(id, offset, value)) == Some(Write(id, offset, Signed16(value % 0x10000)))
  {
  }

  /** For a value that fits in 16 signed bits, the round trip is exact. */
  lemma DecodeEncodeExact(id: Byte, offset: Byte, value: int)
    requires -0x8000 <= value < 0x8000
    ensures DecodeFrame(EncodeFrame(id, offset, value)) == Some(Write(id, offset, value))
  {
    DecodeEncode(id, offset, value);
    Signed16Small(value);
  }

  /** Every frame the reader accepts is the encoder's frame for what it decodes to. */
  lemma EncodeDecode(f: seq<Byte>)
    requires DecodeFrame(f).Some?
    ensures EncodeFrame(DecodeFrame(f).value.id, DecodeFrame(f).value.offset, DecodeFrame(f).value.value) == f
  {
    var w := DecodeFrame(f).value;
    var g := EncodeFrame(w.id, w.offset, w.value);
    Signed16Low(LittleEndian(f[13], f[14]));
    LittleEndianInjective(g[13], g[14], f[13], f[14]);
    assert g[..15] == f[..15] by {
      assert forall i | 0 <= i < 5 :: g[i] == g[..5][i] && f[i] == f[..5][i];
    }
    LittleEndianInjective(g[15], g[16], f[15], f[16]);
    assert forall i | 0 <= i < 15 :: g[i] == g[..15][i];
  }

  /** The value bytes only see the value modulo 2^16. */
  lemma DataBytesWrap(value: int)
    ensures DataBytes(value + 0x10000) == DataBytes(value)
  {
    DataBytesValue(value);
    DataBytesValue(value + 0x10000);
    ModUnique(value + 0x10000, value / 0x10000 + 1, value % 0x10000);
    LittleEndianInjective(DataBytes(value + 0x10000)[0], DataBytes(value + 0x10000)[1], DataBytes(value)[0], DataBytes(value)[1]);
  }

  /** Values that differ by a multiple of 2^16 produce the same frame: only the value modulo 2^16 is encoded. */
  lemma EncodeWraps(id: Byte, offset: Byte, value: int)
    ensures EncodeFrame(id, offset, value + 0x10000) == EncodeFrame(id, offset, value)
  {
    DataBytesWrap(value);
    assert Body(id, offset, value + 0x10000) == Body(id, offset, value);
  }

  /** Every volume the slider offers (-60 to 0 in whole steps) is encoded as tenths of a decibel, which the reader gives back exactly. */
  lemma VolumeFrameInRange(volume: int)
    requires -60 <= volume <= 0
    ensures DecodeFrame(VolumeFrame(volume)) == Some(Write(VolumeId, VolumeOffset, 10 * volume))
  {
    DecodeEncodeExact(VolumeId, VolumeOffset, Elevate(volume));
  }

  /** Every phase the slider offers (-180 to 180 degrees in whole steps) is encoded as tenths of a degree, which the reader gives back exactly. */
  lemma PhaseFrameInRange(degrees: int)
    requires -180 <= degrees <= 180
    ensures DecodeFrame(PhaseFrame(degrees)) == Some(Write(PhaseId, PhaseOffset, 10 * degrees))
  {
    DecodeEncodeExact(PhaseId, PhaseOffset, Elevate(degrees));
  }

  /** Volume and phase share a parameter id: their frames for one number differ only in the memory offset and the checksum. */
  lemma VolumeAndPhaseDiffer(v: int)
    ensures forall i | 0 <= i < 15 && i != 9 :: VolumeFrame(v)[i] == PhaseFrame(v)[i]
    ensures VolumeFrame(v)[9] != PhaseFrame(v)[9]
  {
    var vf, pf := VolumeFrame(v), PhaseFrame(v);
    assert forall i | 0 <= i < 5 :: vf[i] == vf[..5][i] && pf[i] == pf[..5][i];
    LittleEndianInjective(vf[13], vf[14], pf[13], pf[14]);
  }
}
