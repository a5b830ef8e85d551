/**
 * The checksum unit: a table-driven CRC-16 with the CCITT generator polynomial
 * 0x1021, initial value 0, most significant bit first, no reflection and no final
 * XOR (the CRC-16/XMODEM parameter set).
 *
 * JavaScript evaluates `<<`, `&` and `^` on 32-bit two's-complement integers, which
 * `bv32` reproduces bit for bit. Its `>>` is an arithmetic shift; the only value it is
 * applied to is the running checksum, which stays below 2^16, where it agrees with
 * the logical shift used here.
 */
module Crc {

  /** The generator polynomial x^16 + x^12 + x^5 + 1 without its x^16 term. */
  const Poly: bv32 := 0x1021

  /** One pass of the table-building loop body: shift left, XOR the polynomial when bit 15 was set. */
  function ShiftStep(c: bv32): bv32 {
    if c & 0x8000 != 0 then (c << 1) ^ Poly else c << 1
  }

  /** `n` passes of the table-building loop body, starting from `c`. */
  function Shifts(c: bv32, n: nat): bv32 {
    if n == 0 then c else ShiftStep(Shifts(c, n - 1))
  }

  /** The value the table-building loop starts from for entry `i`: `i << 8`. */
  function Seed(i: bv8): bv32 {
    (i as bv32) << 8
  }

  /** The low 16 bits of a 32-bit value: `& 0xffff`, as stored in a `Uint16Array`. */
  function Low16(c: bv32): bv16 {
    (c & 0xFFFF) as bv16
  }

  /** Entry `i` of the lookup table: eight passes from `i << 8`, masked to 16 bits only at the end. */
  function TableEntry(i: bv8): bv16 {
    Low16(Shifts(Seed(i), 8))
  }

  /** Exclusive or of two register values. */
  function Xor(a: bv16, b: bv16): bv16 {
    a ^ b
  }

  /** The register of the textbook bit-at-a-time CRC, kept to 16 bits after every shift: shift left and
      XOR the polynomial exactly when the bit shifted out was 1 (`0 - (r >> 15)` is then all ones). */
  function RegStep(r: bv16): bv16 {
    (r << 1) ^ (0x1021 & (0 - (r >> 15)))
  }

  /** `n` shifts of the 16-bit register. */
  function RegSteps(r: bv16, n: nat): bv16 {
    if n == 0 then r else RegStep(RegSteps(r, n - 1))
  }

  /** A 16-bit value read as a 32-bit JavaScript integer. */
  function Widen(r: bv16): bv32 {
    r as bv32
  }

  /** A byte moved to the top half of the 16-bit register. */
  function High(b: bv8): bv16 {
    (b as bv16) << 8
  }

  /** The low byte of the register, still in its low half. */
  function LowByte(r: bv16): bv16 {
    r & 0xFF
  }

  /** The register shifted up by a byte. */
  function Up(r: bv16): bv16 {
    r << 8
  }

  /** The register with the next message byte XORed into its top half. */
  function Feed(r: bv16, b: bv8): bv16 {
    Xor(r, High(b))
  }

  /** Bit-at-a-time CRC of one byte: XOR the byte into the top of the register, then shift eight times. */
  function BitwiseStep(r: bv16, b: bv8): bv16 {
    RegSteps(Feed(r, b), 8)
  }

  /** Bit-at-a-time CRC of `data` with the register started at `r`: the reference definition. */
  function BitwiseFrom(r: bv16, data: seq<bv8>): bv16 {
    if data == [] then r else BitwiseStep(BitwiseFrom(r, data[..|data| - 1]), data[|data| - 1])
  }

  /** `tableIndex` in `crc16hqx`: the top byte of the running checksum XOR the next byte. */
  function Index(crc: bv32, b: bv8): bv8 {
    (((crc >> 8) ^ (b as bv32)) & 0xFF) as bv8
  }

  /** `(crc << 8) & 0xffff`: the low byte of the running checksum moved up. */
  function Carry(crc: bv32): bv32 {
    (crc << 8) & 0xFFFF
  }

  /** The body of the loop in `crc16hqx`: one byte through the lookup table. */
  function TableStep(crc: bv32, b: bv8): (r: bv32)
    ensures r < 0x10000
  {
    Carry(crc) ^ Widen(TableEntry(Index(crc, b)))
  }

  /** The running checksum after feeding `data` to the table-driven loop started at `crc`. */
  function CrcFrom(crc: bv32, data: seq<bv8>): bv32 {
    if data == [] then crc else TableStep(CrcFrom(crc, data[..|data| - 1]), data[|data| - 1])
  }

  /** `crc16hqx(data)`: the table-driven checksum started from 0; always a 16-bit value. */
  function Crc16(data: seq<bv8>): (r: bv32)
    ensures r < 0x10000
    ensures data == [] ==> r == 0
  {
    CrcFrom(0, data)
  }

  /** The array holds exactly the lookup table. */
  ghost predicate IsCrcTable(table: array<bv16>)
    reads table
  {
    table.Length == 256 && forall i: bv8 :: table[i as int] == TableEntry(i)
  }

  // ---------------------------------------------------------------------------
  // Table construction and the checksum loop
  // ---------------------------------------------------------------------------

  /** The callback of `crc16Table`'s `map`: the eight-iteration loop for entry `i`. */
  method ComputeEntry(i: bv8) returns (entry: bv16)
    ensures entry == TableEntry(i)
  {
    var c := Seed(i);
    var j := 0;
    while j < 8
      invariant 0 <= j <= 8
      invariant c == Shifts(Seed(i), j)
    {
      c := ShiftStep(c);
      j := j + 1;
    }
    entry := Low16(c);
  }

  /** `crc16Table`: a fresh 256-entry array filled entry by entry. */
  method BuildTable() returns (table: array<bv16>)
    ensures fresh(table)
    ensures IsCrcTable(table)
  {
    table := new bv16[256];
    var i := 0;
    while i < 256
      invariant 0 <= i <= 256
      invariant forall k: bv8 :: k as int < i ==> table[k as int] == TableEntry(k)
    {
      var e := ComputeEntry(i as bv8);
      table[i] := e;
      i := i + 1;
    }
  }

  /** `crc16hqx`: the checksum loop over the bytes, reading the table built above. */
  method Crc16Hqx(table: array<bv16>, data: seq<bv8>) returns (crc: bv32)
    requires IsCrcTable(table)
    ensures crc == Crc16(data)
  {
    crc := 0;
    var i := 0;
    while i < |data|
      invariant 0 <= i <= |data|
      invariant crc == CrcFrom(0, data[..i])
    {
      ghost var prev := crc;
      var tableIndex := Index(crc, data[i]);
      crc := Carry(crc) ^ Widen(table[tableIndex as int]);
      assert crc == TableStep(prev, data[i]);
      CrcPrefixStep(data, i, prev, crc);
      i := i + 1;
    }
    assert data[..i] == data;
  }

  // ---------------------------------------------------------------------------
  // Properties
  // ---------------------------------------------------------------------------

  /** Bits above 15 never reach the 0x8000 test: one pass commutes with masking to 16 bits. */
  lemma ShiftStepMasked(c: bv32)
    ensures Low16(ShiftStep(c)) == RegStep(Low16(c))
  {
    if c & 0x8000 != 0 {
      assert ShiftStep(c) == (c << 1) ^ Poly;
      assert Low16(c) >> 15 == 1;
    } else {
      assert ShiftStep(c) == c << 1;
      assert Low16(c) >> 15 == 0;
    }
  }

  /** So do `n` passes: the 32-bit loop, masked at the end, is the 16-bit register. */
  lemma {:induction false} ShiftsMasked(c: bv32, n: nat)
    ensures Low16(Shifts(c, n)) == RegSteps(Low16(c), n)
  {
    if n > 0 {
      ShiftsMasked(c, n - 1);
      ShiftStepMasked(Shifts(c, n - 1));
    }
  }

  /** Passes from zero stay at zero: no bit is ever set to test. */
  lemma {:induction false} ShiftsOfZero(n: nat)
    ensures Shifts(0, n) == 0
  {
    if n > 0 {
      ShiftsOfZero(n - 1);
    }
  }

  /** Entry 0 of the table is 0. */
  lemma TableEntryZero()
    ensures TableEntry(0) == 0
  {
    ShiftsOfZero(8);
  }

  /** Entry `i` is eight steps of the 16-bit register started from `i << 8`. */
  lemma TableEntryIsRegister(i: bv8)
    ensures TableEntry(i) == RegSteps(High(i), 8)
  {
    ShiftsMasked(Seed(i), 8);
    assert Low16(Seed(i)) == High(i);
  }

  /** The register step distributes over `^`. */
  lemma RegStepDistributes(x: bv16, y: bv16)
    ensures RegStep(x ^ y) == RegStep(x) ^ RegStep(y)
  {
  }

  /** The register step is linear over XOR. */
  lemma RegStepLinear(x: bv16, y: bv16)
    ensures RegStep(Xor(x, y)) == Xor(RegStep(x), RegStep(y))
  {
    RegStepDistributes(x, y);
  }

  /** So are any number of them. */
  lemma {:induction false} RegStepsLinear(x: bv16, y: bv16, n: nat)
    ensures RegSteps(Xor(x, y), n) == Xor(RegSteps(x, n), RegSteps(y, n))
  {
    if n > 0 {
      RegStepsLinear(x, y, n - 1);
      RegStepLinear(RegSteps(x, n - 1), RegSteps(y, n - 1));
    }
  }

  /** Eight register shifts, written out. */
  lemma RegStepsEight(r: bv16)
    ensures RegSteps(r, 8) == RegStep(RegStep(RegStep(RegStep(RegStep(RegStep(RegStep(RegStep(r))))))))
  {
    assert RegSteps(r, 1) == RegStep(r);
    assert RegSteps(r, 2) == RegStep(RegSteps(r, 1));
    assert RegSteps(r, 3) == RegStep(RegSteps(r, 2));
    assert RegSteps(r, 4) == RegStep(RegSteps(r, 3));
    assert RegSteps(r, 5) == RegStep(RegSteps(r, 4));
    assert RegSteps(r, 6) == RegStep(RegSteps(r, 5));
    assert RegSteps(r, 7) == RegStep(RegSteps(r, 6));
  }

  /** A register holding only a low byte is just shifted up by eight steps: no polynomial is XORed in. */
  lemma RegSteps8Low(r: bv16)
    ensures RegSteps(LowByte(r), 8) == Up(LowByte(r))
  {
    RegStepsEight(LowByte(r));
  }

  /** The top half of a register. */
  function HighHalf(r: bv16): bv16 {
    r & 0xFF00
  }

  /** Feeding a byte touches only the top half of the register. */
  lemma FeedHalves(r: bv16, b: bv8)
    ensures Feed(r, b) == Xor(Xor(HighHalf(r), High(b)), LowByte(r))
  {
  }

  /** The table index, moved up, is the top half of the register XOR the fed byte moved up. */
  lemma IndexHigh(r: bv16, b: bv8)
    ensures High(Index(Widen(r), b)) == Xor(HighHalf(r), High(b))
  {
  }

  /** The fed register splits into the table index (top half) and the old low byte. */
  lemma FeedSplits(r: bv16, b: bv8)
    ensures Feed(r, b) == Xor(High(Index(Widen(r), b)), LowByte(r))
  {
    FeedHalves(r, b);
    IndexHigh(r, b);
  }

  /** The carried part of the table-driven step is the old low byte moved up. */
  lemma CarryIsLowByte(r: bv16)
    ensures Carry(Widen(r)) == Widen(Up(LowByte(r)))
  {
  }

  /** Eight register shifts after feeding a byte: the table entry for the index, XOR the low byte moved up. */
  lemma BitwiseStepSplits(r: bv16, b: bv8)
    ensures BitwiseStep(r, b) == Xor(TableEntry(Index(Widen(r), b)), Up(LowByte(r)))
  {
    var index := Index(Widen(r), b);
    FeedSplits(r, b);
    RegStepsLinear(High(index), LowByte(r), 8);
    RegSteps8Low(r);
    TableEntryIsRegister(index);
  }

  /** The table-driven step on a 16-bit checksum: the same two parts. */
  lemma TableStepSplits(r: bv16, b: bv8)
    ensures TableStep(Widen(r), b) == Widen(Xor(TableEntry(Index(Widen(r), b)), Up(LowByte(r))))
  {
    CarryIsLowByte(r);
  }

  /** One table lookup does the work of eight register shifts. */
  lemma TableStepIsBitwise(r: bv16, b: bv8)
    ensures TableStep(Widen(r), b) == Widen(BitwiseStep(r, b))
  {
    BitwiseStepSplits(r, b);
    TableStepSplits(r, b);
  }

  /** The table-driven checksum equals the bit-at-a-time CRC over the same bytes. */
  lemma {:induction false} TableDrivenIsBitwise(r: bv16, data: seq<bv8>)
    ensures CrcFrom(Widen(r), data) == Widen(BitwiseFrom(r, data))
  {
    if data != [] {
      var front := data[..|data| - 1];
      TableDrivenIsBitwise(r, front);
      TableStepIsBitwise(BitwiseFrom(r, front), data[|data| - 1]);
    }
  }

  /** `crc16hqx` computes the CRC-16/XMODEM of its input. */
  lemma Crc16IsBitwise(data: seq<bv8>)
    ensures Crc16(data) == Widen(BitwiseFrom(0, data))
  {
    TableDrivenIsBitwise(0, data);
  }

  /** The checksum is a left fold: feeding `a + b` continues from where feeding `a` stopped. */
  lemma {:induction false} CrcAppend(crc: bv32, a: seq<bv8>, b: seq<bv8>)
    ensures CrcFrom(crc, a + b) == CrcFrom(CrcFrom(crc, a), b)
  {
    if b == [] {
      assert a + b == a;
    } else {
      var front := b[..|b| - 1];
      assert (a + b)[..|a + b| - 1] == a + front;
      CrcAppend(crc, a, front);
    }
  }

  /** Appending one byte costs one table step. */
  lemma CrcSnoc(crc: bv32, data: seq<bv8>, prev: bv32, b: bv8, next: bv32)
    requires CrcFrom(crc, data) == prev
    requires TableStep(prev, b) == next
    ensures CrcFrom(crc, data + [b]) == next
  {
    assert (data + [b])[..|data|] == data;
  }

  /** One more byte of the same data: the fold over the longer prefix is one more step. */
  lemma CrcPrefixStep(data: seq<bv8>, i: nat, prev: bv32, next: bv32)
    requires i < |data|
    requires CrcFrom(0, data[..i]) == prev && TableStep(prev, data[i]) == next
    ensures CrcFrom(0, data[..i + 1]) == next
  {
    assert data[..i] + [data[i]] == data[..i + 1];
    CrcSnoc(0, data[..i], prev, data[i], next);
  }

  /** The ASCII digits "123456789", the input of the catalogue check value. */
  const CheckDigits: seq<bv8> := [0x31, 0x32, 0x33, 0x34, 0x35, 0x36, 0x37, 0x38, 0x39]

  /** The checksum after each prefix of `CheckDigits`. */
  const CheckTrace: seq<bv32> := [0, 0x2672, 0x20B5, 0x9752, 0xD789, 0x546C, 0x20E4, 0x86D6, 0x9015, 0x31C3]

  /** Each digit moves the checksum one entry along the trace. */
  lemma CheckStep(k: nat)
    requires k < 9
    ensures TableStep(CheckTrace[k], CheckDigits[k]) == CheckTrace[k + 1]
  {
    if k == 0 {
      assert TableStep(0, 0x31) == 0x2672;
    } else if k == 1 {
      assert TableStep(0x2672, 0x32) == 0x20B5;
    } else if k == 2 {
      assert TableStep(0x20B5, 0x33) == 0x9752;
    } else if k == 3 {
      assert TableStep(0x9752, 0x34) == 0xD789;
    } else if k == 4 {
      assert TableStep(0xD789, 0x35) == 0x546C;
    } else if k == 5 {
      assert TableStep(0x546C, 0x36) == 0x20E4;
    } else if k == 6 {
      assert TableStep(0x20E4, 0x37) == 0x86D6;
    } else if k == 7 {
      assert TableStep(0x86D6, 0x38) == 0x9015;
    } else {
      assert TableStep(0x9015, 0x39) == 0x31C3;
    }
  }

  /** A trace whose every entry is the table step of the one before from the matching byte ends in the checksum. */
  lemma {:induction false} TraceFold(crc: bv32, data: seq<bv8>, trace: seq<bv32>)
    requires |trace| == |data| + 1 && trace[0] == crc
    requires forall k | 0 <= k < |data| :: TableStep(trace[k], data[k]) == trace[k + 1]
    ensures CrcFrom(crc, data) == trace[|data|]
  {
    if data != [] {
      var n := |data| - 1;
      TraceFold(crc, data[..n], trace[..n + 1]);
      assert data[..n] + [data[n]] == data;
      CrcSnoc(crc, data[..n], trace[n], data[n], trace[n + 1]);
    }
  }

  /** The catalogue check value of CRC-16/XMODEM: the ASCII digits "123456789" give 0x31C3. */
  lemma CheckValue()
    ensures Crc16(CheckDigits) == 0x31C3
  {
    forall k | 0 <= k < 9
      ensures TableStep(CheckTrace[k], CheckDigits[k]) == CheckTrace[k + 1]
    {
      CheckStep(k);
    }
    TraceFold(0, CheckDigits, CheckTrace);
  }
}
