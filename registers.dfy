/** The run-control register file: a 0x10000-byte memory window (the mmap
    of the board's UIO device) holding 32-bit registers, little-endian,
    register a at bytes 4a..4a+3.  Only registers 0..50 are addressed. */
module RegisterBuffer {
  import opened Text

  type byte = x: int | 0 <= x < 256

  const BUFFER_SIZE: nat := 0x10000
  const MAX_REGISTER_ADDRESS: int := 50
  const WORD_RANGE: nat := 0x1_0000_0000

  /** The mapped window, as a value. */
  type Buffer = s: seq<byte> | |s| == BUFFER_SIZE witness seq(0x10000, _ => 0)

  /** checkRegBoundary: both ends inclusive. */
  predicate InRange(addr: int) { 0 <= addr <= MAX_REGISTER_ADDRESS }

  /** int.from_bytes(b, byteorder='little') of four bytes. */
  function FromBytes(b: seq<byte>): (v: nat)
    requires |b| == 4
    ensures v < WORD_RANGE
  {
    b[0] as int + 0x100 * b[1] as int + 0x1_0000 * b[2] as int + 0x100_0000 * b[3] as int
  }

  /** int.to_bytes(v, 4, byteorder='little'). */
  function ToBytes(v: nat): (b: seq<byte>)
    requires v < WORD_RANGE
    ensures |b| == 4
  {
    [v % 0x100, v / 0x100 % 0x100, v / 0x1_0000 % 0x100, v / 0x100_0000]
  }

  lemma ToBytesRoundTrip(v: nat)
    requires v < WORD_RANGE
    ensures FromBytes(ToBytes(v)) == v
  {
    var b0, q0 := v % 0x100, v / 0x100;
    var b1, q1 := q0 % 0x100, q0 / 0x100;
    var b2, b3 := q1 % 0x100, q1 / 0x100;
    assert v == b0 + 0x100 * q0 && q0 == b1 + 0x100 * q1 && q1 == b2 + 0x100 * b3;
    assert v / 0x1_0000 == q1;
    assert v / 0x100_0000 == b3;
  }

  lemma FromBytesRoundTrip(b: seq<byte>)
    requires |b| == 4
    ensures ToBytes(FromBytes(b)) == b
  {
    var v := FromBytes(b);
    var q1: int := b[2] as int + 0x100 * b[3] as int;
    var q0: int := b[1] as int + 0x100 * q1;
    ByteSplit(v, q0, b[0]);
    ByteSplit(q0, q1, b[1]);
    ByteSplit(q1, b[3], b[2]);
    ShortSplit(v, q1, b[0] as int + 0x100 * b[1] as int);
    assert v / 0x100_0000 == b[3];
  }

  /** x = 256 q + r with r a byte: the low byte and the rest. */
  lemma ByteSplit(x: int, q: int, r: int)
    requires 0 <= r < 0x100 && x == 0x100 * q + r
    ensures x % 0x100 == r && x / 0x100 == q
  {
  }

  /** x = 65536 q + r with 0 <= r < 65536: the low half and the rest. */
  lemma ShortSplit(x: int, q: int, r: int)
    requires 0 <= r < 0x1_0000 && x == 0x1_0000 * q + r
    ensures x / 0x1_0000 == q
  {
  }

  /** The register at addr. */
  function Word(buf: Buffer, addr: int): (v: nat)
    requires InRange(addr)
    ensures v < WORD_RANGE
  {
    FromBytes(buf[4 * addr .. 4 * addr + 4])
  }

  /** The window with register addr overwritten by v: exactly bytes
      4addr..4addr+3 change. */
  function Store(buf: Buffer, addr: int, v: nat): (r: Buffer)
    requires InRange(addr) && v < WORD_RANGE
    ensures r[4 * addr .. 4 * addr + 4] == ToBytes(v)
    ensures forall i :: 0 <= i < BUFFER_SIZE && !(4 * addr <= i < 4 * addr + 4) ==> r[i] == buf[i]
  {
    buf[..4 * addr] + ToBytes(v) + buf[4 * addr + 4..]
  }

  /** A window that agrees with the store at every byte is the store. */
  lemma StoreAt(buf: Buffer, addr: int, v: nat, r: seq<byte>)
    requires InRange(addr) && v < WORD_RANGE && |r| == BUFFER_SIZE
    requires forall i :: 0 <= i < BUFFER_SIZE ==> r[i] == if 4 * addr <= i < 4 * addr + 4 then ToBytes(v)[i - 4 * addr] else buf[i]
    ensures r == Store(buf, addr, v)
  {
    var s := Store(buf, addr, v);
    forall i | 0 <= i < BUFFER_SIZE ensures r[i] == s[i] {
      if 4 * addr <= i < 4 * addr + 4 {
        assert s[4 * addr .. 4 * addr + 4][i - 4 * addr] == s[i];
      }
    }
  }

  /** A stored register reads back. */
  lemma StoreThenWord(buf: Buffer, addr: int, v: nat)
    requires InRange(addr) && v < WORD_RANGE
    ensures Word(Store(buf, addr, v), addr) == v
  {
    ToBytesRoundTrip(v);
  }

  /** Storing one register leaves every other register as it was. */
  lemma StoreKeepsOthers(buf: Buffer, addr: int, v: nat, other: int)
    requires InRange(addr) && v < WORD_RANGE && InRange(other) && other != addr
    ensures Word(Store(buf, addr, v), other) == Word(buf, other)
  {
    var r := Store(buf, addr, v);
    assert r[4 * other .. 4 * other + 4] == buf[4 * other .. 4 * other + 4];
  }

  /** Storing the value a register already holds changes nothing. */
  lemma StoreSame(buf: Buffer, addr: int)
    requires InRange(addr)
    ensures Store(buf, addr, Word(buf, addr)) == buf
  {
    FromBytesRoundTrip(buf[4 * addr .. 4 * addr + 4]);
    assert buf == buf[..4 * addr] + buf[4 * addr .. 4 * addr + 4] + buf[4 * addr + 4..];
  }

  /** f'0x{value:08x}'. */
  function HexWord(v: nat): (s: string)
    ensures |s| >= 2 && s[..2] == "0x" && IsNumeral(s[2..], 16) && LowerCase(s[2..])
  {
    var h := Hex(v, 8);
    assert ("0x" + h)[2..] == h;
    "0x" + h
  }

  /** A register value renders as "0x" and eight hexadecimal digits that
      read back as the value. */
  lemma HexWordReadsBack(v: nat)
    requires v < WORD_RANGE
    ensures |HexWord(v)| == 10 && NumeralValue(HexWord(v)[2..], 16) == v
  {
    assert Pow(16, 8) == WORD_RANGE;
    HexRoundTrip(v, 8);
    assert HexWord(v)[2..] == Hex(v, 8);
  }
}
