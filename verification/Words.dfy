/** Unsigned 32-bit words as bytes, in network order and in little-endian order. */
module Words {

  type Byte = b: nat | b < 256
  type Word = w: nat | w < 0x1_0000_0000

  const MAX: nat := 0xffff_ffff

  function Join(high: int, low: int): int { 0x100 * high + low }

  lemma JoinSplits(high: nat, low: nat)
    requires low < 0x100
    ensures Join(high, low) / 0x100 == high && Join(high, low) % 0x100 == low
  {
  }

  function BigEndian(w: Word): (b: seq<Byte>)
    ensures |b| == 4
  {
    [w / 0x100 / 0x100 / 0x100, w / 0x100 / 0x100 % 0x100, w / 0x100 % 0x100, w % 0x100]
  }

  function FromBigEndian(b: seq<Byte>): Word
    requires |b| == 4
  {
    Join(Join(Join(b[0], b[1]), b[2]), b[3])
  }

  lemma BigEndianRoundTrip(w: Word, b: seq<Byte>)
    requires |b| == 4
    ensures FromBigEndian(BigEndian(w)) == w
    ensures BigEndian(FromBigEndian(b)) == b
  {
    JoinSplits(Join(Join(b[0], b[1]), b[2]), b[3]);
    JoinSplits(Join(b[0], b[1]), b[2]);
    JoinSplits(b[0], b[1]);
  }

  function LittleEndian(w: Word): (b: seq<Byte>)
    ensures |b| == 4
  {
    var b := BigEndian(w);
    [b[3], b[2], b[1], b[0]]
  }

  function FromLittleEndian(b: seq<Byte>): Word
    requires |b| == 4
  {
    FromBigEndian([b[3], b[2], b[1], b[0]])
  }

  lemma LittleEndianRoundTrip(w: Word, b: seq<Byte>)
    requires |b| == 4
    ensures FromLittleEndian(LittleEndian(w)) == w
    ensures LittleEndian(FromLittleEndian(b)) == b
  {
    hide BigEndian, FromBigEndian;
    BigEndianRoundTrip(w, [b[3], b[2], b[1], b[0]]);
    assert BigEndian(w) == [BigEndian(w)[0], BigEndian(w)[1], BigEndian(w)[2], BigEndian(w)[3]];
  }

  /** The number with these digits to base 256, least significant first. */
  function Number(d0: int, d1: int, d2: int, d3: int): int {
    d0 + 256 * d1 + 65536 * d2 + 16777216 * d3
  }

  /** What the bytes are worth. */
  lemma WordValue(w: Word, b: seq<Byte>)
    requires |b| == 4
    ensures FromBigEndian(b) == Number(b[3], b[2], b[1], b[0])
    ensures FromLittleEndian(b) == Number(b[0], b[1], b[2], b[3])
    ensures var x := BigEndian(w); w == Number(x[3], x[2], x[1], x[0])
    ensures var y := LittleEndian(w); w == Number(y[0], y[1], y[2], y[3])
  {
    BigEndianRoundTrip(w, b);
    hide BigEndian;
  }
}
