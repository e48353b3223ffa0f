/** The LED strip's line encoding, LedSegment.h.

    Every colour bit becomes a symbol of three bits on an SPI line, 110 for a one and 100 for a zero,
    packed most significant bit first into bytes. */
module LedSegment {
  const SPI_BITS_PER_PIXEL: nat := 3
  const COLOR_BITS_PER_PIXEL: nat := 24
  const PADDING_BITS: nat := 16

  datatype Color = Color(r: bv8, g: bv8, b: bv8)

  function DataLen(n: nat): (len: nat)
    ensures 8 * len == 72 * n + 16
  {
    assert n * COLOR_BITS_PER_PIXEL * SPI_BITS_PER_PIXEL == 72 * n;
    n * COLOR_BITS_PER_PIXEL * SPI_BITS_PER_PIXEL / 8 + PADDING_BITS / 8
  }

  /** The byte whose one bit has rank k, the most significant bit being rank 0. */
  function Mask(k: nat): bv8
    requires k < 8
  {
    if k == 0 then 0x80 else if k == 1 then 0x40 else if k == 2 then 0x20 else if k == 3 then 0x10
    else if k == 4 then 8 else if k == 5 then 4 else if k == 6 then 2 else 1
  }

  predicate BitOf(b: bv8, k: nat)
    requires k < 8
  {
    b & Mask(k) != 0
  }

  /** Bit k of a byte sequence read as one line of bits. */
  predicate LineBit(bytes: seq<bv8>, k: nat)
    requires k < 8 * |bytes|
  {
    BitOf(bytes[k / 8], k % 8)
  }

  /** The channels in the order the strip wants them: green, red, blue. */
  function Channel(c: Color, n: nat): bv8 {
    if n == 0 then c.g else if n == 1 then c.r else c.b
  }

  predicate ColorBit(c: Color, i: nat)
    requires i < 24
  {
    BitOf(Channel(c, i / 8), i % 8)
  }

  function FullColorBits(c: Color): bv32 {
    (c.g as bv32 << 16) | (c.r as bv32 << 8) | (c.b as bv32)
  }

  /** Shifting the packed colour selects the colour bit of that rank. */
  lemma FullColorBit(c: Color, i: nat)
    requires i < 24
    ensures Shifted(FullColorBits(c), 23 - i) == ColorBit(c, i)
  {
    hide FullColorBits, Shifted, ShiftedByte, BitOf;
    PackedChannels(c);
    if i < 8 {
      GreenBit(FullColorBits(c), c.g, i);
      ShiftedBit(c.g, i);
    } else if i < 16 {
      assert i / 8 == 1 && 15 - (i - 8) == 23 - i;
      RedBit(FullColorBits(c), c.r, i - 8);
      ShiftedBit(c.r, i - 8);
    } else {
      assert i / 8 == 2 && 7 - (i - 16) == 23 - i;
      BlueBit(FullColorBits(c), c.b, i - 16);
      ShiftedBit(c.b, i - 16);
    }
  }

  /** The bit a right shift by n leaves lowest. */
  predicate Shifted(x: bv32, n: nat)
    requires n < 32
  {
    (x >> n) & 1 == 1
  }

  predicate ShiftedByte(b: bv8, n: nat)
    requires n < 8
  {
    (b >> n) & 1 == 1
  }

  /** The channels as bytes of the packed colour. */
  lemma PackedChannels(c: Color)
    ensures (FullColorBits(c) >> 16) & 255 == c.g as bv32
    ensures (FullColorBits(c) >> 8) & 255 == c.r as bv32
    ensures FullColorBits(c) & 255 == c.b as bv32
  {
  }

  lemma GreenBit(x: bv32, b: bv8, k: nat)
    requires (x >> 16) & 255 == b as bv32 && k < 8
    ensures Shifted(x, 23 - k) == ShiftedByte(b, 7 - k)
  {
    if k == 0 {} else if k == 1 {} else if k == 2 {} else if k == 3 {} else if k == 4 {} else if k == 5 {} else if k == 6 {} else {}
  }

  lemma RedBit(x: bv32, b: bv8, k: nat)
    requires (x >> 8) & 255 == b as bv32 && k < 8
    ensures Shifted(x, 15 - k) == ShiftedByte(b, 7 - k)
  {
    if k == 0 {} else if k == 1 {} else if k == 2 {} else if k == 3 {} else if k == 4 {} else if k == 5 {} else if k == 6 {} else {}
  }

  lemma BlueBit(x: bv32, b: bv8, k: nat)
    requires x & 255 == b as bv32 && k < 8
    ensures Shifted(x, 7 - k) == ShiftedByte(b, 7 - k)
  {
  }

  lemma ShiftedBit(b: bv8, k: nat)
    requires k < 8
    ensures ShiftedByte(b, 7 - k) == BitOf(b, k)
  {
    if k == 0 {} else if k == 1 {} else if k == 2 {} else if k == 3 {} else if k == 4 {} else if k == 5 {} else if k == 6 {} else {}
  }

  lemma ShiftIsMask(k: nat)
    requires k < 8
    ensures (1 as bv8) << (7 - k) == Mask(k) && (0 as bv8) << (7 - k) == 0
  {
    if k == 0 {} else if k == 1 {} else if k == 2 {} else if k == 3 {} else if k == 4 {} else if k == 5 {} else if k == 6 {} else {}
  }

  lemma SetBit(b: bv8, k: nat, j: nat)
    requires k < 8 && j < 8
    ensures BitOf(b | Mask(k), j) == (j == k || BitOf(b, j))
  {
  }

  lemma ZeroBit(j: nat)
    requires j < 8
    ensures !BitOf(0, j)
  {
  }

  /** The bits of the colours, one colour after the other. */
  ghost function ColorBits(data: seq<Color>): (r: seq<bool>)
    ensures |r| == 24 * |data|
  {
    seq(24 * |data|, k requires 0 <= k < 24 * |data| => ColorBit(data[k / 24], k % 24))
  }

  lemma ColorBitsAt(data: seq<Color>, d: nat, i: nat)
    requires d < |data| && i < 24
    ensures 24 * d + i < 24 * |data| && ColorBits(data)[24 * d + i] == ColorBit(data[d], i)
  {
    assert (24 * d + i) / 24 == d && (24 * d + i) % 24 == i;
  }

  /** The symbol of one colour bit. */
  ghost function Symbol(one: bool): seq<bool> {
    [true, one, false]
  }

  /** The line encoding of the first n bits, symbol by symbol. */
  ghost function Encoded(bits: seq<bool>, n: nat): (r: seq<bool>)
    requires n <= |bits|
    ensures |r| == 3 * n
  {
    if n == 0 then [] else Encoded(bits, n - 1) + Symbol(bits[n - 1])
  }

  ghost function Padding(): (r: seq<bool>)
    ensures |r| == PADDING_BITS && true !in r
  {
    seq(PADDING_BITS, _ => false)
  }

  /** What the SPI line carries for an array of colours: the encoding, and zeros for padding. */
  ghost function Line(data: seq<Color>): seq<bool> {
    Encoded(ColorBits(data), 24 * |data|) + Padding()
  }

  /** The bytes carry these bits, then zeros. */
  ghost predicate Carries(bytes: seq<bv8>, bits: seq<bool>) {
    && |bits| <= 8 * |bytes|
    && forall k {:trigger LineBit(bytes, k)} :: 0 <= k < 8 * |bytes| ==> LineBit(bytes, k) == (k < |bits| && bits[k])
  }

  /** A byte with one bit ORed into rank k. */
  function WithBit(b: bv8, k: nat, bit: bool): bv8
    requires k < 8
  {
    b | if bit then Mask(k) else 0
  }

  /** ORing the next bit into a buffer that carries these bits makes it carry one more. */
  lemma BitOred(bytes: seq<bv8>, bits: seq<bool>, bit: bool)
    requires |bits| < 8 * |bytes| && Carries(bytes, bits)
    ensures var at := |bits| / 8;
            Carries(bytes[at := WithBit(bytes[at], |bits| % 8, bit)], bits + [bit])
  {
    hide BitOf, WithBit;
    var n := |bits|;
    var now := bytes[n / 8 := WithBit(bytes[n / 8], n % 8, bit)];
    forall k | 0 <= k < 8 * |bytes|
      ensures LineBit(now, k) == (k <= n && (bits + [bit])[k])
    {
      if k / 8 == n / 8 {
        OredBit(bytes[n / 8], n % 8, bit, k % 8);
        assert LineBit(bytes, k) == (k < n && bits[k]);
        assert k % 8 == n % 8 <==> k == n;
      } else {
        assert LineBit(bytes, k) == LineBit(now, k);
      }
    }
  }

  lemma OredBit(b: bv8, k: nat, bit: bool, j: nat)
    requires k < 8 && j < 8
    ensures BitOf(WithBit(b, k, bit), j) == (BitOf(b, j) || (bit && j == k))
  {
    if bit {
      SetBit(b, k, j);
    } else {
      assert b | 0 == b;
    }
  }

  class LedSegment {
    const n: nat
    const spiBuf: array<bv8>

    constructor (n: nat)
      ensures this.n == n && spiBuf.Length == DataLen(n) && fresh(spiBuf)
    {
      this.n := n;
      spiBuf := new bv8[DataLen(n)];
    }

    /** OR one bit into the buffer. */
    method OrBit(bitNum: nat, bit: bool, ghost bits: seq<bool>)
      requires |bits| == bitNum < 8 * spiBuf.Length && Carries(spiBuf[..], bits)
      modifies spiBuf
      ensures Carries(spiBuf[..], bits + [bit])
    {
      hide BitOf, Mask, Carries;
      ghost var was := spiBuf[..];
      var one: bv8 := if bit then 1 else 0;
      ShiftIsMask(bitNum % 8);
      spiBuf[bitNum / 8] := spiBuf[bitNum / 8] | (one << (7 - bitNum % 8));
      assert spiBuf[..] == was[bitNum / 8 := WithBit(was[bitNum / 8], bitNum % 8, bit)];
      BitOred(was, bits, bit);
    }

    /** Bit i of a packed colour, shifted out. */
    static method ShiftOut(fullColorBits: bv32, i: nat, ghost c: Color) returns (s: bv32)
      requires fullColorBits == FullColorBits(c) && i < 24
      ensures (s == 1) == ColorBit(c, i)
    {
      s := (fullColorBits >> (23 - i)) & 1;
      FullColorBit(c, i);
    }

    /** OR the three line bits of one colour bit into the buffer. */
    method OrSymbol(bitNum: nat, s: bv32, ghost bits: seq<bool>)
      requires |bits| == bitNum && bitNum + 3 <= 8 * spiBuf.Length && Carries(spiBuf[..], bits)
      modifies spiBuf
      ensures Carries(spiBuf[..], bits + Symbol(s == 1))
    {
      if s == 1 {
        OrBit(bitNum, true, bits);
        OrBit(bitNum + 1, true, bits + [true]);
        OrBit(bitNum + 2, false, bits + [true] + [true]);
      } else {
        OrBit(bitNum, true, bits);
        OrBit(bitNum + 1, false, bits + [true]);
        OrBit(bitNum + 2, false, bits + [true] + [false]);
      }
      assert bits + Symbol(s == 1) == bits + [true] + [s == 1] + [false];
    }

    method Clear()
      modifies spiBuf
      ensures Carries(spiBuf[..], [])
    {
      forall i | 0 <= i < spiBuf.Length {
        spiBuf[i] := 0;
      }
      forall k | 0 <= k < 8 * spiBuf.Length
        ensures !LineBit(spiBuf[..], k)
      {
        ZeroBit(k % 8);
      }
    }

    /** OR the 72 line bits of the d-th colour into the buffer. */
    method OrColor(data: seq<Color>, d: nat, ghost bits: seq<bool>)
      requires d < |data| && bits == ColorBits(data) && 72 * (d + 1) <= 8 * spiBuf.Length
      requires Carries(spiBuf[..], Encoded(bits, 24 * d))
      modifies spiBuf
      ensures Carries(spiBuf[..], Encoded(bits, 24 * (d + 1)))
    {
      hide Carries, ColorBits, ColorBit, FullColorBits;
      var fullColorBits := FullColorBits(data[d]);
      for i := 0 to 24
        invariant Carries(spiBuf[..], Encoded(bits, 24 * d + i))
      {
        var s := ShiftOut(fullColorBits, i, data[d]);
        ColorBitsAt(data, d, i);
        OrSymbol(72 * d + 3 * i, s, Encoded(bits, 24 * d + i));
        assert Encoded(bits, 24 * d + (i + 1)) == Encoded(bits, 24 * d + i) + Symbol(s == 1);
      }
    }

    /** Whatever the buffer held, it ends up carrying the encoding of the colours and 16 padding bits,
        which together fill it exactly.  Bit by bit: bit 3j of the line is one, bit 3j + 1 is the j-th colour
        bit, bit 3j + 2 is zero, and past the colours all bits are zero. */
    method ConvertNeoToSpi(data: seq<Color>)
      requires |data| == n && spiBuf.Length == DataLen(n)
      modifies spiBuf
      ensures Carries(spiBuf[..], Line(data)) && |Line(data)| == 8 * spiBuf.Length
      ensures forall k :: 0 <= k < 72 * |data| ==>
                LineBit(spiBuf[..], k) == (k % 3 == 0 || (k % 3 == 1 && ColorBit(data[k / 3 / 24], k / 3 % 24)))
      ensures forall k :: 72 * |data| <= k < 8 * spiBuf.Length ==> !LineBit(spiBuf[..], k)
    {
      Clear();
      ghost var bits := ColorBits(data);
      assert Encoded(bits, 0) == [];
      hide ColorBits, Encoded, Line, Carries, LineBit, ColorBit;
      for d := 0 to |data|
        invariant Carries(spiBuf[..], Encoded(bits, 24 * d))
      {
        OrColor(data, d, bits);
      }
      Padded(spiBuf[..], data);
      LineBitByBit(spiBuf[..], data);
    }
  }

  /** Bytes that carry some bits carry zeros after them. */
  lemma ZerosFollow(bytes: seq<bv8>, bits: seq<bool>, zeros: seq<bool>)
    requires Carries(bytes, bits) && |bits| + |zeros| <= 8 * |bytes| && true !in zeros
    ensures Carries(bytes, bits + zeros)
  {
    hide LineBit;
    forall k | 0 <= k < 8 * |bytes|
      ensures LineBit(bytes, k) == (k < |bits + zeros| && (bits + zeros)[k])
    {
      if |bits| <= k < |bits + zeros| {
        assert (bits + zeros)[k] == zeros[k - |bits|];
      }
    }
  }

  lemma Padded(bytes: seq<bv8>, data: seq<Color>)
    requires |bytes| == DataLen(|data|) && Carries(bytes, Encoded(ColorBits(data), 24 * |data|))
    ensures Carries(bytes, Line(data)) && |Line(data)| == 8 * |bytes|
  {
    hide Carries, ColorBits, Encoded, DataLen, Padding;
    ZerosFollow(bytes, Encoded(ColorBits(data), 24 * |data|), Padding());
  }

  /** The three bits of the j-th symbol. */
  lemma {:induction false} EncodedSymbol(bits: seq<bool>, n: nat, j: nat)
    requires j < n <= |bits|
    ensures var e := Encoded(bits, n);
            e[3 * j] && e[3 * j + 1] == bits[j] && !e[3 * j + 2]
  {
    if j < n - 1 {
      EncodedSymbol(bits, n - 1, j);
    }
  }

  lemma LineBitByBit(bytes: seq<bv8>, data: seq<Color>)
    requires Carries(bytes, Line(data)) && |bytes| == DataLen(|data|)
    ensures forall k :: 0 <= k < 72 * |data| ==>
              LineBit(bytes, k) == (k % 3 == 0 || (k % 3 == 1 && ColorBit(data[k / 3 / 24], k / 3 % 24)))
    ensures forall k :: 72 * |data| <= k < 8 * |bytes| ==> !LineBit(bytes, k)
  {
    hide Encoded, BitOf, LineBit;
    var bits, n := ColorBits(data), 24 * |data|;
    forall k | 0 <= k < 72 * |data|
      ensures LineBit(bytes, k) == (k % 3 == 0 || (k % 3 == 1 && ColorBit(data[k / 3 / 24], k / 3 % 24)))
    {
      EncodedSymbol(bits, n, k / 3);
      assert k == 3 * (k / 3) + k % 3 && Line(data)[k] == Encoded(bits, n)[k];
    }
    forall k | 72 * |data| <= k < 8 * |bytes|
      ensures !LineBit(bytes, k)
    {
      assert Line(data)[k] == Padding()[k - 3 * n];
    }
  }

  /** The middle bit of the j-th symbol. */
  predicate Middle(bytes: seq<bv8>, j: nat)
    requires 3 * j + 3 <= 8 * |bytes|
  {
    LineBit(bytes, 3 * j + 1)
  }

  /** The byte made of the middle bits of eight symbols, the j-th on. */
  function MiddleByte(bytes: seq<bv8>, j: nat): bv8
    requires 3 * j + 24 <= 8 * |bytes|
  {
    FromBits(Middle(bytes, j), Middle(bytes, j + 1), Middle(bytes, j + 2), Middle(bytes, j + 3),
             Middle(bytes, j + 4), Middle(bytes, j + 5), Middle(bytes, j + 6), Middle(bytes, j + 7))
  }

  function FromBits(b0: bool, b1: bool, b2: bool, b3: bool, b4: bool, b5: bool, b6: bool, b7: bool): bv8 {
    (if b0 then 128 else 0) | (if b1 then 64 else 0) | (if b2 then 32 else 0) | (if b3 then 16 else 0) |
    (if b4 then 8 else 0) | (if b5 then 4 else 0) | (if b6 then 2 else 0) | (if b7 then 1 else 0)
  }

  /** The decoder: n colours from the middle bits of the symbols. */
  function Decoded(bytes: seq<bv8>, n: nat): (r: seq<Color>)
    requires 72 * n <= 8 * |bytes|
    ensures |r| == n
  {
    seq(n, d requires 0 <= d < n => Color(
      MiddleByte(bytes, 24 * d + 8 * 1), MiddleByte(bytes, 24 * d + 8 * 0), MiddleByte(bytes, 24 * d + 8 * 2)))
  }

  lemma FromItsBits(b: bv8)
    ensures FromBits(BitOf(b, 0), BitOf(b, 1), BitOf(b, 2), BitOf(b, 3),
                     BitOf(b, 4), BitOf(b, 5), BitOf(b, 6), BitOf(b, 7)) == b
  {
  }

  lemma MiddleByteIs(bytes: seq<bv8>, j: nat, b: bv8)
    requires 3 * j + 24 <= 8 * |bytes|
    requires forall i :: j <= i < j + 8 ==> Middle(bytes, i) == BitOf(b, i - j)
    ensures MiddleByte(bytes, j) == b
  {
    FromItsBits(b);
  }

  lemma MiddleOfLine(bytes: seq<bv8>, data: seq<Color>, j: nat)
    requires Carries(bytes, Line(data)) && j < 24 * |data|
    ensures 72 * |data| <= 8 * |bytes| && Middle(bytes, j) == ColorBits(data)[j]
  {
    EncodedSymbol(ColorBits(data), 24 * |data|, j);
  }

  /** Eight bits of one colour, read back as a channel. */
  lemma ChannelDecoded(bytes: seq<bv8>, data: seq<Color>, d: nat, n: nat)
    requires Carries(bytes, Line(data)) && d < |data| && n < 3
    ensures 72 * |data| <= 8 * |bytes| && MiddleByte(bytes, 24 * d + 8 * n) == Channel(data[d], n)
  {
    hide BitOf, FromBits, Encoded, ColorBits;
    var first := 24 * d + 8 * n;
    forall j | first <= j < first + 8
      ensures 3 * j + 3 <= 8 * |bytes| && Middle(bytes, j) == BitOf(Channel(data[d], n), j - first)
    {
      ColorBitsAt(data, d, j - 24 * d);
      MiddleOfLine(bytes, data, j);
    }
    MiddleByteIs(bytes, first, Channel(data[d], n));
  }

  /** The encoding is invertible: the decoder recovers the colours from whatever carries their line. */
  lemma RoundTrip(bytes: seq<bv8>, data: seq<Color>)
    requires Carries(bytes, Line(data))
    ensures 72 * |data| <= 8 * |bytes| && Decoded(bytes, |data|) == data
  {
    hide MiddleByte;
    forall d | 0 <= d < |data|
      ensures Decoded(bytes, |data|)[d] == data[d]
    {
      ChannelDecoded(bytes, data, d, 0);
      ChannelDecoded(bytes, data, d, 1);
      ChannelDecoded(bytes, data, d, 2);
    }
  }

  /** Distinct colours never share a buffer. */
  lemma Injective(bytes: seq<bv8>, data: seq<Color>, data': seq<Color>)
    requires |data| == |data'| && Carries(bytes, Line(data)) && Carries(bytes, Line(data'))
    ensures data == data'
  {
    RoundTrip(bytes, data);
    RoundTrip(bytes, data');
  }
}
